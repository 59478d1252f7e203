# Storefront listing core, modelled in Dafny

This project models the logic of a grocery storefront's product and promotion
listings, on both sides of the wire.

- **Frontend.**
  - The pagination control's page window.
  - The home-page banner carousel: which banner is shown and whether it is paused.
  - The two list hooks: defaults, cache key, fallbacks, and `totalPages = ceil(total / pageSize)`.
  - The promotions page: its filter and page state, and its parsing of `"min-max"` discount ranges.
  - The promotion filter panel: the fixed discount-range table and selection rules.
- **Backend.**
  - The query validation of the product and promotion list endpoints, and the `|| null` mapping to service parameters.
  - The choice between a success envelope, a 400 `VALIDATION_ERROR`, and handing the error to `next`.
  - The list services: they bind parameters to a stored procedure by name and reshape its recordsets into rows and a total.
  - The reusable field validators (`zString`, `zFK`, `zPrice`, ...).

One module per source file, plus shared modules:
- `Wrappers`: Option and Result.
- `Catalog`: records and sort keys.
- `Http`: envelopes and the shared catch block.
- `QuerySchema`: field checks shared by both endpoints.
- `Procedure`: procedure calls and recordsets.
- `PageMath`: ceiling division.
- `ListResponse`: the response fallbacks.
- `Decimal`: digit strings, `Number(...)` on them, and `split`.
- `Falsy`: `x || null` / `x || undefined`.
- `Arith`: small facts about multiplication and modulo.

Form follows the source:
- `Pagination.GetPageNumbers` is a method with the source's push loops, proved equal to the specification function `PageWindow`.
- The carousel and the promotions page are classes whose handlers update fields. Each carousel handler is proved to perform one step of the event function `Step`.
- Everything else is functions over values.

JavaScript falsiness is copied exactly:
- `|| null` sends a zero category or discount as null.
- `transitionTime || 5` treats a zero transition time as five seconds.
- `total || 0`, and `!range` also treats `""` as no range.
- Destructuring defaults replace only missing options, so a given page 0 stays 0.

External code is passed in as a parameter:
- the stored-procedure executor given to the services;
- the service given to the handlers;
- the cached response given to the hooks.

A timer firing is an abstract event.

## Model

| member | source | states |
|---|---|---|
| Pagination.GetPageNumbers | frontend/src/domain/product/components/Pagination/main.tsx:19-52 | the loops build exactly the window `PageWindow(currentPage, totalPages)` |
| Pagination.WindowShape | frontend/src/domain/product/components/Pagination/main.tsx:19-52 | for 1 <= currentPage <= totalPages: at most 7 entries, first 1, last totalPages, numbers strictly increasing within [1, totalPages], current page shown, every ellipsis stands for at least one hidden page, neighbouring numbers otherwise consecutive |
| Pagination.FewPagesListsAll | frontend/src/domain/product/components/Pagination/main.tsx:23-26 | with at most 5 pages the list is exactly 1..totalPages, with no ellipsis |
| Pagination.ManyPagesLayouts | frontend/src/domain/product/components/Pagination/main.tsx:28-48 | with more than 5 pages: the start layout [1,2,3,4,…,T] for currentPage <= 3, the end layout [1,…,T-3..T] near the end, otherwise [1,…,c-1,c,c+1,…,T] |
| Pagination.TenPageExamples | frontend/src/domain/product/components/Pagination/main.tsx:28-48 | the three layouts for ten pages at pages 1, 10 and 5 |
| Pagination.Render | frontend/src/domain/product/components/Pagination/main.tsx:15-17 | the control is hidden exactly when totalPages <= 1; otherwise it shows the page window |
| Pagination.NavigationTargetsInRange | frontend/src/domain/product/components/Pagination/main.tsx:58-85 | Previous is enabled exactly when page c-1 exists, Next exactly when page c+1 exists, and every page button targets a page in 1..totalPages |
| BannerCarousel.TransitionSeconds | frontend/src/domain/promotion/components/BannerCarousel/main.tsx:13 | the tick period is never 0: it is the banner's non-zero transition time, and exactly 5 seconds when that is 0 |
| BannerCarousel.NextPreviousRoundTrip | frontend/src/domain/promotion/components/BannerCarousel/main.tsx:29-35 | next and previous keep the index in range and undo each other |
| BannerCarousel.StepKeepsIndexInRange | frontend/src/domain/promotion/components/BannerCarousel/main.tsx:14-39 | one event with a valid indicator target keeps 0 <= index < N |
| BannerCarousel.RunKeepsIndexInRange | frontend/src/domain/promotion/components/BannerCarousel/main.tsx:7-47 | any sequence of valid events from an in-range state (such as the initial one) keeps 0 <= index < N |
| BannerCarousel.EventFootprints | frontend/src/domain/promotion/components/BannerCarousel/main.tsx:37-47 | only pointer events change the pause flag and they leave the index alone; an indicator click sets the index and nothing else |
| BannerCarousel.PausedTicksChangeNothing | frontend/src/domain/promotion/components/BannerCarousel/main.tsx:11 | while paused no number of ticks moves the carousel |
| BannerCarousel.UnpausedTicksAdvance | frontend/src/domain/promotion/components/BannerCarousel/main.tsx:14-16 | while not paused, k ticks advance the index to (index + k) mod N |
| BannerCarousel.Carousel.ShowsNavigation | frontend/src/domain/promotion/components/BannerCarousel/main.tsx:63 | previous, next and the indicators are shown exactly when there are at least two banners |
| BannerCarousel.SingleBannerStaysPut | frontend/src/domain/promotion/components/BannerCarousel/main.tsx:29-39 | with a single banner, where no navigation is shown, no sequence of events moves the carousel off it |
| BannerCarousel.TwoBannerExample | frontend/src/domain/promotion/components/BannerCarousel/main.tsx:13-16 | banners of 2 s and 3 s: 2 s period, tick to the second banner, 3 s period, nothing moves while paused |
| BannerCarousel.Carousel.constructor | frontend/src/domain/promotion/components/BannerCarousel/main.tsx:7-8 | a mounted carousel starts at the first banner, not paused |
| BannerCarousel.Carousel.CurrentBanner | frontend/src/domain/promotion/components/BannerCarousel/main.tsx:41 | the displayed banner is one of the banners |
| BannerCarousel.Carousel.TimerPeriod | frontend/src/domain/promotion/components/BannerCarousel/main.tsx:10-16 | no interval runs exactly while paused; otherwise its period is the current banner's transition seconds |
| BannerCarousel.Carousel.HandleNext | frontend/src/domain/promotion/components/BannerCarousel/main.tsx:33-35 | the new state is the `NextClicked` step of the old one, and the index stays in range |
| BannerCarousel.Carousel.HandlePrevious | frontend/src/domain/promotion/components/BannerCarousel/main.tsx:29-31 | the new state is the `PreviousClicked` step, and the index stays in range |
| BannerCarousel.Carousel.HandleIndicatorClick | frontend/src/domain/promotion/components/BannerCarousel/main.tsx:37-39 | the new state is the `IndicatorClicked(i)` step |
| BannerCarousel.Carousel.TimerTick | frontend/src/domain/promotion/components/BannerCarousel/main.tsx:14-16 | the new state is the `TimerFired` step: advance when not paused |
| BannerCarousel.Carousel.HandleMouseEnter | frontend/src/domain/promotion/components/BannerCarousel/main.tsx:46 | the new state is the `MouseEnter` step: paused, same index |
| BannerCarousel.Carousel.HandleMouseLeave | frontend/src/domain/promotion/components/BannerCarousel/main.tsx:47 | the new state is the `MouseLeave` step: running, same index |
| Catalog.ParseSortBy | backend/src/api/v1/external/promotion/controller.ts:11-14 | a sort key is accepted exactly when it is the spelling of one of the four sort criteria |
| Falsy.OrAbsent | backend/src/api/v1/external/promotion/controller.ts:69-71 | x or null is null exactly for a missing value or 0, and otherwise x |
| QuerySchema.OptionalPositiveInt | backend/src/api/v1/external/promotion/controller.ts:8 | accepts exactly a missing value or a positive integer, which it keeps |
| QuerySchema.OptionalPercent | backend/src/api/v1/external/promotion/controller.ts:9-10 | accepts exactly a missing value or an integer in [0, 100] |
| QuerySchema.SortByParam | backend/src/api/v1/external/promotion/controller.ts:11-14 | accepts exactly a missing value or one of the four spellings; the default is `maior_desconto` |
| QuerySchema.PageParam | backend/src/api/v1/external/promotion/controller.ts:15 | accepts exactly a missing value or a positive integer; the default is 1 |
| QuerySchema.PageSizeParam | backend/src/api/v1/external/promotion/controller.ts:16-21 | accepts exactly a missing value or 12, 24 or 36; the default is 12 |
| Http.CatchListError | backend/src/api/v1/external/promotion/controller.ts:84-92 | an error named "ZodError" gets 400 with code VALIDATION_ERROR and its issues; any other goes to `next` unchanged |
| PromotionController.ParseQuery | backend/src/api/v1/external/promotion/controller.ts:7-22 | the query is accepted exactly when all six fields are, with defaults filled in and a well-formed result; otherwise the error names the failing fields in schema order |
| PromotionController.ParseUnparse | backend/src/api/v1/external/promotion/controller.ts:7-22 | every well-formed validated query is read back unchanged from its own spelling |
| PromotionController.ServiceParams | backend/src/api/v1/external/promotion/controller.ts:65-75 | the service gets account 1, the category and both discounts through the or-null fallback, and the sort, page and page size unchanged |
| PromotionController.ListHandler | backend/src/api/v1/external/promotion/controller.ts:61-93 | a rejected query gives 400 VALIDATION_ERROR with the failing fields; an accepted query whose service call succeeds gets exactly the 200 carrying the service's rows, the validated page and page size and the service's total, and any 200 is of that form; `next` gets only a service error not named ZodError |
| PromotionController.RejectedQueryIgnoresService | backend/src/api/v1/external/promotion/controller.ts:62-88 | for a rejected query the answer is 400 whatever the service would do, so the service is never reached |
| PromotionController.AcceptedQueryAsksServiceOnce | backend/src/api/v1/external/promotion/controller.ts:67-83 | for an accepted query the answer depends on the service only through its answer to the mapped parameters |
| PromotionController.ServiceErrorsPassOn | backend/src/api/v1/external/promotion/controller.ts:84-92 | a service error goes to `next` unchanged unless it is named ZodError, which is answered with 400 |
| PromotionController.DefaultQuery | backend/src/api/v1/external/promotion/controller.ts:11-21 | an empty query resolves to `maior_desconto`, page 1, 12 per page, which maps to account 1 with no filters |
| PromotionController.ZeroMinimumDiscountBecomesNull | backend/src/api/v1/external/promotion/controller.ts:70 | an accepted minDiscount of 0 reaches the service, and the procedure, as null |
| PromotionController.InvertedDiscountRangeAccepted | backend/src/api/v1/external/promotion/controller.ts:9-10 | a minimum discount above the maximum passes the schema |
| PromotionController.EndToEndListing | backend/src/api/v1/external/promotion/controller.ts:67-83 | through the real service, the procedure's rows and total come back in a 200 envelope with the validated page and page size |
| ProductController.ParseQuery | backend/src/api/v1/external/product/controller.ts:7-16 | the query is accepted exactly when all three fields are, with defaults filled in; otherwise the error names the failing fields in schema order |
| ProductController.ParseUnparse | backend/src/api/v1/external/product/controller.ts:7-16 | every well-formed validated query is read back unchanged from its own spelling |
| ProductController.ServiceParams | backend/src/api/v1/external/product/controller.ts:54-61 | the service gets account 1, the category through the or-null fallback, and the page and page size unchanged |
| ProductController.ListHandler | backend/src/api/v1/external/product/controller.ts:50-79 | a rejected query gives 400 VALIDATION_ERROR; an accepted query whose service call succeeds gets exactly the 200 carrying the service's rows, the validated page and page size and the service's total, and any 200 is of that form; `next` gets only a service error not named ZodError |
| ProductController.RejectedQueryIgnoresService | backend/src/api/v1/external/product/controller.ts:52-74 | for a rejected query the answer is 400 whatever the service would do |
| ProductController.AcceptedQueryAsksServiceOnce | backend/src/api/v1/external/product/controller.ts:56-69 | for an accepted query the answer depends on the service only through its answer to the mapped parameters |
| ProductController.ServiceErrorsPassOn | backend/src/api/v1/external/product/controller.ts:70-78 | a service error not named ZodError goes to `next` unchanged |
| ProductController.DefaultQuery | backend/src/api/v1/external/product/controller.ts:8-15 | an empty query resolves to page 1 of 12 and maps to account 1 with no category |
| ProductController.EndToEndListing | backend/src/api/v1/external/product/controller.ts:56-69 | through the real service, the procedure's rows and total come back in a 200 envelope |
| Procedure.IntOrNull | backend/src/services/promotion/promotionRules.ts:42-43 | a null filter is bound as SQL null, a number as that number |
| Procedure.Reshape | backend/src/services/promotion/promotionRules.ts:50-52 | the rows are the first recordset as-is (empty when recordsets is not an array); the total is the first total row's value, or 0 when recordsets is not an array or the second recordset is missing or empty |
| Procedure.ReshapeRoundTrip | backend/src/services/promotion/promotionRules.ts:50-57 | the rows and total a procedure returns come back unchanged: no filtering, reordering or truncation |
| Procedure.MissingTotalIsZero | backend/src/services/promotion/promotionRules.ts:51-52 | without a total row the total falls back to 0 and the rows are untouched |
| PromotionRules.PromotionListCall | backend/src/services/promotion/promotionRules.ts:39-48 | the call names the promotion procedure and binds each of the seven parameters, unchanged, to the input of its own name |
| PromotionRules.CallRoundTrip | backend/src/services/promotion/promotionRules.ts:39-48 | the parameters can be read back from the call's inputs by name |
| PromotionRules.CallIsInjective | backend/src/services/promotion/promotionRules.ts:39-48 | distinct parameters give distinct calls |
| PromotionRules.PromotionList | backend/src/services/promotion/promotionRules.ts:36-58 | a failing call's error propagates; a successful one is reshaped |
| PromotionRules.PromotionListReturnsProcedureRows | backend/src/services/promotion/promotionRules.ts:50-57 | when the procedure returns rows and a total, the service returns exactly those |
| ProductRules.ProductListCall | backend/src/services/product/productRules.ts:33-39 | the call names the product procedure and binds the four parameters, unchanged, by name |
| ProductRules.CallRoundTrip | backend/src/services/product/productRules.ts:33-39 | the parameters can be read back from the call's inputs by name |
| ProductRules.ProductList | backend/src/services/product/productRules.ts:30-49 | a failing call's error propagates; a successful one is reshaped |
| ProductRules.ProductListReturnsProcedureRows | backend/src/services/product/productRules.ts:41-48 | the procedure's rows and total come back exactly; without a total row the total is 0 |
| ListResponse.ItemsOrEmpty | frontend/src/domain/promotion/hooks/usePromotionList/main.ts:24 | the rows are the response's data, or empty when there is none |
| ListResponse.TotalOrZero | frontend/src/domain/promotion/hooks/usePromotionList/main.ts:25 | the total is the response's metadata total, or 0 when there is none |
| PageMath.TotalPages | frontend/src/domain/promotion/hooks/usePromotionList/main.ts:26 | the page count is not finite exactly when the page size is 0 |
| PageMath.TotalPagesIsLeastCover | frontend/src/domain/promotion/hooks/usePromotionList/main.ts:26 | for a positive page size: 0 pages exactly for 0 items, (n-1)*size < total <= n*size, and no smaller count covers the total |
| PromotionListHook.Resolve | frontend/src/domain/promotion/hooks/usePromotionList/main.ts:6-13 | filters pass through; sort, page and page size take `maior_desconto`, 1 and 12 only when missing |
| PromotionListHook.ResolveKeepsGivenValues | frontend/src/domain/promotion/hooks/usePromotionList/main.ts:6-13 | given values are never overridden, and no options resolve to the documented defaults |
| PromotionListHook.QueryKeyOf | frontend/src/domain/promotion/hooks/usePromotionList/main.ts:15 | the key's scope is "promotions" |
| PromotionListHook.KeyIdentifiesRequest | frontend/src/domain/promotion/hooks/usePromotionList/main.ts:15-20 | the key holds exactly the six request parameters: two options share a key exactly when they send the same request |
| PromotionListHook.UsePromotionList | frontend/src/domain/promotion/hooks/usePromotionList/main.ts:24-37 | the hook returns the response's rows or none, its total or 0, the resolved page and page size, and ceil(total / pageSize) |
| PromotionListHook.NoResponseNoPages | frontend/src/domain/promotion/hooks/usePromotionList/main.ts:24-26 | without a response: no promotions, total 0, zero pages |
| PromotionListHook.TotalPagesCoverTotal | frontend/src/domain/promotion/hooks/usePromotionList/main.ts:26 | totalPages is 0 exactly for total 0 and is the least page count holding every item |
| ProductListHook.Resolve | frontend/src/domain/product/hooks/useProductList/main.ts:6 | the category passes through; page and page size take 1 and 12 only when missing |
| ProductListHook.QueryKeyOf | frontend/src/domain/product/hooks/useProductList/main.ts:8 | the key's scope is "products" |
| ProductListHook.KeyIdentifiesRequest | frontend/src/domain/product/hooks/useProductList/main.ts:8-12 | two options share a key exactly when they send the same three parameters; explicit options resolve to themselves |
| ProductListHook.UseProductList | frontend/src/domain/product/hooks/useProductList/main.ts:16-29 | the hook returns the rows or none, the total or 0, the resolved page and page size, and ceil(total / pageSize) |
| ProductListHook.TotalPagesCoverTotal | frontend/src/domain/product/hooks/useProductList/main.ts:18 | totalPages is the least page count holding every item |
| Decimal.ToNumber | frontend/src/pages/Promotions/main.tsx:21 | `Number("")` is 0 and every decoded value is a whole number >= 0 |
| Decimal.NatToStringRoundTrip | frontend/src/pages/Promotions/main.tsx:21 | the decimal spelling of n is a non-empty digit string that reads back as n |
| Decimal.Split | frontend/src/pages/Promotions/main.tsx:21 | splitting always yields at least one piece |
| Decimal.SplitPair | frontend/src/pages/Promotions/main.tsx:21 | two separator-free strings joined by the separator split back into the two |
| Promotions.GetDiscountRange | frontend/src/pages/Promotions/main.tsx:19-23 | no range or "" gives no bounds; a range without '-' gives only a minimum |
| Promotions.DiscountRangeRoundTrip | frontend/src/pages/Promotions/main.tsx:19-23 | reading "lo-hi" gives back lo and hi |
| Promotions.TableRangesReadBack | frontend/src/pages/Promotions/main.tsx:19-25 | each value of the filter table reads back as that option's own bounds; "all discounts" gives none |
| Promotions.HookOptionsFor | frontend/src/pages/Promotions/main.tsx:25-38 | the hook gets the category through the or-undefined fallback, the selected range's table bounds, the sort, the current page and 12 per page |
| Promotions.EmptyListingHidesPagination | frontend/src/pages/Promotions/main.tsx:27-87 | with a total of 0 the hook reports zero pages and the pagination renders nothing |
| Promotions.PromotionsPage.HookOptions | frontend/src/pages/Promotions/main.tsx:25-38 | the page hands the hook its category (0 counting as none), the selected table range's bounds (none for all discounts), its sort, its current page and 12 per page |
| Promotions.PromotionsPage.constructor | frontend/src/pages/Promotions/main.tsx:9-15 | no category, all discounts, `maior_desconto`, page 1 |
| Promotions.PromotionsPage.HandleCategoryChange | frontend/src/pages/Promotions/main.tsx:40-43 | sets the category and resets the page to 1; the other filters are unchanged; the hook's request changes in its category and page only, the page becoming 1 |
| Promotions.PromotionsPage.HandleDiscountRangeChange | frontend/src/pages/Promotions/main.tsx:45-48 | sets the range and resets the page to 1; the other filters are unchanged; the hook's request changes in its discount bounds and page only, the bounds becoming the chosen range's and the page 1 |
| Promotions.PromotionsPage.HandleSortChange | frontend/src/pages/Promotions/main.tsx:50-55 | sets the sort and resets the page to 1; the other filters are unchanged; the hook's request changes in its sort and page only, the page becoming 1 |
| Promotions.PromotionsPage.HandlePageChange | frontend/src/pages/Promotions/main.tsx:57-59 | sets only the page; every filter is unchanged; the hook's request changes in its page only |
| PromotionFilters.DiscountTableShape | frontend/src/domain/promotion/components/PromotionFilters/main.tsx:20-26 | the first option is "all" with no value or bounds; every other option has 0 <= min < max <= 100 and the value "min-max"; the ranges are contiguous from 0 to 100 |
| PromotionFilters.DiscountValuesDistinct | frontend/src/domain/promotion/components/PromotionFilters/main.tsx:20-26 | no two options share a value |
| PromotionFilters.Render | frontend/src/domain/promotion/components/PromotionFilters/main.tsx:16-84 | a spinner exactly while loading; otherwise "Todas" then one button per category, one button per discount option, and the four sort options |
| PromotionFilters.DiscountSelection | frontend/src/domain/promotion/components/PromotionFilters/main.tsx:56-66 | a discount button is selected exactly when its value is the selected range; at most one is, and one is exactly when the range is a table value; every click hands over a table value |
| PromotionFilters.CategorySelection | frontend/src/domain/promotion/components/PromotionFilters/main.tsx:33-49 | "Todas" is selected exactly when no category is; a category button exactly when its id is the selected one; with distinct ids at most one is selected |
| PromotionFilters.SortOptionsMatchEndpoint | frontend/src/domain/promotion/components/PromotionFilters/main.tsx:80-83 | the sort options are all four criteria, and each is accepted by the endpoint's enum |
| ZodValidation.ZStringAccepts | backend/src/utils/validation/zodValidation.ts:3 | zString accepts exactly the non-empty strings |
| ZodValidation.ZNullableStringAccepts | backend/src/utils/validation/zodValidation.ts:4-10 | accepts null and strings, limited only when the limit is given and non-zero; a limit of 0 is the same as none |
| ZodValidation.TextValidatorsAccept | backend/src/utils/validation/zodValidation.ts:12-26 | zName: 1 to 200 characters; zDescription: at most 500; zNullableDescription: that or null, the same as ZNullableString(500); zPhone: at most 20 |
| ZodValidation.ZBitAccepts | backend/src/utils/validation/zodValidation.ts:16 | zBit accepts the numbers 0 and 1 and nothing else |
| ZodValidation.ForeignKeysAccept | backend/src/utils/validation/zodValidation.ts:19-20 | zFK accepts exactly the positive integers; zNullableFK those and null |
| ZodValidation.NumericValidatorsAccept | backend/src/utils/validation/zodValidation.ts:17-33 | zPrice: numbers >= 0 and +Infinity; zQuantity: integers >= 0; zPositiveNumeric: numbers > 0 and +Infinity; zNumeric: any non-NaN number; zBoolean: booleans |
| ZodValidation.NaNAndNullRejected | backend/src/utils/validation/zodValidation.ts:16-33 | no number validator accepts NaN; only the nullable ones accept null |
| ZodValidation.ValidatorInclusions | backend/src/utils/validation/zodValidation.ts:3-33 | every name is a non-empty string; every key is a quantity and a positive number; every quantity is a price; every bit is a quantity |

## Left out

- Rendering and DOM effects are not modelled: JSX markup, CSS class names, and `window.scrollTo` on a page change.
- Wall-clock timing is not modelled. `setInterval`/`clearInterval` become the abstract event `TimerFired`, which happens only while no pause is in force.
- The carousel's loading spinner, its rendering of nothing for an empty banner list, and a banner list that changes while mounted are not modelled. The carousel holds a fixed, non-empty list.
- BannerCarousel.TransitionSeconds: a missing or NaN transition time, which `|| 5` would also replace by 5, is not modelled. The banner record always carries a whole number.
- The query cache (`useQuery`, `staleTime`, `refetch`) and the hooks' `isLoading`/`error` results are not modelled. A hook receives the cached response for its key, or none.
- The HTTP client services and the database pool are left out. The stored-procedure executor is a function parameter of the services, and the service is a function parameter of the handlers.
- Number coercion of query strings is taken as already done. A field is absent, an integer, or a non-integer (fraction, NaN, infinity). Query values that are arrays or objects are not modelled.
- Zod's issue objects are reduced to the names of the failing fields, in schema order.
- The middleware's `successResponse`/`errorResponse` helpers are not part of this model. Envelopes are modelled by their documented fields.
- Route registration is not modelled. backend/src/routes/v1/externalRoutes.ts registers only the product and category routes, so the promotion handler is not reachable through that router.
- The email and datetime validators (`zEmail`, `zDateString`, `zNullableDateString`) are not modelled: their formats are library behaviour. String lengths are counted in characters, whereas zod counts UTF-16 code units.
- Decimal.ToNumber decodes only the empty string and digit strings. Any other text (signs, points, exponents, spaces) is `NotDecoded`, which stands for NaN or a value this model does not decode.
- Promotions.PromotionsPage.HandleDiscountRangeChange: requires one of the filter table's values. The filter panel, its only caller, hands over nothing else. A free-form range string is handled by `GetDiscountRange` but not by the page state.
- Promotions.HookOptionsFor: requires the selected range to be a table value, so the NaN bounds that a malformed range would give the hook are not modelled.
- The category and banner controllers and services, the product and promotion cards, grids, category filter, home page and layout are not part of this model. They are rendering or pass-throughs.
