/** The records the storefront lists, and the promotion sort keys. */
module Catalog {
  import opened Wrappers

  /** The four sort criteria of the promotion listing. */
  datatype SortBy = MaiorDesconto | MenorPreco | MaiorPreco | Alfabetica

  /** The sort keys in the order the filter's drop-down lists them. */
  const AllSortKeys: seq<SortBy> := [MaiorDesconto, MenorPreco, MaiorPreco, Alfabetica]

  /** The spelling of a sort key on the wire. */
  function SortKey(s: SortBy): string
  {
    match s
    case MaiorDesconto => "maior_desconto"
    case MenorPreco => "menor_preco"
    case MaiorPreco => "maior_preco"
    case Alfabetica => "alfabetica"
  }

  /** The enum check of the promotion query schema: exactly the four spellings are accepted. */
  function ParseSortBy(s: string): (r: Option<SortBy>)
    ensures forall k :: r == Some(k) <==> SortKey(k) == s
  {
    if s == "maior_desconto" then Some(MaiorDesconto)
    else if s == "menor_preco" then Some(MenorPreco)
    else if s == "maior_preco" then Some(MaiorPreco)
    else if s == "alfabetica" then Some(Alfabetica)
    else None
  }

  /** A product row of the catalog listing. Prices are decimal numbers. */
  datatype Product = Product(
    idProduct: int, name: string, mainImage: string, price: real,
    unitOfMeasure: string, categoryName: string, onPromotion: bool,
    promotionalPrice: Option<real>, availability: string,
    cultivationType: Option<string>, featured: bool)

  /** A product on promotion, as the promotion listing returns it. */
  datatype Promotion = Promotion(
    idProduct: int, name: string, mainImage: string, price: real,
    promotionalPrice: real, unitOfMeasure: string, categoryName: string,
    discountPercentage: int, promotionTitle: string, startDate: string,
    endDate: string, limitPerCustomer: Option<int>, lastChance: bool)

  /** A category with the number of products in it. */
  datatype Category = Category(
    idCategory: int, name: string, icon: Option<string>, displayOrder: int, productCount: int)

  /** A home-page banner; `transitionTime` is in seconds. */
  datatype Banner = Banner(
    idBanner: int, title: string, subtitle: Option<string>, imageUrl: string,
    destinationUrl: string, startDate: string, endDate: string,
    displayOrder: int, transitionTime: int)
}
