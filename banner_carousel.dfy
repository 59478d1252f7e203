/** The banner carousel: which banner is shown, whether auto-advance is
    paused, and how next/previous/indicator clicks, timer ticks and the
    pointer change that state. */
module BannerCarousel {
  import opened Wrappers
  import opened Catalog
  import Arith

  /** Seconds between ticks when a banner gives no (or a zero) transition time. */
  const DefaultTransitionSeconds: int := 5

  /** The banner after index i, wrapping from the last to the first. */
  function NextIndex(i: int, n: int): int
    requires n > 0
  {
    (i + 1) % n
  }

  /** The banner before index i, wrapping from the first to the last. */
  function PreviousIndex(i: int, n: int): int
    requires n > 0
  {
    (i - 1 + n) % n
  }

  /** The carousel's state: the index of the banner shown and the pause flag. */
  datatype CarouselState = CarouselState(index: int, paused: bool)

  /** The state on mount: the first banner, not paused. */
  const Initial: CarouselState := CarouselState(0, false)

  /** What can happen to a mounted carousel. */
  datatype Event =
    | NextClicked
    | PreviousClicked
    | IndicatorClicked(target: int)
    | TimerFired
    | MouseEnter
    | MouseLeave

  /** Indicator buttons exist only for the indices of the banners. */
  predicate ValidEvent(e: Event, n: int)
  {
    e.IndicatorClicked? ==> 0 <= e.target < n
  }

  /** The effect of one event on a carousel of n banners. A timer tick only
      happens while no pause is in force: when paused no interval is running. */
  function Step(s: CarouselState, e: Event, n: int): CarouselState
    requires n > 0
  {
    match e
    case NextClicked => s.(index := NextIndex(s.index, n))
    case PreviousClicked => s.(index := PreviousIndex(s.index, n))
    case IndicatorClicked(i) => s.(index := i)
    case TimerFired => if s.paused then s else s.(index := NextIndex(s.index, n))
    case MouseEnter => s.(paused := true)
    case MouseLeave => s.(paused := false)
  }

  /** The state after a sequence of events, applied in order. */
  function Run(s: CarouselState, events: seq<Event>, n: int): CarouselState
    requires n > 0
    decreases |events|
  {
    if events == [] then s else Run(Step(s, events[0], n), events[1..], n)
  }

  /** The seconds between ticks for a banner: its transition time, or five
      seconds when that is zero. */
  function TransitionSeconds(b: Banner): (seconds: int)
    ensures seconds != 0
    ensures b.transitionTime != 0 ==> seconds == b.transitionTime
    ensures b.transitionTime == 0 ==> seconds == DefaultTransitionSeconds == 5
  {
    if b.transitionTime != 0 then b.transitionTime else DefaultTransitionSeconds
  }

  /** The values of next and previous: one up and one down, wrapping at the ends. */
  lemma NeighbourIndices(i: int, n: int)
    requires 0 <= i < n
    ensures NextIndex(i, n) == if i + 1 == n then 0 else i + 1
    ensures PreviousIndex(i, n) == if i == 0 then n - 1 else i - 1
  {
    if i + 1 == n {
      Arith.DivModUnique(i + 1, n, 1, 0);
    } else {
      Arith.DivModUnique(i + 1, n, 0, i + 1);
    }
    if i == 0 {
      Arith.DivModUnique(i - 1 + n, n, 0, n - 1);
    } else {
      Arith.DivModUnique(i - 1 + n, n, 1, i - 1);
    }
  }

  /** Next then previous, and previous then next, come back to the same banner. */
  lemma NextPreviousRoundTrip(i: int, n: int)
    requires 0 <= i < n
    ensures 0 <= NextIndex(i, n) < n && 0 <= PreviousIndex(i, n) < n
    ensures PreviousIndex(NextIndex(i, n), n) == i
    ensures NextIndex(PreviousIndex(i, n), n) == i
  {
    NeighbourIndices(i, n);
    NeighbourIndices(NextIndex(i, n), n);
    NeighbourIndices(PreviousIndex(i, n), n);
  }

  /** One valid event keeps the index inside 0..n-1. */
  lemma StepKeepsIndexInRange(s: CarouselState, e: Event, n: int)
    requires n > 0 && 0 <= s.index < n && ValidEvent(e, n)
    ensures 0 <= Step(s, e, n).index < n
  {
    NextPreviousRoundTrip(s.index, n);
  }

  /** Starting anywhere in range (in particular from the initial state), any
      sequence of valid events keeps the index inside 0..n-1. */
  lemma {:induction false} RunKeepsIndexInRange(s: CarouselState, events: seq<Event>, n: int)
    requires n > 0 && 0 <= s.index < n
    requires forall k :: 0 <= k < |events| ==> ValidEvent(events[k], n)
    ensures 0 <= Run(s, events, n).index < n
    decreases |events|
  {
    if events != [] {
      StepKeepsIndexInRange(s, events[0], n);
      RunKeepsIndexInRange(Step(s, events[0], n), events[1..], n);
    }
  }

  /** Only pointer events change the pause flag; only navigation and ticks
      change the index; an indicator click sets the index and nothing else. */
  lemma EventFootprints(s: CarouselState, e: Event, n: int)
    requires n > 0
    ensures Step(s, e, n).paused != s.paused ==> e.MouseEnter? || e.MouseLeave?
    ensures e.MouseEnter? || e.MouseLeave? ==> Step(s, e, n).index == s.index
    ensures e.IndicatorClicked? ==> Step(s, e, n) == CarouselState(e.target, s.paused)
  {
  }

  /** A sequence of timer ticks with no other event. */
  function Ticks(k: nat): (events: seq<Event>)
    ensures |events| == k && forall j :: 0 <= j < k ==> events[j] == TimerFired
  {
    if k == 0 then [] else [TimerFired] + Ticks(k - 1)
  }

  /** While paused, no number of ticks moves the carousel. */
  lemma {:induction false} PausedTicksChangeNothing(s: CarouselState, k: nat, n: int)
    requires n > 0 && s.paused
    ensures Run(s, Ticks(k), n) == s
  {
    if k > 0 {
      assert Ticks(k)[1..] == Ticks(k - 1);
      PausedTicksChangeNothing(s, k - 1, n);
    }
  }

  /** While not paused, k ticks advance the index by k, wrapping around. */
  lemma {:induction false} UnpausedTicksAdvance(s: CarouselState, k: nat, n: int)
    requires n > 0 && !s.paused && 0 <= s.index < n
    ensures Run(s, Ticks(k), n) == s.(index := (s.index + k) % n)
    decreases k
  {
    if k == 0 {
      Arith.DivModUnique(s.index, n, 0, s.index);
    } else {
      var s' := Step(s, TimerFired, n);
      NeighbourIndices(s.index, n);
      assert Ticks(k)[1..] == Ticks(k - 1);
      assert Run(s, Ticks(k), n) == Run(s', Ticks(k - 1), n);
      UnpausedTicksAdvance(s', k - 1, n);
      ModAddAssoc(s.index, k, n);
    }
  }

  lemma ModAddAssoc(i: int, k: nat, n: int)
    requires n > 0 && 0 <= i < n && k > 0
    ensures (NextIndex(i, n) + (k - 1)) % n == (i + k) % n
  {
    NeighbourIndices(i, n);
    if i + 1 == n {
      Arith.ModShift(k - 1, n);
    }
  }

  /** A carousel mounted with a fixed, non-empty list of banners. */
  class Carousel {
    const banners: seq<Banner>
    var currentIndex: int
    var isPaused: bool

    /** The banner list is non-empty and the index points into it. */
    ghost predicate Valid()
      reads this
    {
      |banners| > 0 && 0 <= currentIndex < |banners|
    }

    /** The abstract state of the carousel. */
    function State(): CarouselState
      reads this
    {
      CarouselState(currentIndex, isPaused)
    }

    constructor (banners: seq<Banner>)
      requires |banners| > 0
      ensures Valid() && this.banners == banners && State() == Initial
    {
      this.banners := banners;
      currentIndex := 0;
      isPaused := false;
    }

    /** The banner on display. */
    function CurrentBanner(): (b: Banner)
      reads this
      requires Valid()
      ensures b in banners
    {
      banners[currentIndex]
    }

    /** The period of the running interval: none while paused, otherwise the
        current banner's transition time in seconds (five when it is zero). */
    function TimerPeriod(): (period: Option<int>)
      reads this
      requires Valid()
      ensures period.None? <==> isPaused
      ensures period.Some? ==> period.value == TransitionSeconds(banners[currentIndex])
    {
      if isPaused then None else Some(TransitionSeconds(banners[currentIndex]))
    }

    /** Previous and Next buttons and indicators are shown only for two or more banners. */
    function ShowsNavigation(): (shown: bool)
      reads this
      ensures shown <==> |banners| >= 2
    {
      |banners| > 1
    }

    method HandleNext()
      requires Valid()
      modifies this
      ensures Valid() && State() == Step(old(State()), NextClicked, |banners|)
    {
      currentIndex := (currentIndex + 1) % |banners|;
    }

    method HandlePrevious()
      requires Valid()
      modifies this
      ensures Valid() && State() == Step(old(State()), PreviousClicked, |banners|)
    {
      currentIndex := (currentIndex - 1 + |banners|) % |banners|;
    }

    method HandleIndicatorClick(index: int)
      requires Valid() && 0 <= index < |banners|
      modifies this
      ensures Valid() && State() == Step(old(State()), IndicatorClicked(index), |banners|)
    {
      currentIndex := index;
    }

    /** The interval callback; with no interval running (paused) nothing fires. */
    method TimerTick()
      requires Valid()
      modifies this
      ensures Valid() && State() == Step(old(State()), TimerFired, |banners|)
    {
      if !isPaused {
        currentIndex := (currentIndex + 1) % |banners|;
      }
    }

    method HandleMouseEnter()
      requires Valid()
      modifies this
      ensures Valid() && State() == Step(old(State()), MouseEnter, |banners|)
    {
      isPaused := true;
    }

    method HandleMouseLeave()
      requires Valid()
      modifies this
      ensures Valid() && State() == Step(old(State()), MouseLeave, |banners|)
    {
      isPaused := false;
    }
  }

  /** With a single banner, which is when no navigation is shown, no event
      moves the carousel off that banner. */
  lemma SingleBannerStaysPut(s: CarouselState, events: seq<Event>)
    requires s.index == 0
    requires forall k :: 0 <= k < |events| ==> ValidEvent(events[k], 1)
    ensures Run(s, events, 1).index == 0
  {
    RunKeepsIndexInRange(s, events, 1);
  }

  /** Two banners of 2 s and 3 s: the first interval is 2 s, its tick shows the
      second banner, whose interval is 3 s; while paused there is no interval. */
  lemma TwoBannerExample(a: Banner, b: Banner)
    requires a.transitionTime == 2 && b.transitionTime == 3
    ensures TransitionSeconds([a, b][Initial.index]) == 2
    ensures Step(Initial, TimerFired, 2) == CarouselState(1, false)
    ensures TransitionSeconds([a, b][1]) == 3
    ensures forall k: nat :: Run(CarouselState(1, true), Ticks(k), 2) == CarouselState(1, true)
  {
    forall k: nat ensures Run(CarouselState(1, true), Ticks(k), 2) == CarouselState(1, true) {
      PausedTicksChangeNothing(CarouselState(1, true), k, 2);
    }
  }
}
