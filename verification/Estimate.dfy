/**
`Order#estimate_required_funds`: walking the counter book's price levels until the
volume of a market order is filled.
 */
module Estimate {
  import opened Wrappers

  datatype Level = Level(price: real, volume: real)

  datatype Failure = EmptyBook | NotDeepEnough | VolumeTooLarge | DividedByZero

  const FUSE := 0.9

  function Min(a: real, b: real): real { if a <= b then a else b }

  function Abs(a: real): real { if a < 0.0 then -a else a }

  // What the block given to `estimate_required_funds` yields: p*v for a bid, v for
  // an ask.
  function Yield(forBid: bool, price: real, volume: real): real { if forBid then price * volume else volume }

  // What the walk requires, what it leaves unfilled and where it ends.
  function Required(forBid: bool, levels: seq<Level>, volume: real): real
    decreases |levels|
  {
    if volume == 0.0 || levels == [] then 0.0
    else
      var v := Min(volume, levels[0].volume);
      Yield(forBid, levels[0].price, v) + Required(forBid, levels[1..], volume - v)
  }

  function Unfilled(levels: seq<Level>, volume: real): real
    decreases |levels|
  {
    if volume == 0.0 || levels == [] then volume
    else Unfilled(levels[1..], volume - Min(volume, levels[0].volume))
  }

  function FilledAt(levels: seq<Level>, volume: real, at: real): real
    decreases |levels|
  {
    if volume == 0.0 || levels == [] then at
    else FilledAt(levels[1..], volume - Min(volume, levels[0].volume), levels[0].price)
  }

  // nil cannot be subtracted, and a price of zero cannot divide.
  function Funds(forBid: bool, levels: seq<Level>, volume: real): Result<real, Failure> {
    if Unfilled(levels, volume) != 0.0 then Err(NotDeepEnough)
    else if levels == [] then Err(EmptyBook)
    else
      var start := levels[0].price;
      if start == 0.0 then Err(DividedByZero)
      else if Abs(FilledAt(levels, volume, start) - start) / start > FUSE then Err(VolumeTooLarge)
      else Ok(Required(forBid, levels, volume))
  }

  method EstimateRequiredFunds(forBid: bool, priceLevels: seq<Level>, volume: real) returns (r: Result<real, Failure>)
    ensures r == Funds(forBid, priceLevels, volume)
  {
    var levels, required, expected := priceLevels, 0.0, volume;
    var start := if levels == [] then None else Some(levels[0].price);
    var filledAt := start;
    while expected != 0.0 && levels != []
      invariant required + Required(forBid, levels, expected) == Required(forBid, priceLevels, volume)
      invariant Unfilled(levels, expected) == Unfilled(priceLevels, volume)
      invariant start.Some? <==> priceLevels != []
      invariant start.None? ==> levels == []
      invariant start.Some? ==> start.value == priceLevels[0].price && filledAt.Some?
      invariant start.Some? ==> FilledAt(levels, expected, filledAt.value) == FilledAt(priceLevels, volume, start.value)
      decreases |levels|
    {
      var level := levels[0];
      levels := levels[1..];
      filledAt := Some(level.price);
      var v := Min(expected, level.volume);
      required := required + Yield(forBid, level.price, v);
      expected := expected - v;
    }
    if expected != 0.0 {
      return Err(NotDeepEnough);
    }
    if start.None? {
      return Err(EmptyBook);
    }
    if start.value == 0.0 {
      return Err(DividedByZero);
    }
    if Abs(filledAt.value - start.value) / start.value > FUSE {
      return Err(VolumeTooLarge);
    }
    r := Ok(required);
  }

  // --- What the estimate is -------------------------------------------------

  // A book of asks: positive sizes, prices that never fall and start at `lowest` or
  // above.
  predicate Book(levels: seq<Level>, lowest: real) {
    levels == [] ||
    (levels[0].price >= lowest && levels[0].volume > 0.0 && Book(levels[1..], levels[0].price))
  }

  function Depth(levels: seq<Level>): real {
    if levels == [] then 0.0 else levels[0].volume + Depth(levels[1..])
  }

  // An allocation says how much of each level is taken.
  predicate Allocates(levels: seq<Level>, taken: seq<real>) {
    if levels == [] then taken == []
    else taken != [] && 0.0 <= taken[0] <= levels[0].volume && Allocates(levels[1..], taken[1..])
  }

  function Total(taken: seq<real>): real {
    if taken == [] then 0.0 else taken[0] + Total(taken[1..])
  }

  function Cost(levels: seq<Level>, taken: seq<real>): real
    requires Allocates(levels, taken)
  {
    if levels == [] then 0.0 else Yield(true, levels[0].price, taken[0]) + Cost(levels[1..], taken[1..])
  }

  // The allocation the walk makes.
  function Greedy(levels: seq<Level>, volume: real): seq<real>
    decreases |levels|
  {
    if levels == [] then []
    else
      var v := if volume == 0.0 then 0.0 else Min(volume, levels[0].volume);
      [v] + Greedy(levels[1..], volume - v)
  }

  lemma {:induction false} DepthNonNegative(levels: seq<Level>, lowest: real)
    requires Book(levels, lowest)
    ensures Depth(levels) >= 0.0
  {
    if levels == [] {
    } else {
      DepthNonNegative(levels[1..], levels[0].price);
    }
  }

  // The walk runs dry exactly by what the book is short of.
  lemma {:induction false} UnfilledIsShortfall(levels: seq<Level>, lowest: real, volume: real)
    requires Book(levels, lowest) && volume >= 0.0
    ensures Unfilled(levels, volume) == if volume <= Depth(levels) then 0.0 else volume - Depth(levels)
    decreases |levels|
  {
    DepthNonNegative(levels, lowest);
    if levels != [] && volume != 0.0 {
      DepthNonNegative(levels[1..], levels[0].price);
      UnfilledIsShortfall(levels[1..], levels[0].price, volume - Min(volume, levels[0].volume));
    }
  }

  // The first step of the walk, an empty one included.
  lemma {:induction false} RequiredHead(levels: seq<Level>, volume: real)
    requires levels != [] && levels[0].volume >= 0.0
    ensures var v := Min(volume, levels[0].volume);
            Required(true, levels, volume) == Yield(true, levels[0].price, v) + Required(true, levels[1..], volume - v)
  {
    if volume == 0.0 {
      assert levels[0].price * 0.0 == 0.0;
    }
  }

  lemma {:induction false} GreedyAllocates(levels: seq<Level>, lowest: real, volume: real)
    requires Book(levels, lowest) && 0.0 <= volume <= Depth(levels)
    ensures Allocates(levels, Greedy(levels, volume)) && Total(Greedy(levels, volume)) == volume
    ensures Required(true, levels, volume) == Cost(levels, Greedy(levels, volume))
    decreases |levels|
  {
    if levels == [] {
    } else {
      var v := if volume == 0.0 then 0.0 else Min(volume, levels[0].volume);
      DepthNonNegative(levels[1..], levels[0].price);
      GreedyAllocates(levels[1..], levels[0].price, volume - v);
      RequiredHead(levels, volume);
      assert Greedy(levels, volume)[1..] == Greedy(levels[1..], volume - v);
    }
  }

  lemma {:induction false} MoreStep(p: real, lowest: real, v: real, w: real, more: real, some: real, all: real)
    requires p >= lowest && w >= v && all >= some + Yield(true, lowest, more - (w - v))
    ensures Yield(true, p, w) + all >= Yield(true, p, v) + some + Yield(true, lowest, more)
  {
    assert (p - lowest) * (w - v) >= 0.0;
  }

  // Filling more of a book costs at least its lowest price for each unit more.
  lemma {:induction false} MoreCostsMore(levels: seq<Level>, lowest: real, volume: real, more: real)
    requires Book(levels, lowest) && volume >= 0.0 && more >= 0.0 && volume + more <= Depth(levels)
    ensures Required(true, levels, volume + more) >= Required(true, levels, volume) + Yield(true, lowest, more)
    decreases |levels|
  {
    if levels == [] {
    } else {
      var rest := levels[1..];
      var v, w := Min(volume, levels[0].volume), Min(volume + more, levels[0].volume);
      RequiredHead(levels, volume);
      RequiredHead(levels, volume + more);
      DepthNonNegative(rest, levels[0].price);
      assert Book(rest, lowest);
      MoreCostsMore(rest, lowest, volume - v, more - (w - v));
      assert volume - v + (more - (w - v)) == volume + more - w;
      MoreStep(levels[0].price, lowest, v, w, more,
               Required(true, rest, volume - v), Required(true, rest, volume + more - w));
    }
  }

  lemma {:induction false} TotalBounds(levels: seq<Level>, taken: seq<real>)
    requires Allocates(levels, taken)
    ensures 0.0 <= Total(taken) <= Depth(levels)
  {
    if levels == [] {
    } else {
      TotalBounds(levels[1..], taken[1..]);
    }
  }

  lemma {:induction false} CheaperStep(p: real, x: real, v: real, some: real, all: real)
    requires all >= some + Yield(true, p, v - x)
    ensures Yield(true, p, v) + some <= Yield(true, p, x) + all
  {
  }

  // No allocation within the level sizes is cheaper than the walk.
  lemma {:induction false} NothingCheaper(levels: seq<Level>, lowest: real, taken: seq<real>)
    requires Book(levels, lowest) && Allocates(levels, taken)
    ensures Required(true, levels, Total(taken)) <= Cost(levels, taken)
    decreases |levels|
  {
    if levels == [] {
    } else {
      var p, x, rest := levels[0].price, taken[0], levels[1..];
      var volume := Total(taken);
      var v := Min(volume, levels[0].volume);
      TotalBounds(levels, taken);
      TotalBounds(rest, taken[1..]);
      NothingCheaper(rest, p, taken[1..]);
      MoreCostsMore(rest, p, volume - v, v - x);
      assert volume - v + (v - x) == Total(taken[1..]);
      RequiredHead(levels, volume);
      CheaperStep(p, x, v, Required(true, rest, volume - v), Required(true, rest, volume - x));
    }
  }

  // The estimate is optimal: on an ascending book no allocation that fills the
  // volume within the level sizes is cheaper, and the walk's own one costs it.
  lemma {:induction false} EstimateIsOptimal(levels: seq<Level>, lowest: real, volume: real, taken: seq<real>)
    requires Book(levels, lowest)
    requires Allocates(levels, taken) && Total(taken) == volume
    ensures Required(true, levels, volume) <= Cost(levels, taken)
    ensures Allocates(levels, Greedy(levels, volume)) && Total(Greedy(levels, volume)) == volume
    ensures Required(true, levels, volume) == Cost(levels, Greedy(levels, volume))
  {
    TotalBounds(levels, taken);
    GreedyAllocates(levels, lowest, volume);
    NothingCheaper(levels, lowest, taken);
  }

  lemma {:induction false} FilledAtRises(levels: seq<Level>, at: real, volume: real)
    requires Book(levels, at)
    ensures FilledAt(levels, volume, at) >= at
    decreases |levels|
  {
    if levels != [] && volume != 0.0 {
      FilledAtRises(levels[1..], levels[0].price, volume - Min(volume, levels[0].volume));
    }
  }

  lemma {:induction false} BetweenStep(lowest: real, p: real, end: real, v: real, volume: real, rest: real)
    requires lowest <= p <= end && v >= 0.0
    requires Yield(true, lowest, volume - v) <= rest <= Yield(true, end, volume - v)
    ensures Yield(true, lowest, volume) <= Yield(true, p, v) + rest <= Yield(true, end, volume)
  {
    assert (p - lowest) * v >= 0.0 && (end - p) * v >= 0.0;
  }

  // Each unit costs between the lowest price and the price the walk ends at.
  lemma {:induction false} CostsBetween(levels: seq<Level>, lowest: real, volume: real, at: real)
    requires Book(levels, at) && lowest <= at && 0.0 <= volume <= Depth(levels)
    ensures Yield(true, lowest, volume) <= Required(true, levels, volume)
    ensures Required(true, levels, volume) <= Yield(true, FilledAt(levels, volume, at), volume)
    decreases |levels|
  {
    if levels != [] && volume != 0.0 {
      var p, v := levels[0].price, Min(volume, levels[0].volume);
      DepthNonNegative(levels[1..], p);
      CostsBetween(levels[1..], lowest, volume - v, p);
      FilledAtRises(levels[1..], p, volume - v);
      BetweenStep(lowest, p, FilledAt(levels, volume, at), v, volume, Required(true, levels[1..], volume - v));
    }
  }

  // --- When it fails ------------------------------------------------------------

  // The volume is filled within level k.
  predicate FillsWithin(levels: seq<Level>, volume: real, k: nat) {
    k < |levels| && Depth(levels[..k]) < volume <= Depth(levels[..k + 1])
  }

  function Worth(levels: seq<Level>): real {
    if levels == [] then 0.0 else Yield(true, levels[0].price, levels[0].volume) + Worth(levels[1..])
  }

  // A bid pays for whole levels up to k, and for the rest at the price of k.
  function PaidWithin(levels: seq<Level>, volume: real, k: nat): real
    requires k < |levels|
  {
    Worth(levels[..k]) + Yield(true, levels[k].price, volume - Depth(levels[..k]))
  }

  predicate Sizes(levels: seq<Level>) { forall i | 0 <= i < |levels| :: levels[i].volume > 0.0 }

  lemma {:induction false} BookHasSizes(levels: seq<Level>, lowest: real)
    requires Book(levels, lowest)
    ensures Sizes(levels)
  {
    if levels == [] {
    } else {
      BookHasSizes(levels[1..], levels[0].price);
      assert forall i | 0 < i < |levels| :: levels[i] == levels[1..][i - 1];
    }
  }

  lemma {:induction false} OneLevelMore(levels: seq<Level>, k: nat)
    requires 0 < k <= |levels|
    ensures Depth(levels[..k]) == levels[0].volume + Depth(levels[1..][..k - 1])
    ensures Worth(levels[..k]) == Yield(true, levels[0].price, levels[0].volume) + Worth(levels[1..][..k - 1])
  {
    assert levels[..k][1..] == levels[1..][..k - 1];
  }

  // Every volume up to the depth is filled within some level.
  lemma {:induction false} SomeLevelFills(levels: seq<Level>, volume: real) returns (k: nat)
    requires Sizes(levels) && 0.0 < volume <= Depth(levels)
    ensures FillsWithin(levels, volume, k)
    decreases |levels|
  {
    assert levels[..1][1..] == [];
    if volume <= levels[0].volume {
      k := 0;
    } else {
      assert forall i | 0 <= i < |levels[1..]| :: levels[1..][i] == levels[i + 1];
      k := SomeLevelFills(levels[1..], volume - levels[0].volume);
      OneLevelMore(levels, k + 1);
      OneLevelMore(levels, k + 2);
      k := k + 1;
    }
  }

  // The walk ends in that level.
  lemma {:induction false} WalkEndsWithin(levels: seq<Level>, volume: real, k: nat, at: real)
    requires Sizes(levels) && volume > 0.0 && FillsWithin(levels, volume, k)
    ensures Unfilled(levels, volume) == 0.0 && FilledAt(levels, volume, at) == levels[k].price
    ensures Required(true, levels, volume) == PaidWithin(levels, volume, k)
    decreases |levels|
  {
    var rest, v := levels[1..], Min(volume, levels[0].volume);
    OneLevelMore(levels, k + 1);
    if k == 0 {
      assert rest[..0] == [] && levels[..0] == [];
      assert v == volume;
    } else {
      OneLevelMore(levels, k);
      DepthGrows(rest, k - 1);
      assert forall i | 0 <= i < |rest| :: rest[i] == levels[i + 1];
      assert v == levels[0].volume;
      WalkEndsWithin(rest, volume - v, k - 1, levels[0].price);
    }
  }

  lemma {:induction false} DepthGrows(levels: seq<Level>, k: nat)
    requires Sizes(levels) && k <= |levels|
    ensures Depth(levels[..k]) >= 0.0
  {
    if k > 0 {
      assert forall i | 0 <= i < |levels[1..]| :: levels[1..][i] == levels[i + 1];
      OneLevelMore(levels, k);
      DepthGrows(levels[1..], k - 1);
    }
  }

  lemma {:induction false} DryBook(levels: seq<Level>, volume: real)
    requires Sizes(levels) && volume > Depth(levels)
    ensures Unfilled(levels, volume) == volume - Depth(levels)
    decreases |levels|
  {
    if levels != [] {
      assert forall i | 0 <= i < |levels[1..]| :: levels[1..][i] == levels[i + 1];
      assert levels[1..][..|levels| - 1] == levels[1..];
      DepthGrows(levels[1..], |levels| - 1);
      DryBook(levels[1..], volume - levels[0].volume);
    }
  }

  // A bid's estimate: not deep enough beyond the depth; too large if the level that fills
  // the volume costs over 90% more than the first; else what the levels up to it cost,
  // which is between start * volume and 1.9 * start * volume.
  lemma {:induction false} BidEstimate(levels: seq<Level>, volume: real) returns (k: nat)
    requires Book(levels, if levels == [] then 1.0 else levels[0].price) && volume > 0.0
    requires levels != [] ==> levels[0].price > 0.0
    ensures volume > Depth(levels) ==> Funds(true, levels, volume) == Err(NotDeepEnough)
    ensures volume <= Depth(levels) ==>
              && FillsWithin(levels, volume, k)
              && var start, funds := levels[0].price, PaidWithin(levels, volume, k);
                 Funds(true, levels, volume) ==
                   (if levels[k].price > 1.9 * start then Err(VolumeTooLarge) else Ok(funds))
                 && Yield(true, start, volume) <= funds
                 && (levels[k].price <= 1.9 * start ==> funds <= 1.9 * Yield(true, start, volume))
  {
    BookHasSizes(levels, if levels == [] then 1.0 else levels[0].price);
    k := 0;
    if volume > Depth(levels) {
      DryBook(levels, volume);
    } else {
      var start := levels[0].price;
      k := SomeLevelFills(levels, volume);
      WalkEndsWithin(levels, volume, k, start);
      FilledAtRises(levels, start, volume);
      CostsBetween(levels, start, volume, start);
      OverFuse(start, levels[k].price);
      UpToFuse(start, levels[k].price, volume);
    }
  }

  // A book of bids: positive sizes, prices that never rise.
  predicate Falling(levels: seq<Level>) {
    && Sizes(levels)
    && forall i, j | 0 <= i < j < |levels| :: levels[j].price <= levels[i].price
  }

  // An ask's: not deep enough beyond the depth; too large if the level that fills the
  // volume pays less than a tenth of the first; else the volume.
  lemma {:induction false} AskEstimate(levels: seq<Level>, volume: real) returns (k: nat)
    requires Falling(levels) && volume > 0.0 && (levels != [] ==> levels[0].price > 0.0)
    ensures volume > Depth(levels) ==> Funds(false, levels, volume) == Err(NotDeepEnough)
    ensures volume <= Depth(levels) ==>
              && FillsWithin(levels, volume, k)
              && Funds(false, levels, volume) ==
                   if levels[k].price < 0.1 * levels[0].price then Err(VolumeTooLarge) else Ok(volume)
  {
    k := 0;
    if volume > Depth(levels) {
      DryBook(levels, volume);
    } else {
      k := SomeLevelFills(levels, volume);
      WalkEndsWithin(levels, volume, k, levels[0].price);
      AskEstimateIsVolume(levels, volume);
      UnderFuse(levels[0].price, levels[k].price);
    }
  }

  lemma {:induction false} UnderFuse(start: real, end: real)
    requires 0.0 < start && end <= start
    ensures Abs(end - start) / start > FUSE <==> end < 0.1 * start
  {
    var q := (start - end) / start;
    assert q * start == start - end;
    if q > 0.9 {
      assert (q - 0.9) * start > 0.0;
    } else {
      assert (0.9 - q) * start >= 0.0;
    }
  }

  lemma {:induction false} UpToFuse(start: real, end: real, volume: real)
    requires volume > 0.0
    ensures end <= 1.9 * start ==> Yield(true, end, volume) <= 1.9 * Yield(true, start, volume)
  {
    if end <= 1.9 * start {
      assert (1.9 * start - end) * volume >= 0.0;
    }
  }

  lemma {:induction false} OverFuse(start: real, end: real)
    requires 0.0 < start <= end
    ensures Abs(end - start) / start > FUSE <==> end > 1.9 * start
  {
    var q := (end - start) / start;
    assert q * start == end - start;
    if q > 0.9 {
      assert (q - 0.9) * start > 0.0;
    } else {
      assert (0.9 - q) * start >= 0.0;
    }
  }

  // What is left: an empty book fails for want of a first price, or of depth if there is a
  // volume to fill; and a first price of zero cannot be compared with.
  lemma {:induction false} DegenerateBooks(forBid: bool, levels: seq<Level>, volume: real)
    ensures levels == [] ==> Funds(forBid, levels, volume) == Err(if volume == 0.0 then EmptyBook else NotDeepEnough)
    ensures levels != [] && volume == 0.0 ==>
              Funds(forBid, levels, volume) == if levels[0].price == 0.0 then Err(DividedByZero) else Ok(0.0)
    ensures levels != [] && levels[0].price == 0.0 ==> Funds(forBid, levels, volume).Err?
  {
  }

  // For a market ask the estimate, when there is one, is the volume itself: of any
  // book and any volume.
  lemma {:induction false} AskEstimateIsVolume(levels: seq<Level>, volume: real)
    ensures Required(false, levels, volume) == volume - Unfilled(levels, volume)
    ensures Funds(false, levels, volume).Ok? ==> Funds(false, levels, volume).value == volume
    decreases |levels|
  {
    if levels != [] && volume != 0.0 {
      AskEstimateIsVolume(levels[1..], volume - Min(volume, levels[0].volume));
    }
  }

  // A volume that is not positive never yields funds to lock.
  lemma {:induction false} NoFundsForNoVolume(levels: seq<Level>, volume: real)
    requires forall l | l in levels :: l.price > 0.0 && l.volume > 0.0
    ensures volume <= 0.0 ==> Required(true, levels, volume) <= 0.0
  {
    if volume < 0.0 && levels != [] {
      assert levels[0] in levels;
      assert levels[0].price * volume < 0.0;
      assert Required(true, levels[1..], volume - volume) == 0.0;
    }
  }
}
