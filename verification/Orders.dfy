/**
Orders: what is locked for them, how a trade changes them, and what stays true of
an order however it is struck.
 */
module Orders {
  import opened Wrappers
  import opened Amounts
  import Estimate

  datatype Market = Market(base: nat, quote: nat, bidFee: real, askFee: real, bidDigits: nat, askDigits: nat)

  datatype Side = Bid | Ask

  datatype OrdType = MarketType | LimitType

  datatype OrderState = Wait | Done | Cancelled

  // `hold` and `gain` are the member's accounts in the two currencies.
  datatype Order = Order(
    side: Side, ordType: OrdType, market: nat, price: Option<real>,
    volume: real, originVolume: real, locked: real, originLocked: real,
    fundsReceived: real, tradesCount: nat, state: OrderState, hold: nat, gain: nat)

  datatype Trade = Trade(market: nat, bid: nat, ask: nat, price: real, volume: real, funds: real)

  const LOCKING_BUFFER_FACTOR := 1.1

  function FundsUsed(o: Order): real { o.originLocked - o.locked }

  // `get_account_changes`: what a trade takes from the held account, and what it
  // brings before the fee.
  function Sub(o: Order, t: Trade): real { if o.side.Bid? then t.funds else t.volume }

  function Add(o: Order, t: Trade): real { if o.side.Bid? then t.volume else t.funds }

  function FeeRate(o: Order, m: Market): real { if o.side.Bid? then m.bidFee else m.askFee }

  function Times(a: real, b: real): real { a * b }

  // `real_fee`.
  function Fee(o: Order, m: Market, t: Trade): real { Times(Add(o, t), FeeRate(o, m)) }

  // `fix_number_precision`, then `compute_locked`, then the validations of `save!`;
  // None when any of them raises. `levels` is the counter side of the book.
  function Prepared(o: Order, m: Market, levels: seq<Estimate.Level>): Option<Order> {
    var fixed := o.(price := if o.price.Some? then Some(Truncate(o.price.value, m.bidDigits)) else None,
                    volume := Truncate(o.volume, m.askDigits),
                    originVolume := Truncate(o.originVolume, m.askDigits));
    var locked := ComputeLocked(fixed, levels);
    if locked.None? || fixed.originVolume <= 0.0 then None
    else if fixed.ordType.LimitType? && fixed.price.value <= 0.0 then None
    else if fixed.ordType.MarketType? && fixed.price.Some? then None
    else Some(fixed.(locked := locked.value, originLocked := locked.value,
                     fundsReceived := 0.0, tradesCount := 0, state := Wait))
  }

  function ComputeLocked(o: Order, levels: seq<Estimate.Level>): (r: Option<real>)
    ensures r.Some? && o.ordType.LimitType? ==> o.price.Some?
  {
    match o.ordType
    case LimitType =>
      if o.price.None? then None else Some(if o.side.Bid? then o.price.value * o.volume else o.volume)
    case MarketType =>
      var funds := Estimate.Funds(o.side.Bid?, levels, o.volume);
      if funds.Err? then None
      else Some(if o.side.Bid? then funds.value * LOCKING_BUFFER_FACTOR else funds.value)
  }

  // `strike`, as far as the order itself goes.
  function Struck(o: Order, t: Trade): Order {
    var volume, locked := o.volume - t.volume, o.locked - Sub(o, t);
    o.(volume := volume, locked := locked,
       fundsReceived := o.fundsReceived + Add(o, t), tradesCount := o.tradesCount + 1,
       state := if volume == 0.0 then Done
                else if o.ordType.MarketType? && locked == 0.0 then Cancelled
                else o.state)
  }

  // What is left locked when the order is filled, to be unlocked.
  function Leftover(o: Order): real { if o.state.Done? then o.locked else 0.0 }

  // --- What stays true of an order --------------------------------------------

  // The price respects the limit, the volume fits, and a bid is not charged beyond its
  // lock. The funds are those of the volume before the engine cut it to the market's
  // precision, so they may exceed price times volume.
  predicate Matches(o: Order, t: Trade) {
    && t.price > 0.0 && t.funds > 0.0
    && 0.0 < t.volume <= o.volume
    && t.funds >= t.price * t.volume
    && (o.side.Bid? ==> t.funds <= o.locked)
    && (o.ordType.LimitType? ==> o.price.Some?)
    && (o.ordType.LimitType? && o.side.Ask? ==> o.price.value <= t.price)
    && (o.ordType.LimitType? && o.side.Bid? ==> t.price <= o.price.value)
  }

  predicate IsLimitBid(o: Order) { o.side.Bid? && o.ordType.LimitType? }

  predicate OrderOk(o: Order, m: Market) {
    && o.volume >= 0.0 && o.locked >= 0.0 && o.fundsReceived >= 0.0 && FundsUsed(o) >= 0.0
    && (o.state.Done? <==> o.volume == 0.0)
    && (o.state.Wait? ==> o.locked > 0.0 || IsLimitBid(o))
    && (o.side.Ask? ==> o.locked == o.volume)
    && (o.ordType.LimitType? ==>
          && o.price.Some? && o.price.value > 0.0
          && Truncate(o.price.value, m.bidDigits) == o.price.value
          && (o.side.Bid? ==> o.originLocked == Times(o.price.value, o.volume + o.fundsReceived))
          && (o.side.Ask? ==> o.fundsReceived >= Times(o.price.value, FundsUsed(o))))
  }

  predicate PositiveBook(levels: seq<Estimate.Level>) { forall l | l in levels :: l.price > 0.0 && l.volume > 0.0 }

  // Which new orders are taken, and what is kept of them: the volumes are cut to the
  // precision of the base currency and the price to that of the quote currency. A limit
  // order needs a price and a market order must have none, and what is left after cutting
  // must be positive; a market order needs a deep enough book.
  lemma {:induction false} PreparedIff(o: Order, m: Market, levels: seq<Estimate.Level>)
    ensures Prepared(o, m, levels).Some? <==>
              && o.originVolume >= Unit(m.askDigits)
              && (o.ordType.LimitType? <==> o.price.Some?)
              && (o.price.Some? ==> o.price.value >= Unit(m.bidDigits))
              && (o.ordType.MarketType? ==>
                    Estimate.Funds(o.side.Bid?, levels, Truncate(o.volume, m.askDigits)).Ok?)
    ensures Prepared(o, m, levels).Some? ==>
              var p := Prepared(o, m, levels).value;
              && p.state.Wait? && p.fundsReceived == 0.0 && p.tradesCount == 0 && p.locked == p.originLocked
              && p.volume == Truncate(o.volume, m.askDigits)
              && p.originVolume == Truncate(o.originVolume, m.askDigits)
              && (o.price.Some? ==> p.price == Some(Truncate(o.price.value, m.bidDigits)))
              && p == o.(price := p.price, volume := p.volume, originVolume := p.originVolume, locked := p.locked,
                         originLocked := p.locked, fundsReceived := 0.0, tradesCount := 0, state := Wait)
  {
    TruncateIsPositiveIff(o.originVolume, m.askDigits);
    if o.price.Some? {
      TruncateIsPositiveIff(o.price.value, m.bidDigits);
    }
  }

  // What a cut leaves is positive if and only if there was a whole unit.
  lemma {:induction false} TruncateIsPositiveIff(d: real, digits: nat)
    ensures Truncate(d, digits) > 0.0 <==> d >= Unit(digits)
  {
    TruncateShrinks(d, digits);
    if d >= 0.0 {
      TruncateToNothing(d, digits);
    }
  }

  lemma {:induction false} PreparedPriceIsFixed(o: Order, m: Market, levels: seq<Estimate.Level>)
    requires Prepared(o, m, levels).Some? && o.ordType.LimitType?
    ensures var price := Prepared(o, m, levels).value.price;
            price.Some? && price.value > 0.0 && Truncate(price.value, m.bidDigits) == price.value
  {
    TruncateIdempotent(o.price.value, m.bidDigits);
  }

  lemma {:induction false} PreparedFields(o: Order, m: Market, levels: seq<Estimate.Level>)
    requires Prepared(o, m, levels).Some? && o.ordType.LimitType?
    ensures var p := Prepared(o, m, levels).value;
            && p.ordType.LimitType? && p.price.Some? && p.state.Wait? && p.fundsReceived == 0.0
            && p.locked == p.originLocked == (if p.side.Bid? then Times(p.price.value, p.volume) else p.volume)
  {
  }

  // A limit order of which nothing has been traded yet.
  lemma {:induction false} NewLimitOrderIsOk(p: Order, m: Market)
    requires p.ordType.LimitType? && p.price.Some? && p.price.value > 0.0
    requires Truncate(p.price.value, m.bidDigits) == p.price.value
    requires p.state.Wait? && p.locked > 0.0 && p.fundsReceived == 0.0
    requires p.locked == p.originLocked == if p.side.Bid? then Times(p.price.value, p.volume) else p.volume
    ensures OrderOk(p, m)
  {
    SignOfProduct(p.price.value, p.volume);
  }

  lemma {:induction false} PreparedLimitIsOk(o: Order, m: Market, levels: seq<Estimate.Level>)
    requires Prepared(o, m, levels).Some? && Prepared(o, m, levels).value.locked > 0.0 && o.ordType.LimitType?
    ensures OrderOk(Prepared(o, m, levels).value, m)
  {
    PreparedPriceIsFixed(o, m, levels);
    PreparedFields(o, m, levels);
    NewLimitOrderIsOk(Prepared(o, m, levels).value, m);
  }

  // An order whose lock went through starts out sound: the price is at the market's
  // precision and the lock covers it.
  lemma {:induction false} PreparedIsOk(o: Order, m: Market, levels: seq<Estimate.Level>)
    requires Prepared(o, m, levels).Some? && Prepared(o, m, levels).value.locked > 0.0 && PositiveBook(levels)
    ensures OrderOk(Prepared(o, m, levels).value, m)
  {
    if o.ordType.LimitType? {
      PreparedLimitIsOk(o, m, levels);
    } else {
      var p := Prepared(o, m, levels).value;
      Estimate.NoFundsForNoVolume(levels, p.volume);
      Estimate.AskEstimateIsVolume(levels, p.volume);
    }
  }

  lemma {:induction false} SignOfProduct(price: real, volume: real)
    ensures price > 0.0 && price * volume > 0.0 ==> volume > 0.0
    ensures Times(price, volume + 0.0) == price * volume
  {
  }

  lemma {:induction false} StrikeStep(limit: real, price: real, v: real, volume: real)
    requires v > 0.0
    ensures price <= limit ==> Times(price, v) <= Times(limit, v)
    ensures limit <= price ==> Times(limit, v) <= Times(price, v)
    ensures Times(limit, volume - v) == Times(limit, volume) - Times(limit, v)
    ensures Times(limit, volume + v) == Times(limit, volume) + Times(limit, v)
  {
    if price <= limit {
      assert (limit - price) * v >= 0.0;
    }
    if limit <= price {
      assert (price - limit) * v >= 0.0;
    }
  }

  // A matching trade keeps an open order sound. Only a market bid is cancelled by it.
  lemma {:induction false} StrikeKeepsOrder(o: Order, m: Market, t: Trade)
    requires OrderOk(o, m) && o.state.Wait? && Matches(o, t)
    ensures OrderOk(Struck(o, t), m)
    ensures Struck(o, t).state.Cancelled? ==> o.side.Bid? && o.ordType.MarketType?
  {
    if o.ordType.LimitType? && o.side.Ask? {
      StrikeStep(o.price.value, t.price, t.volume, FundsUsed(o));
    } else if o.ordType.LimitType? {
      assert o.volume - t.volume + (o.fundsReceived + t.volume) == o.volume + o.fundsReceived;
    }
  }

  // What becomes of it: filled when the trade is all that was left, cancelled when it is a
  // market bid with volume left and nothing locked, and open otherwise.
  lemma {:induction false} StrikeDecides(o: Order, m: Market, t: Trade)
    requires OrderOk(o, m) && o.state.Wait? && Matches(o, t)
    ensures Struck(o, t).state ==
              if t.volume == o.volume then Done
              else if o.side.Bid? && o.ordType.MarketType? && t.funds == o.locked then Cancelled
              else Wait
  {
  }

  lemma {:induction false} RoomLeft(limit: real, volume: real)
    requires limit > 0.0
    ensures volume > 0.0 ==> Times(limit, volume) > 0.0
    ensures volume == 0.0 ==> Times(limit, volume) == 0.0
  {
  }

  // --- The average price --------------------------------------------------------

  function AvgPrice(o: Order, m: Market): real {
    match o.side
    case Bid => if o.fundsReceived == 0.0 then 0.0 else Truncate(FundsUsed(o) / o.fundsReceived, m.bidDigits)
    case Ask => if FundsUsed(o) == 0.0 then 0.0 else Truncate(o.fundsReceived / FundsUsed(o), m.bidDigits)
  }

  lemma {:induction false} Ratio(a: real, b: real, limit: real)
    requires b > 0.0
    ensures a / b <= limit <==> a <= Times(limit, b)
    ensures a / b >= limit <==> a >= Times(limit, b)
  {
    var q := a / b;
    assert q * b == a;
    assert (q - limit) * b == a - Times(limit, b);
  }

  // Truncation forgives what is less than one unit of the last digit.
  lemma {:induction false} TruncateBelow(d: real, limit: real, digits: nat)
    requires d >= 0.0 && limit > 0.0 && Truncate(limit, digits) == limit
    ensures Truncate(d, digits) <= limit <==> d < limit + Unit(digits)
  {
    TruncateShrinks(d, digits);
    if d < limit + Unit(digits) {
      NoWholeUnitMore(d, limit, digits);
    }
  }

  lemma {:induction false} BidAverage(used: real, received: real, limit: real, digits: nat)
    requires used >= 0.0 && received > 0.0 && limit > 0.0 && Truncate(limit, digits) == limit
    ensures Truncate(used / received, digits) <= limit <==> used < Times(limit + Unit(digits), received)
  {
    Ratio(used, received, limit + Unit(digits));
    Ratio(used, received, 0.0);
    TruncateBelow(used / received, limit, digits);
  }

  // What is left of a limit bid's lock beyond what its volume may still cost.
  function Margin(o: Order): real
    requires o.price.Some?
  {
    o.locked - Times(o.price.value, o.volume)
  }

  // The lock of a limit bid covers the rest of its volume if and only if it has not paid
  // more than its limit for what it received.
  lemma {:induction false} CoveredIffWithinLimit(o: Order, m: Market)
    requires OrderOk(o, m) && IsLimitBid(o)
    ensures Margin(o) == Times(o.price.value, o.fundsReceived) - FundsUsed(o)
    ensures Margin(o) >= 0.0 <==> FundsUsed(o) <= Times(o.price.value, o.fundsReceived)
  {
  }

  // One trade leaves it covered exactly if its funds are within limit times published
  // volume and the margin there was.
  lemma {:induction false} StrikeKeepsCoverIff(o: Order, t: Trade)
    requires IsLimitBid(o) && o.price.Some?
    ensures Margin(Struck(o, t)) == Margin(o) + Times(o.price.value, t.volume) - t.funds
    ensures Margin(Struck(o, t)) >= 0.0 <==> t.funds <= Times(o.price.value, t.volume) + Margin(o)
  {
    assert Times(o.price.value, o.volume - t.volume) == Times(o.price.value, o.volume) - Times(o.price.value, t.volume);
  }

  // The truncated average price of a limit bid is not above its limit exactly if what it
  // paid is less than one unit of the price above it, for what it received; that of an
  // ask, once anything was sold, is never below its limit.
  lemma {:induction false} AvgPriceRespectsLimit(o: Order, m: Market)
    requires OrderOk(o, m) && o.ordType.LimitType?
    ensures o.side.Bid? ==>
              (AvgPrice(o, m) <= o.price.value <==>
               o.fundsReceived == 0.0 || FundsUsed(o) < Times(o.price.value + Unit(m.bidDigits), o.fundsReceived))
    ensures o.side.Ask? && FundsUsed(o) != 0.0 ==> AvgPrice(o, m) >= o.price.value
  {
    var limit := o.price.value;
    if o.side.Bid? && o.fundsReceived != 0.0 {
      BidAverage(FundsUsed(o), o.fundsReceived, limit, m.bidDigits);
    }
    if o.side.Ask? && FundsUsed(o) != 0.0 {
      Ratio(o.fundsReceived, FundsUsed(o), limit);
      TruncateMonotone(limit, o.fundsReceived / FundsUsed(o), m.bidDigits);
    }
  }

  // In particular a covered bid has an average price within its limit, and a positive
  // lock as long as it is open.
  lemma {:induction false} CoveredBidIsSound(o: Order, m: Market)
    requires OrderOk(o, m) && IsLimitBid(o) && Margin(o) >= 0.0
    ensures AvgPrice(o, m) <= o.price.value && (o.state.Wait? ==> o.locked > 0.0)
  {
    AvgPriceRespectsLimit(o, m);
    CoveredIffWithinLimit(o, m);
    RoomLeft(o.price.value, o.volume);
    if o.fundsReceived != 0.0 {
      RoomAbove(o.price.value, Unit(m.bidDigits), o.fundsReceived);
    }
  }

  lemma {:induction false} RoomAbove(limit: real, unit: real, volume: real)
    requires unit > 0.0 && volume > 0.0
    ensures Times(limit, volume) < Times(limit + unit, volume)
  {
    assert unit * volume > 0.0;
  }

  // It does happen. After a market bid ran out on the resting ask, a limit bid of 40 at
  // 3.20 is filled up to 3.75034375 by that ask, and then by the next; published are
  // volumes cut to four digits, with the funds of the uncut ones.
  const OVERPAID: seq<Trade> :=
    [Trade(0, 0, 0, 3.2, 36.2496, 115.9989), Trade(0, 0, 0, 3.2, 3.7503, 12.0011)]

  // The bid ends open, with volume 0.0001 and nothing locked.
  lemma {:induction false} OverpaidBidRunsDry(o: Order)
    requires IsLimitBid(o) && o.state.Wait? && o.price == Some(3.2) && o.volume == 40.0 && o.locked == 128.0
    ensures Matches(o, OVERPAID[0]) && Matches(Struck(o, OVERPAID[0]), OVERPAID[1])
    ensures Margin(Struck(o, OVERPAID[0])) < 0.0
    ensures var dry := Struck(Struck(o, OVERPAID[0]), OVERPAID[1]);
            dry.state.Wait? && dry.volume == 0.0001 && dry.locked == 0.0
  {
  }

  // And with a small first trade its average price is 5 on a limit of 3.20.
  lemma {:induction false} OverpaidBidAverages(o: Order, m: Market, t: Trade)
    requires IsLimitBid(o) && o.state.Wait? && o.price == Some(3.2) && o.volume == 40.0 && o.locked == 128.0
    requires o.originLocked == 128.0 && o.fundsReceived == 0.0 && m.bidDigits == 2
    requires t == Trade(0, 0, 0, 3.2, 0.0001, 0.0005)
    ensures Matches(o, t) && AvgPrice(Struck(o, t), m) == 5.0
  {
    assert Pow10(2) == 10.0 * Pow10(1) && Pow10(1) == 10.0 * Pow10(0);
    assert 0.0005 / 0.0001 == 5.0;
    assert Up(5.0, 100.0) == 500.0;
  }

  // --- A market bid and its buffer ----------------------------------------------

  function StruckAll(o: Order, ts: seq<Trade>): Order
    decreases |ts|
  {
    if ts == [] then o else StruckAll(Struck(o, ts[0]), ts[1..])
  }

  function TotalVolume(ts: seq<Trade>): real { if ts == [] then 0.0 else ts[0].volume + TotalVolume(ts[1..]) }

  function TotalFunds(ts: seq<Trade>): real { if ts == [] then 0.0 else ts[0].funds + TotalFunds(ts[1..]) }

  lemma {:induction false} TotalsArePositive(ts: seq<Trade>)
    requires forall t | t in ts :: t.volume > 0.0 && t.funds > 0.0
    ensures TotalVolume(ts) >= 0.0 && TotalFunds(ts) >= 0.0
    ensures ts != [] ==> TotalVolume(ts) > 0.0 && TotalFunds(ts) > 0.0
  {
    if ts == [] {
    } else {
      assert forall t | t in ts[1..] :: t in ts;
      assert ts[0] in ts;
      TotalsArePositive(ts[1..]);
    }
  }

  // A market bid struck by any trades of exactly its volume and at most its locked
  // funds ends DONE, is open after every trade before the last, and leaves exactly
  // the unspent part to be unlocked.
  lemma {:induction false} MarketBidEndsDone(o: Order, ts: seq<Trade>)
    requires o.side.Bid? && o.ordType.MarketType? && o.state.Wait? && o.volume > 0.0
    requires forall t | t in ts :: t.volume > 0.0 && t.funds > 0.0
    requires TotalVolume(ts) == o.volume && TotalFunds(ts) <= o.locked
    ensures StruckAll(o, ts).state.Done?
    ensures forall i | 0 <= i < |ts| :: StruckAll(o, ts[..i]).state.Wait?
    ensures Leftover(StruckAll(o, ts)) == o.locked - TotalFunds(ts)
    decreases |ts|
  {
    assert ts[0] in ts;
    var next := Struck(o, ts[0]);
    assert forall t | t in ts[1..] :: t in ts;
    TotalsArePositive(ts[1..]);
    if ts[1..] != [] {
      MarketBidEndsDone(next, ts[1..]);
      forall i | 0 <= i < |ts| ensures StruckAll(o, ts[..i]).state.Wait? {
        if i > 0 {
          assert ts[..i][1..] == ts[1..][..i - 1];
        }
      }
    }
  }

  // With the 10% buffer, that is any trades costing at most 1.1 times the estimate.
  lemma {:induction false} BufferedBidEndsDone(o: Order, m: Market, levels: seq<Estimate.Level>, ts: seq<Trade>)
    requires o.side.Bid? && o.ordType.MarketType? && PositiveBook(levels)
    requires Prepared(o, m, levels).Some? && Prepared(o, m, levels).value.locked > 0.0
    requires forall t | t in ts :: t.volume > 0.0 && t.funds > 0.0
    requires var p := Prepared(o, m, levels).value;
             TotalVolume(ts) == p.volume && TotalFunds(ts) <= 1.1 * Estimate.Required(true, levels, p.volume)
    ensures var p := Prepared(o, m, levels).value;
            && StruckAll(p, ts).state.Done?
            && (forall i | 0 <= i < |ts| :: StruckAll(p, ts[..i]).state.Wait?)
            && Leftover(StruckAll(p, ts)) == 1.1 * Estimate.Required(true, levels, p.volume) - TotalFunds(ts)
  {
    PreparedIsOk(o, m, levels);
    MarketBidEndsDone(Prepared(o, m, levels).value, ts);
  }

  // --- What is locked is enough -----------------------------------------------------

  // An ask locks its volume, whatever its type.
  lemma {:induction false} AskLocksItsVolume(o: Order, levels: seq<Estimate.Level>)
    requires o.side.Ask? && ComputeLocked(o, levels).Some?
    ensures ComputeLocked(o, levels).value == o.volume
  {
    Estimate.AskEstimateIsVolume(levels, o.volume);
  }

  // A limit bid locks enough for any trades within its limit and its volume.
  lemma {:induction false} LimitBidLocksEnough(o: Order, levels: seq<Estimate.Level>, ts: seq<Trade>)
    requires o.side.Bid? && o.ordType.LimitType? && ComputeLocked(o, levels).Some? && o.price.value >= 0.0
    requires forall t | t in ts :: t.volume > 0.0 && t.price <= o.price.value && t.funds == Times(t.price, t.volume)
    requires TotalVolume(ts) <= o.volume
    ensures TotalFunds(ts) <= ComputeLocked(o, levels).value
  {
    CostWithinLimit(o.price.value, ts);
    StrikeStep(o.price.value, o.price.value, 1.0, o.volume);
    assert o.price.value * (o.volume - TotalVolume(ts)) >= 0.0;
  }

  lemma {:induction false} CostWithinLimit(limit: real, ts: seq<Trade>)
    requires forall t | t in ts :: t.volume > 0.0 && t.price <= limit && t.funds == Times(t.price, t.volume)
    ensures TotalFunds(ts) <= Times(limit, TotalVolume(ts))
  {
    if ts == [] {
      assert limit * 0.0 == 0.0;
    } else {
      assert ts[0] in ts && forall t | t in ts[1..] :: t in ts;
      CostWithinLimit(limit, ts[1..]);
      StrikeStep(limit, ts[0].price, ts[0].volume, TotalVolume(ts[1..]));
    }
  }

  // A market bid locks 1.1 times the least its volume costs on the book.
  lemma {:induction false} MarketBidLocksTheBuffer(
      o: Order, levels: seq<Estimate.Level>, lowest: real, taken: seq<real>)
    requires o.side.Bid? && o.ordType.MarketType? && ComputeLocked(o, levels).Some?
    requires Estimate.Book(levels, lowest) && Estimate.Allocates(levels, taken) && Estimate.Total(taken) == o.volume
    ensures ComputeLocked(o, levels).value <= Estimate.Cost(levels, taken) * LOCKING_BUFFER_FACTOR
    ensures taken == Estimate.Greedy(levels, o.volume) ==>
              ComputeLocked(o, levels).value == Estimate.Cost(levels, taken) * LOCKING_BUFFER_FACTOR
  {
    Estimate.EstimateIsOptimal(levels, lowest, o.volume, taken);
  }

  // --- Dust -------------------------------------------------------------------------

  // The engine lets a market bid buy at most what is left of its lock at the price, and
  // publishes that cut to the market's precision: nothing, exactly when less than one
  // unit's worth is left.
  lemma {:induction false} DustIsPublishedAsNothing(locked: real, price: real, m: Market)
    requires locked > 0.0 && price > 0.0
    ensures Truncate(locked / price, m.askDigits) == 0.0 <==> locked < Times(price, Unit(m.askDigits))
  {
    var left, unit := locked / price, Unit(m.askDigits);
    assert left * price == locked;
    Positive(locked, price);
    TruncateToNothing(left, m.askDigits);
    if left < unit {
      assert (unit - left) * price > 0.0;
    } else {
      assert (left - unit) * price >= 0.0;
    }
  }

  lemma {:induction false} Positive(a: real, b: real)
    requires a > 0.0 && b > 0.0
    ensures a / b > 0.0
  {
  }

  // Half a coin left at a price of one thousand, with two digits: a trade of volume 0.
  lemma {:induction false} DustExample(m: Market)
    requires m.askDigits == 2
    ensures Truncate(0.5 / 1000.0, m.askDigits) == 0.0
  {
    assert Pow10(2) == 10.0 * Pow10(1) && Pow10(1) == 10.0 * Pow10(0);
    DustIsPublishedAsNothing(0.5, 1000.0, m);
  }
}
