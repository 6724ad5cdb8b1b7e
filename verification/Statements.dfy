/**
What every single account is owed: its balance, to the last digit, from its deposits,
its withdraws and the trades of its orders.
 */
module Statements {
  import opened Wrappers
  import opened Amounts
  import opened Accounts
  import opened Orders
  import opened Ledger
  import Estimate

  // --- What postings do to balances -------------------------------------------------

  function NetBalance(ps: seq<Posting>, a: nat): real {
    if ps == [] then 0.0
    else (if ps[0].account == a then Change(ps[0].op).balance else 0.0) + NetBalance(ps[1..], a)
  }

  // A committed list of postings moves every balance by exactly its net.
  lemma {:induction false} BalancesAddUp(accounts: seq<Acct>, ps: seq<Posting>, a: nat)
    requires PostAll(accounts, ps).Some? && a < |accounts|
    ensures var after := PostAll(accounts, ps).value;
            |after| == |accounts| && after[a].row.balance == accounts[a].row.balance + NetBalance(ps, a)
    decreases |ps|
  {
    if ps == [] {
    } else {
      BalancesAddUp(Post(accounts, ps[0]).value, ps[1..], a);
    }
  }

  lemma {:induction false} NetBalanceSplits(ps: seq<Posting>, qs: seq<Posting>, a: nat)
    ensures NetBalance(ps + qs, a) == NetBalance(ps, a) + NetBalance(qs, a)
    decreases |ps|
  {
    if ps == [] {
      assert ps + qs == qs;
    } else {
      assert (ps + qs)[1..] == ps[1..] + qs;
      NetBalanceSplits(ps[1..], qs, a);
    }
  }

  lemma {:induction false} StrikeNetBalance(o: Order, m: Market, t: Trade, copies: Copies, a: nat)
    ensures NetBalance(StrikePostings(o, m, t, copies), a) ==
            (if o.hold == a then Leftover(Struck(o, t)) else 0.0)
            + (if o.gain == a then Add(o, t) - Fee(o, m, t) else 0.0)
  {
    var ps := StrikePostings(o, m, t, copies);
    var p, q, rest := ps[0], ps[1], ps[2..];
    assert ps == ([p] + [q]) + rest;
    NetBalanceSplits([p] + [q], rest, a);
    NetBalanceSplits([p], [q], a);
    if rest != [] {
      assert rest == [rest[0]];
    }
  }

  // --- One order's strikes, to the end ------------------------------------------------

  // What a committed strike does to every account: the gaining one receives what the trade
  // brings less the fee, the held one gets back what a filled order leaves, and nobody
  // else's balance or lock changes.
  lemma {:induction false} StrikeMoves(accounts: seq<Acct>, o: Order, m: Market, t: Trade, copies: Copies, a: nat)
    requires AllSound(accounts) && o.hold < |accounts| && o.gain < |accounts| && a < |accounts|
    requires PostAll(accounts, StrikePostings(o, m, t, copies)).Some?
    ensures var after, left := PostAll(accounts, StrikePostings(o, m, t, copies)).value, Leftover(Struck(o, t));
            && |after| == |accounts| && AllSound(after)
            && after[a].row.balance == accounts[a].row.balance
                 + (if o.hold == a then left else 0.0) + (if o.gain == a then Add(o, t) - Fee(o, m, t) else 0.0)
            && after[a].row.locked == accounts[a].row.locked - (if o.hold == a then Sub(o, t) + left else 0.0)
  {
    var ps := StrikePostings(o, m, t, copies);
    BalancesAddUp(accounts, ps, a);
    StrikeNetBalance(o, m, t, copies, a);
    PostingsAddUp(accounts, ps, 0);
    StrikePostingsNet(accounts, o, m, t, copies, a, 0);
  }

  datatype Strike = Strike(trade: Trade, copies: Copies)

  function Trades(strikes: seq<Strike>): seq<Trade> {
    if strikes == [] then [] else [strikes[0].trade] + Trades(strikes[1..])
  }

  // One order struck again and again.
  function StrikeAll(accounts: seq<Acct>, o: Order, m: Market, strikes: seq<Strike>): Option<seq<Acct>>
    decreases |strikes|
  {
    if strikes == [] then Some(accounts)
    else
      match PostAll(accounts, StrikePostings(o, m, strikes[0].trade, strikes[0].copies))
      case None => None
      case Some(next) => StrikeAll(next, Struck(o, strikes[0].trade), m, strikes[1..])
  }

  function TotalFees(rate: real, ts: seq<Trade>): real {
    if ts == [] then 0.0 else Times(ts[0].volume, rate) + TotalFees(rate, ts[1..])
  }

  // A market bid struck by trades of exactly its volume and at most its lock: its account
  // gets back exactly what was locked and not spent, nothing of it stays locked, and the
  // other account receives the volume less the fees.
  lemma {:induction false} MarketBidIsSettled(accounts: seq<Acct>, o: Order, m: Market, strikes: seq<Strike>)
    requires AllSound(accounts) && o.hold < |accounts| && o.gain < |accounts| && o.hold != o.gain
    requires o.side.Bid? && o.ordType.MarketType? && o.state.Wait? && o.volume > 0.0
    requires forall t | t in Trades(strikes) :: t.volume > 0.0 && t.funds > 0.0
    requires TotalVolume(Trades(strikes)) == o.volume && TotalFunds(Trades(strikes)) <= o.locked
    requires StrikeAll(accounts, o, m, strikes).Some?
    ensures var after, ts := StrikeAll(accounts, o, m, strikes).value, Trades(strikes);
            && |after| == |accounts|
            && after[o.hold].row.balance == accounts[o.hold].row.balance + (o.locked - TotalFunds(ts))
            && after[o.hold].row.locked == accounts[o.hold].row.locked - o.locked
            && after[o.gain].row.balance == accounts[o.gain].row.balance + TotalVolume(ts) - TotalFees(m.bidFee, ts)
    decreases |strikes|
  {
    var ts := Trades(strikes);
    var t, copies, next := ts[0], strikes[0].copies, Struck(o, ts[0]);
    assert ts[1..] == Trades(strikes[1..]) && t in ts && forall u | u in ts[1..] :: u in ts;
    StrikeMoves(accounts, o, m, t, copies, o.hold);
    StrikeMoves(accounts, o, m, t, copies, o.gain);
    TotalsArePositive(ts[1..]);
    if strikes[1..] == [] {
    } else {
      assert ts[1..] != [];
      MarketBidIsSettled(PostAll(accounts, StrikePostings(o, m, t, copies)).value, next, m, strikes[1..]);
    }
  }

  // With the buffer: of the 1.1 times the estimate that was locked, exactly the part not
  // spent is back on the balance.
  lemma {:induction false} BufferedBidIsSettled(
      accounts: seq<Acct>, o: Order, m: Market, levels: seq<Estimate.Level>, strikes: seq<Strike>)
    requires o.side.Bid? && o.ordType.MarketType? && PositiveBook(levels)
    requires Prepared(o, m, levels).Some? && Prepared(o, m, levels).value.locked > 0.0
    requires AllSound(accounts) && o.hold < |accounts| && o.gain < |accounts| && o.hold != o.gain
    requires forall t | t in Trades(strikes) :: t.volume > 0.0 && t.funds > 0.0
    requires var p := Prepared(o, m, levels).value;
             && TotalVolume(Trades(strikes)) == p.volume
             && TotalFunds(Trades(strikes)) <= 1.1 * Estimate.Required(true, levels, p.volume)
             && StrikeAll(accounts, p, m, strikes).Some?
    ensures var p, ts := Prepared(o, m, levels).value, Trades(strikes);
            var after := StrikeAll(accounts, p, m, strikes).value;
            var locked := 1.1 * Estimate.Required(true, levels, p.volume);
            && |after| == |accounts|
            && after[o.hold].row.balance == accounts[o.hold].row.balance + (locked - TotalFunds(ts))
            && after[o.hold].row.locked == accounts[o.hold].row.locked - locked
            && after[o.gain].row.balance == accounts[o.gain].row.balance + TotalVolume(ts) - TotalFees(m.bidFee, ts)
  {
    PreparedIsOk(o, m, levels);
    MarketBidIsSettled(accounts, Prepared(o, m, levels).value, m, strikes);
  }

  // --- The statement of an account ------------------------------------------------------

  function CreditedTo(a: nat): Deposit -> real {
    (d: Deposit) => if d.account == a && d.credits > 0 then d.amount else 0.0
  }

  function WithdrawnFrom(a: nat): Withdraw -> real {
    (w: Withdraw) => if w.account == a && w.state.Finished? then w.sum else 0.0
  }

  function BidFlow(p: Order, m: Market, t: Trade, a: nat): real {
    (if p.hold == a then -t.funds else 0.0) + (if p.gain == a then t.volume - Times(t.volume, m.bidFee) else 0.0)
  }

  function AskFlow(p: Order, m: Market, t: Trade, a: nat): real {
    (if p.hold == a then -t.volume else 0.0) + (if p.gain == a then t.funds - Times(t.funds, m.askFee) else 0.0)
  }

  // What a trade brings to account a, and takes from it.
  function FlowTo(orders: seq<Order>, markets: seq<Market>, a: nat): Trade -> real {
    (t: Trade) =>
      if t.bid < |orders| && t.ask < |orders| && t.market < |markets| then
        BidFlow(orders[t.bid], markets[t.market], t, a) + AskFlow(orders[t.ask], markets[t.market], t, a)
      else 0.0
  }

  // Everything on the account, locked or not, stems from its credited deposits and the
  // trades of its orders, less its withdraws done.
  ghost predicate Stated(s: State, a: nat)
    requires a < |s.accounts|
  {
    s.accounts[a].row.balance + s.accounts[a].row.locked ==
      Sum(s.deposits, CreditedTo(a)) - Sum(s.withdraws, WithdrawnFrom(a))
      + Sum(s.trades, FlowTo(s.orders, s.markets, a))
  }

  lemma {:induction false} FlowsStay(s: State, n: State, a: nat)
    requires TradesPlaced(s) && n.markets == s.markets && |s.orders| <= |n.orders|
    requires forall i | 0 <= i < |s.orders| ::
               n.orders[i].hold == s.orders[i].hold && n.orders[i].gain == s.orders[i].gain
    ensures Sum(s.trades, FlowTo(n.orders, n.markets, a)) ==
            Sum(s.trades, FlowTo(s.orders, s.markets, a))
  {
    SumSame(s.trades, s.trades, FlowTo(n.orders, n.markets, a), FlowTo(s.orders, s.markets, a));
  }

  lemma {:induction false} PostingsMove(accounts: seq<Acct>, ps: seq<Posting>, a: nat)
    requires AllSound(accounts) && PostAll(accounts, ps).Some? && a < |accounts|
    ensures var after := PostAll(accounts, ps).value;
            && |after| == |accounts|
            && after[a].row.balance + after[a].row.locked ==
                 accounts[a].row.balance + accounts[a].row.locked + NetBalance(ps, a) + NetLocked(ps, a)
  {
    PostingsAddUp(accounts, ps, 0);
    BalancesAddUp(accounts, ps, a);
  }

  lemma {:induction false} StrikeFlow(o: Order, m: Market, t: Trade, copies: Copies, a: nat)
    ensures NetBalance(StrikePostings(o, m, t, copies), a) + NetLocked(StrikePostings(o, m, t, copies), a) ==
            (if o.hold == a then -Sub(o, t) else 0.0) + (if o.gain == a then Add(o, t) - Fee(o, m, t) else 0.0)
  {
    var enough := seq(o.hold + o.gain + 1, _ => Acct(0, Row(0.0, 0.0, [])));
    StrikeNetBalance(o, m, t, copies, a);
    StrikePostingsNet(enough, o, m, t, copies, a, 0);
  }

  // The two strikes of a trade move on every account exactly what the trade brings it.
  lemma {:induction false} TradeFlow(s: State, t: Trade, bidCopies: Copies, askCopies: Copies, a: nat)
    requires EngineMade(s, t) && t.market < |s.markets| && s.orders[t.bid].side.Bid? && s.orders[t.ask].side.Ask?
    ensures var m := s.markets[t.market];
            var all := StrikePostings(s.orders[t.bid], m, t, bidCopies)
                       + StrikePostings(s.orders[t.ask], m, t, askCopies);
            NetBalance(all, a) + NetLocked(all, a) == FlowTo(s.orders, s.markets, a)(t)
  {
    var bid, ask, m := s.orders[t.bid], s.orders[t.ask], s.markets[t.market];
    var ps, qs := StrikePostings(bid, m, t, bidCopies), StrikePostings(ask, m, t, askCopies);
    NetBalanceSplits(ps, qs, a);
    NetsSplit([], ps, qs, a, 0);
    StrikeFlow(bid, m, t, bidCopies, a);
    StrikeFlow(ask, m, t, askCopies, a);
  }

  // Striking changes neither whose order it is nor where it stands.
  lemma {:induction false} TradeKeepsFlows(s: State, t: Trade, bidCopies: Copies, askCopies: Copies, a: nat)
    requires TradesPlaced(s) && Traded(s, t, bidCopies, askCopies).Some?
    ensures var n := Traded(s, t, bidCopies, askCopies).value;
            && Sum(s.trades, FlowTo(n.orders, n.markets, a)) == Sum(s.trades, FlowTo(s.orders, s.markets, a))
            && FlowTo(n.orders, n.markets, a)(t) == FlowTo(s.orders, s.markets, a)(t)
  {
    FlowsStay(s, Traded(s, t, bidCopies, askCopies).value, a);
  }

  lemma {:induction false} TradeIsStated(s: State, t: Trade, bidCopies: Copies, askCopies: Copies, a: nat)
    requires Inv(s) && EngineMade(s, t) && Traded(s, t, bidCopies, askCopies).Some? && a < |s.accounts| && Stated(s, a)
    ensures var n := Traded(s, t, bidCopies, askCopies).value; a < |n.accounts| && Stated(n, a)
  {
    var bid, ask, m := s.orders[t.bid], s.orders[t.ask], s.markets[t.market];
    PostingsMove(s.accounts, StrikePostings(bid, m, t, bidCopies) + StrikePostings(ask, m, t, askCopies), a);
    TradeFlow(s, t, bidCopies, askCopies, a);
    TradeKeepsFlows(s, t, bidCopies, askCopies, a);
    SumAppend(s.trades, t, FlowTo(Traded(s, t, bidCopies, askCopies).value.orders, s.markets, a));
  }

  // Locking and unlocking move nothing on or off an account.
  lemma {:induction false} OrderIsStated(s: State, n: State, p: Posting, a: nat)
    requires Inv(s) && a < |s.accounts| && Stated(s, a) && (p.op.LockFunds? || p.op.UnlockFunds?)
    requires Post(s.accounts, p).Some? && n == s.(accounts := Post(s.accounts, p).value, orders := n.orders)
    requires |s.orders| <= |n.orders|
    requires forall i | 0 <= i < |s.orders| ::
               n.orders[i].hold == s.orders[i].hold && n.orders[i].gain == s.orders[i].gain
    ensures a < |n.accounts| && Stated(n, a)
  {
    OnlyPosting(s.accounts, p);
    PostingsMove(s.accounts, [p], a);
    NetOfOne(s.accounts, p, a, 0);
    FlowsStay(s, n, a);
  }

  lemma {:induction false} SubmittedOneIsStated(s: State, b: NewOrder, a: nat)
    requires Inv(s) && SubmittedOne(s, b.order, b.levels, b.copy).Some? && a < |s.accounts| && Stated(s, a)
    ensures var n := SubmittedOne(s, b.order, b.levels, b.copy).value; a < |n.accounts| && Stated(n, a)
  {
    var n := SubmittedOne(s, b.order, b.levels, b.copy).value;
    var order := Prepared(b.order, s.markets[b.order.market], b.levels).value;
    OrderIsStated(s, n, Posting(order.hold, LockFunds(order.locked), b.copy), a);
  }

  lemma {:induction false} StillLegal(s: State, n: State, batch: seq<NewOrder>)
    requires batch != [] && Legal(s, SubmitOrders(batch))
    requires SameAccounts(s.accounts, n.accounts) && n.markets == s.markets
    ensures batch[0] in batch && Legal(n, SubmitOrders(batch[1..]))
  {
    assert forall c | c in batch[1..] :: c in batch;
  }

  lemma {:induction false} SubmittedIsStated(s: State, batch: seq<NewOrder>, a: nat)
    requires Inv(s) && Legal(s, SubmitOrders(batch)) && SubmittedAll(s, batch).Some? && a < |s.accounts| && Stated(s, a)
    ensures var n := SubmittedAll(s, batch).value; a < |n.accounts| && Stated(n, a)
    decreases |batch|
  {
    if batch == [] {
    } else {
      var b := batch[0];
      var next := SubmittedOne(s, b.order, b.levels, b.copy).value;
      assert b in batch;
      SubmittedOneIsStated(s, b, a);
      SubmitKeepsInv(s, b.order, b.levels, b.copy);
      StillLegal(s, next, batch);
      SubmittedIsStated(next, batch[1..], a);
    }
  }

  lemma {:induction false} CancelledIsStated(s: State, batch: seq<CancelRequest>, a: nat)
    requires Inv(s) && CancelledAll(s, batch).Some? && a < |s.accounts| && Stated(s, a)
    ensures var n := CancelledAll(s, batch).value; a < |n.accounts| && Stated(n, a)
    decreases |batch|
  {
    if batch == [] {
    } else {
      var c := batch[0];
      var next := CancelledOne(s, c.id, c.copy).value;
      OrderIsStated(s, next, Posting(s.orders[c.id].hold, UnlockFunds(s.orders[c.id].locked), c.copy), a);
      CancelKeepsInv(s, c.id, c.copy);
      CancelledIsStated(next, batch[1..], a);
    }
  }

  // The account pays for a withdraw when it is done, and only then.
  lemma {:induction false} WithdrawFlow(s: State, w: Withdraw, e: WithdrawEvent, a: nat)
    requires w.account < |s.accounts| && WithdrawNext(w.state, e).Some?
    ensures var ps, next := WithdrawPostings(s, w, e), w.(state := WithdrawNext(w.state, e).value);
            NetBalance(ps, a) + NetLocked(ps, a) == WithdrawnFrom(a)(w) - WithdrawnFrom(a)(next)
  {
    var ps := WithdrawPostings(s, w, e);
    if ps != [] {
      NetOfOne(s.accounts, ps[0], a, 0);
    }
  }

  lemma {:induction false} WithdrawIsStated(s: State, id: nat, e: WithdrawEvent, a: nat)
    requires Inv(s) && a < |s.accounts| && Stated(s, a)
    ensures var n := WithdrawFires(s, id, e); a < |n.accounts| && Stated(n, a)
  {
    if WithdrawFired(s, id, e).Some? {
      FiredIsStated(s, id, e, a);
    }
  }

  lemma {:induction false} FiredIsStated(s: State, id: nat, e: WithdrawEvent, a: nat)
    requires AllSound(s.accounts) && a < |s.accounts| && Stated(s, a) && WithdrawFired(s, id, e).Some?
    ensures var n := WithdrawFired(s, id, e).value; a < |n.accounts| && Stated(n, a)
  {
    var n, w := WithdrawFired(s, id, e).value, s.withdraws[id];
    PostingsMove(s.accounts, WithdrawPostings(s, w, e), a);
    WithdrawFlow(s, w, e, a);
    SumUpdate(s.withdraws, id, n.withdraws[id], WithdrawnFrom(a));
  }

  lemma {:induction false} CreditIsStated(s: State, n: State, id: nat, a: nat)
    requires AllSound(s.accounts) && DepositsPlaced(s) && a < |s.accounts| && Stated(s, a) && Credited(s, id) == Some(n)
    ensures a < |n.accounts| && Stated(n, a)
  {
    var d := s.deposits[id];
    var p := Posting(d.account, PlusFunds(d.amount, 0.0), BalancesOf(s.accounts[d.account].row));
    assert HookedOnce(d);
    OnlyPosting(s.accounts, p);
    PostingsMove(s.accounts, [p], a);
    NetOfOne(s.accounts, p, a, 0);
    SumUpdate(s.deposits, id, n.deposits[id], CreditedTo(a));
  }

  lemma {:induction false} DepositFiringIsStated(s: State, n: State, id: nat, e: DepositEvent, a: nat)
    requires n == DepositFires(s, id, e) && a < |s.accounts| && Stated(s, a)
    ensures a < |n.accounts| && Stated(n, a)
  {
    if id < |s.deposits| {
      SumUpdate(s.deposits, id, n.deposits[id], CreditedTo(a));
    }
  }

  // What says the same says the same.
  lemma {:induction false} SameIsStated(s: State, n: State, a: nat)
    requires a < |s.accounts| <= |n.accounts| && n.accounts[a] == s.accounts[a] && Stated(s, a)
    requires n.deposits == s.deposits && n.withdraws == s.withdraws && n.trades == s.trades
    requires n.orders == s.orders && n.markets == s.markets
    ensures Stated(n, a)
  {
  }

  // A new account starts with an empty statement.
  lemma {:induction false} OpenedIsStated(s: State, n: State, currency: nat)
    requires Inv(s) && n == s.(accounts := s.accounts + [Acct(currency, Row(0.0, 0.0, []))])
    ensures Stated(n, |s.accounts|)
  {
    NothingFlows(s, |s.accounts|);
    SumZero(s.deposits, CreditedTo(|s.accounts|));
    SumZero(s.withdraws, WithdrawnFrom(|s.accounts|));
  }

  lemma {:induction false} NothingFlows(s: State, a: nat)
    requires OrdersPlaced(s) && TradesPlaced(s) && a >= |s.accounts|
    ensures Sum(s.trades, FlowTo(s.orders, s.markets, a)) == 0.0
  {
    forall i | 0 <= i < |s.trades|
      ensures FlowTo(s.orders, s.markets, a)(s.trades[i]) == 0.0
    {
      assert Addressed(s, s.orders[s.trades[i].bid]) && Addressed(s, s.orders[s.trades[i].ask]);
    }
    SumZero(s.trades, FlowTo(s.orders, s.markets, a));
  }

  lemma {:induction false} WithdrawAskedIsStated(s: State, n: State, account: nat, sum: real, seen: real, a: nat)
    requires n == WithdrawAsked(s, account, sum, seen) && a < |s.accounts| && Stated(s, a)
    ensures a < |n.accounts| && Stated(n, a)
  {
    SumAppend(s.withdraws, Withdraw(account, sum, WithdrawState.Submitting), WithdrawnFrom(a));
  }

  lemma {:induction false} DepositAskedIsStated(s: State, n: State, account: nat, amount: real, a: nat)
    requires n == DepositAsked(s, account, amount) && a < |s.accounts| && Stated(s, a)
    ensures a < |n.accounts| && Stated(n, a)
  {
    SumAppend(s.deposits, Deposit(account, amount, DepositState.Submitting, 0, 0), CreditedTo(a));
  }

  lemma {:induction false} AuditedIsStated(s: State, id: nat, quick: bool, a: nat)
    requires Inv(s) && a < |s.accounts| && Stated(s, a)
    ensures var n := Audited(s, id, quick); a < |n.accounts| && Stated(n, a)
  {
    WithdrawIsStated(s, id, MarkSuspect, a);
    AcceptedIsStated(s, id, quick, a);
  }

  lemma {:induction false} AcceptedIsStated(s: State, id: nat, quick: bool, a: nat)
    requires Inv(s) && a < |s.accounts| && Stated(s, a)
    ensures var accepted := WithdrawFires(s, id, WithdrawEvent.Accept);
            var n := if quick then WithdrawFires(accepted, id, Process) else accepted;
            a < |n.accounts| && Stated(n, a)
  {
    WithdrawIsStated(s, id, WithdrawEvent.Accept, a);
    FireKeepsInv(s, id, WithdrawEvent.Accept);
    WithdrawIsStated(WithdrawFires(s, id, WithdrawEvent.Accept), id, Process, a);
  }

  lemma {:induction false} CheckedIsStated(s: State, n: State, id: nat, confirmations: int, a: nat)
    requires n == PaymentChecked(s, id, confirmations) && a < |s.accounts| && Stated(s, a)
    ensures a < |n.accounts| && Stated(n, a)
  {
    if id < |s.payments| && PaymentNext(s.payments[id], confirmations).Some? {
      var p := s.payments[id];
      var t := s.(payments := s.payments[id := p.(state := PaymentNext(p, confirmations).value)]);
      SameIsStated(s, t, a);
      DepositFiringIsStated(t, n, p.deposit, DepositEvent.Accept, a);
    }
  }

  ghost predicate AllStated(s: State) { forall a: nat | a < |s.accounts| :: Stated(s, a) }

  lemma {:induction false} OrdersKeepAccount(s: State, e: Event, n: State, a: nat)
    requires e.SubmitOrders? || e.ExecuteTrade? || e.CancelOrders?
    requires n == Exec(s, e) && Inv(s) && Legal(s, e) && a < |s.accounts| && Stated(s, a)
    ensures a < |n.accounts| && Stated(n, a)
  {
    match e
    case SubmitOrders(batch) => if SubmittedAll(s, batch).Some? { SubmittedIsStated(s, batch, a); }
    case ExecuteTrade(t, bc, ac) => if Traded(s, t, bc, ac).Some? { TradeIsStated(s, t, bc, ac, a); }
    case CancelOrders(batch) => if CancelledAll(s, batch).Some? { CancelledIsStated(s, batch, a); }
  }

  lemma {:induction false} CreditKeepsAccount(s: State, id: nat, n: State, a: nat)
    requires AllSound(s.accounts) && DepositsPlaced(s)
    requires n == OrElse(Credited(s, id), s) && a < |s.accounts| && Stated(s, a)
    ensures a < |n.accounts| && Stated(n, a)
  {
    if Credited(s, id).Some? {
      CreditIsStated(s, n, id, a);
    }
  }

  lemma {:induction false} DepositsKeepAccount(s: State, e: Event, n: State, a: nat)
    requires e.FireDeposit? || e.CheckPayment?
    requires n == Exec(s, e) && a < |s.accounts| && Stated(s, a)
    ensures a < |n.accounts| && Stated(n, a)
  {
    if e.FireDeposit? {
      DepositFiringIsStated(s, n, e.deposit, e.depositEvent, a);
    } else {
      CheckedIsStated(s, n, e.payment, e.confirmations, a);
    }
  }

  lemma {:induction false} WithdrawsKeepAccount(s: State, e: Event, n: State, a: nat)
    requires e.FireWithdraw? || e.Audit?
    requires n == Exec(s, e) && Inv(s) && a < |s.accounts| && Stated(s, a)
    ensures a < |n.accounts| && Stated(n, a)
  {
    match e
    case FireWithdraw(id, we) => WithdrawIsStated(s, id, we, a);
    case Audit(id, quick) => AuditedIsStated(s, id, quick, a);
  }

  lemma {:induction false} OpeningKeepsAccount(s: State, e: Event, n: State, a: nat)
    requires e.OpenAccount? || e.NewWithdraw? || e.NewDeposit? || e.NewPayment?
    requires n == Exec(s, e) && a < |s.accounts| && Stated(s, a)
    ensures a < |n.accounts| && Stated(n, a)
  {
    match e
    case OpenAccount(_) => SameIsStated(s, n, a);
    case NewWithdraw(account, sum, seen) => WithdrawAskedIsStated(s, n, account, sum, seen, a);
    case NewDeposit(account, amount) => DepositAskedIsStated(s, n, account, amount, a);
    case NewPayment(_, _, _) => SameIsStated(s, n, a);
  }

  lemma {:induction false} ExecKeepsAccount(s: State, e: Event, n: State, a: nat)
    requires n == Exec(s, e) && Inv(s) && Legal(s, e) && a < |s.accounts| && Stated(s, a)
    ensures a < |n.accounts| && Stated(n, a)
  {
    if e.SubmitOrders? || e.ExecuteTrade? || e.CancelOrders? {
      OrdersKeepAccount(s, e, n, a);
    } else if e.FireWithdraw? || e.Audit? {
      WithdrawsKeepAccount(s, e, n, a);
    } else if e.OpenAccount? || e.NewWithdraw? || e.NewDeposit? || e.NewPayment? {
      OpeningKeepsAccount(s, e, n, a);
    } else if e.Credit? {
      CreditKeepsAccount(s, e.credited, n, a);
    } else {
      DepositsKeepAccount(s, e, n, a);
    }
  }

  // Only opening an account adds one.
  lemma {:induction false} AccountsAre(s: State, e: Event)
    requires Inv(s) && Legal(s, e)
    ensures e.OpenAccount? ==> |Exec(s, e).accounts| == |s.accounts| + 1
    ensures !e.OpenAccount? ==> |Exec(s, e).accounts| == |s.accounts|
  {
    match e
    case SubmitOrders(batch) => if SubmittedAll(s, batch).Some? { SubmittingOpensNone(s, batch); }
    case CancelOrders(batch) => if CancelledAll(s, batch).Some? { CancellingOpensNone(s, batch); }
    case ExecuteTrade(t, bc, ac) => if Traded(s, t, bc, ac).Some? { TradeKeepsAccounts(s, t, bc, ac); }
    case FireWithdraw(id, we) => FiringOpensNone(s, id, we);
    case Audit(id, quick) =>
      FiringOpensNone(s, id, MarkSuspect);
      FiringOpensNone(s, id, WithdrawEvent.Accept);
      FiringOpensNone(WithdrawFires(s, id, WithdrawEvent.Accept), id, Process);
    case _ =>
  }

  lemma {:induction false} PostingOpensNone(accounts: seq<Acct>, ps: seq<Posting>)
    requires PostAll(accounts, ps).Some?
    ensures |PostAll(accounts, ps).value| == |accounts|
    decreases |ps|
  {
    if ps == [] {
    } else {
      PostingOpensNone(Post(accounts, ps[0]).value, ps[1..]);
    }
  }

  lemma {:induction false} FiringOpensNone(s: State, id: nat, e: WithdrawEvent)
    ensures |WithdrawFires(s, id, e).accounts| == |s.accounts|
  {
    if WithdrawFired(s, id, e).Some? {
      PostingOpensNone(s.accounts, WithdrawPostings(s, s.withdraws[id], e));
    }
  }

  lemma {:induction false} SubmittingOpensNone(s: State, batch: seq<NewOrder>)
    requires SubmittedAll(s, batch).Some?
    ensures |SubmittedAll(s, batch).value.accounts| == |s.accounts|
    decreases |batch|
  {
    if batch == [] {
    } else {
      SubmittingOpensNone(SubmittedOne(s, batch[0].order, batch[0].levels, batch[0].copy).value, batch[1..]);
    }
  }

  lemma {:induction false} CancellingOpensNone(s: State, batch: seq<CancelRequest>)
    requires CancelledAll(s, batch).Some?
    ensures |CancelledAll(s, batch).value.accounts| == |s.accounts|
    decreases |batch|
  {
    if batch == [] {
    } else {
      CancellingOpensNone(CancelledOne(s, batch[0].id, batch[0].copy).value, batch[1..]);
    }
  }

  lemma {:induction false} ExecKeepsStatements(s: State, e: Event, n: State)
    requires Inv(s) && AllStated(s) && Legal(s, e) && n == Exec(s, e)
    ensures AllStated(n)
  {
    AccountsAre(s, e);
    forall a: nat | a < |n.accounts| ensures Stated(n, a) {
      if a < |s.accounts| {
        ExecKeepsAccount(s, e, n, a);
      } else {
        OpenedIsStated(s, n, e.currency);
      }
    }
  }

  lemma {:induction false} RunKeepsStatements(s: State, events: seq<Event>)
    requires Inv(s) && AllStated(s) && LegalRun(s, events)
    ensures AllStated(Run(s, events))
    decreases |events|
  {
    if events == [] {
    } else {
      ExecKeepsStatements(s, events[0], Exec(s, events[0]));
      ExecKeepsInv(s, events[0]);
      RunKeepsStatements(Exec(s, events[0]), events[1..]);
    }
  }

  // In every reachable state every account's balance is, to the last digit, what was
  // credited to it, less what was withdrawn, plus what the trades of its orders brought
  // and less what they took, less what is on hold.
  lemma {:induction false} BalancesAreAccountedFor(markets: seq<Market>, events: seq<Event>, a: nat)
    requires LegalRun(Init(markets), events) && a < |Run(Init(markets), events).accounts|
    ensures var s := Run(Init(markets), events);
            s.accounts[a].row.balance ==
              Sum(s.deposits, CreditedTo(a)) - Sum(s.withdraws, WithdrawnFrom(a))
              + Sum(s.trades, FlowTo(s.orders, s.markets, a)) - OnHold(s, a)
  {
    assert AllStated(Init(markets));
    ReachableIsInv(markets, []);
    RunKeepsStatements(Init(markets), events);
    ReachableIsInv(markets, events);
    assert Stated(Run(Init(markets), events), a);
  }
}
