/**
The exchange's books as one transition system: accounts with their version logs,
orders, trades, withdraws and deposits. Every event is one transaction; one that
raises leaves everything as it was. Processes may guard on any stale copy at all.
 */
module Ledger {
  import opened Wrappers
  import opened Amounts
  import opened Accounts
  import opened Orders
  import Estimate

  datatype Acct = Acct(currency: nat, row: Row)

  datatype WithdrawState =
    | Submitting | Submitted | Canceled | Accepted | Suspect | Rejected | Processing | AlmostDone | Finished | Failed

  datatype WithdrawEvent = Submit | Cancel | MarkSuspect | Accept | Reject | Process | CallRpc | Succeed | Fail

  datatype Withdraw = Withdraw(account: nat, sum: real, state: WithdrawState)

  datatype DepositState = Submitting | Cancelled | Submitted | Rejected | Accepted | Checked | Warning

  datatype DepositEvent = Submit | Cancel | Reject | Accept | Check | Warn

  // Entering the accepted state leaves an after-commit hook `due`, which credits the
  // account when it runs; `credits` counts those that have run.
  datatype Deposit = Deposit(account: nat, amount: real, state: DepositState, due: nat, credits: nat)

  datatype PaymentState = Unconfirm | Confirming | Confirmed

  // The blockchain transaction behind a deposit, with its channel's thresholds.
  datatype Payment = Payment(deposit: nat, state: PaymentState, minConfirm: int, maxConfirm: int)

  datatype State = State(
    markets: seq<Market>, accounts: seq<Acct>, orders: seq<Order>, trades: seq<Trade>,
    withdraws: seq<Withdraw>, deposits: seq<Deposit>, payments: seq<Payment>)

  // --- Postings: fund operations on numbered accounts -------------------------

  datatype Posting = Posting(account: nat, op: FundOp, copy: Balances)

  function Post(accounts: seq<Acct>, p: Posting): Option<seq<Acct>> {
    if p.account >= |accounts| then None
    else
      match Apply(accounts[p.account].row, p.copy, p.op)
      case Err(_) => None
      case Ok(row) => Some(accounts[p.account := accounts[p.account].(row := row)])
  }

  // All or nothing.
  function PostAll(accounts: seq<Acct>, ps: seq<Posting>): Option<seq<Acct>>
    decreases |ps|
  {
    if ps == [] then Some(accounts)
    else
      match Post(accounts, ps[0])
      case None => None
      case Some(next) => PostAll(next, ps[1..])
  }

  function Total(b: Balances): real { b.balance + b.locked }

  function NetLocked(ps: seq<Posting>, a: nat): real {
    if ps == [] then 0.0
    else (if ps[0].account == a then Change(ps[0].op).locked else 0.0) + NetLocked(ps[1..], a)
  }

  function NetCurrency(accounts: seq<Acct>, ps: seq<Posting>, c: nat): real {
    if ps == [] then 0.0
    else
      (if ps[0].account < |accounts| && accounts[ps[0].account].currency == c then Total(Change(ps[0].op)) else 0.0)
      + NetCurrency(accounts, ps[1..], c)
  }

  function InCurrency(c: nat): Acct -> real {
    (a: Acct) => if a.currency == c then a.row.balance + a.row.locked else 0.0
  }

  ghost predicate AllSound(accounts: seq<Acct>) { forall a | 0 <= a < |accounts| :: Sound(accounts[a].row) }

  ghost predicate SameAccounts(before: seq<Acct>, after: seq<Acct>) {
    |before| == |after| && forall a | 0 <= a < |before| :: before[a].currency == after[a].currency
  }

  // A committed list of postings keeps every row sound and moves exactly its net.
  lemma {:induction false} PostingsAddUp(accounts: seq<Acct>, ps: seq<Posting>, c: nat)
    requires AllSound(accounts) && PostAll(accounts, ps).Some?
    ensures var after := PostAll(accounts, ps).value;
            && SameAccounts(accounts, after) && AllSound(after)
            && (forall a | 0 <= a < |accounts| :: after[a].row.locked == accounts[a].row.locked + NetLocked(ps, a))
            && Sum(after, InCurrency(c)) == Sum(accounts, InCurrency(c)) + NetCurrency(accounts, ps, c)
    decreases |ps|
  {
    if ps == [] {
    } else {
      var p := ps[0];
      var next := Post(accounts, p).value;
      ApplyIsSound(accounts[p.account].row, p.copy, p.op);
      SumUpdate(accounts, p.account, next[p.account], InCurrency(c));
      PostingsAddUp(next, ps[1..], c);
      SameCurrencies(accounts, next, ps[1..], c);
    }
  }

  lemma {:induction false} SameCurrencies(before: seq<Acct>, after: seq<Acct>, ps: seq<Posting>, c: nat)
    requires SameAccounts(before, after)
    ensures NetCurrency(before, ps, c) == NetCurrency(after, ps, c)
  {
    if ps == [] {
    } else {
      SameCurrencies(before, after, ps[1..], c);
    }
  }

  // --- Orders -----------------------------------------------------------------

  // `do_submit` for the next order number.
  function SubmittedOne(s: State, o: Order, levels: seq<Estimate.Level>, copy: Balances): Option<State> {
    if o.market >= |s.markets| then None
    else
      match Prepared(o, s.markets[o.market], levels)
      case None => None
      case Some(order) =>
        match Post(s.accounts, Posting(order.hold, LockFunds(order.locked), copy))
        case None => None
        case Some(accounts) => Some(s.(orders := s.orders + [order], accounts := accounts))
  }

  datatype NewOrder = NewOrder(order: Order, levels: seq<Estimate.Level>, copy: Balances)

  // `submit`: the whole batch in one transaction.
  function SubmittedAll(s: State, batch: seq<NewOrder>): Option<State>
    decreases |batch|
  {
    if batch == [] then Some(s)
    else
      match SubmittedOne(s, batch[0].order, batch[0].levels, batch[0].copy)
      case None => None
      case Some(next) => SubmittedAll(next, batch[1..])
  }

  // The copies a strike works on: each `hold_account`, `expect_account` is a fresh
  // object.
  datatype Copies = Copies(hold: Balances, gain: Balances, holdAgain: Balances)

  function StrikePostings(o: Order, m: Market, t: Trade, copies: Copies): seq<Posting> {
    var fee := Fee(o, m, t);
    var after := Struck(o, t);
    [Posting(o.hold, UnlockAndSubFunds(Sub(o, t), Sub(o, t)), copies.hold),
     Posting(o.gain, PlusFunds(Add(o, t) - fee, fee), copies.gain)]
    + if after.state.Done? && after.locked != 0.0 then [Posting(o.hold, UnlockFunds(after.locked), copies.holdAgain)]
      else []
  }

  // The executor's own check before it strikes.
  predicate ValidTrade(ask: Order, bid: Order, t: Trade) {
    && !(ask.ordType.LimitType? && ask.price.Some? && ask.price.value > t.price)
    && !(bid.ordType.LimitType? && bid.price.Some? && bid.price.value < t.price)
    && t.funds > 0.0 && Estimate.Min(ask.volume, bid.volume) >= t.volume
  }

  // A trade: both orders found and locked, the check, the trade row, two strikes.
  function Traded(s: State, t: Trade, bidCopies: Copies, askCopies: Copies): Option<State> {
    if t.bid >= |s.orders| || t.ask >= |s.orders| then None
    else
      var bid, ask := s.orders[t.bid], s.orders[t.ask];
      if !bid.side.Bid? || !ask.side.Ask? || bid.market >= |s.markets| || ask.market >= |s.markets| then None
      else if !ValidTrade(ask, bid, t) || !bid.state.Wait? || !ask.state.Wait? then None
      else
        var ps := StrikePostings(bid, s.markets[bid.market], t, bidCopies)
                  + StrikePostings(ask, s.markets[ask.market], t, askCopies);
        match PostAll(s.accounts, ps)
        case None => None
        case Some(accounts) =>
          Some(s.(accounts := accounts, trades := s.trades + [t],
                  orders := s.orders[t.bid := Struck(bid, t)][t.ask := Struck(ask, t)]))
  }

  // `do_cancel!`.
  function CancelledOne(s: State, id: nat, copy: Balances): Option<State> {
    if id >= |s.orders| || !s.orders[id].state.Wait? then None
    else
      var o := s.orders[id];
      match Post(s.accounts, Posting(o.hold, UnlockFunds(o.locked), copy))
      case None => None
      case Some(accounts) => Some(s.(orders := s.orders[id := o.(state := OrderState.Cancelled)], accounts := accounts))
  }

  datatype CancelRequest = CancelRequest(id: nat, copy: Balances)

  // `cancel!`: the whole list in one transaction.
  function CancelledAll(s: State, batch: seq<CancelRequest>): Option<State>
    decreases |batch|
  {
    if batch == [] then Some(s)
    else
      match CancelledOne(s, batch[0].id, batch[0].copy)
      case None => None
      case Some(next) => CancelledAll(next, batch[1..])
  }

  // --- Withdraws and deposits -------------------------------------------------

  function WithdrawNext(from: WithdrawState, e: WithdrawEvent): Option<WithdrawState> {
    match e
    case Submit => if from.Submitting? then Some(WithdrawState.Submitted) else None
    case Cancel => if from.Submitting? || from.Submitted? || from.Accepted? then Some(Canceled) else None
    case MarkSuspect => if from.Submitted? then Some(Suspect) else None
    case Accept => if from.Submitted? then Some(WithdrawState.Accepted) else None
    case Reject => if from.Submitted? || from.Accepted? || from.Processing? then Some(WithdrawState.Rejected) else None
    case Process => if from.Accepted? then Some(Processing) else None
    case CallRpc => if from.Processing? then Some(AlmostDone) else None
    case Succeed => if from.Processing? || from.AlmostDone? then Some(Finished) else None
    case Fail => if from.Processing? then Some(Failed) else None
  }

  // The fund operation of the event's callback. The account is locked and reloaded
  // first, so the copy is current.
  function WithdrawOps(w: Withdraw, e: WithdrawEvent): seq<FundOp> {
    match e
    case Submit => [LockFunds(w.sum)]
    case Cancel => if w.state.Submitting? then [] else [UnlockFunds(w.sum)]
    case Reject => [UnlockFunds(w.sum)]
    case Succeed => [UnlockAndSubFunds(w.sum, w.sum)]
    case _ => []
  }

  function WithdrawPostings(s: State, w: Withdraw, e: WithdrawEvent): seq<Posting>
    requires w.account < |s.accounts|
  {
    var ops := WithdrawOps(w, e);
    if ops == [] then [] else [Posting(w.account, ops[0], BalancesOf(s.accounts[w.account].row))]
  }

  function WithdrawFired(s: State, id: nat, e: WithdrawEvent): Option<State> {
    if id >= |s.withdraws| || s.withdraws[id].account >= |s.accounts| then None
    else
      var w := s.withdraws[id];
      match WithdrawNext(w.state, e)
      case None => None
      case Some(next) =>
        match PostAll(s.accounts, WithdrawPostings(s, w, e))
        case None => None
        case Some(accounts) => Some(s.(withdraws := s.withdraws[id := w.(state := next)], accounts := accounts))
  }

  // Events are not whiny: one that cannot fire does nothing.
  function WithdrawFires(s: State, id: nat, e: WithdrawEvent): State {
    if WithdrawFired(s, id, e).Some? then WithdrawFired(s, id, e).value else s
  }

  // `audit!`.
  function Audited(s: State, id: nat, quick: bool): State {
    if id >= |s.withdraws| || s.withdraws[id].account >= |s.accounts| then s
    else
      var row := s.accounts[s.withdraws[id].account].row;
      if Examines(row.versions, 0.0, row.balance + row.locked) then
        var accepted := WithdrawFires(s, id, WithdrawEvent.Accept);
        if quick then WithdrawFires(accepted, id, Process) else accepted
      else
        WithdrawFires(s, id, MarkSuspect)
  }

  function DepositNext(from: DepositState, e: DepositEvent): Option<DepositState> {
    match e
    case Submit => if from.Submitting? then Some(DepositState.Submitted) else None
    case Cancel => if from.Submitting? then Some(DepositState.Cancelled) else None
    case Reject => if from.Submitted? then Some(DepositState.Rejected) else None
    case Accept => if from.Submitted? then Some(DepositState.Accepted) else None
    case Check => if from.Accepted? then Some(Checked) else None
    case Warn => if from.Accepted? then Some(Warning) else None
  }

  predicate WasAccepted(d: Deposit) { d.state.Accepted? || d.state.Checked? || d.state.Warning? }

  // The after-commit hook `do` of the accepted state: in a transaction of its own, on
  // a locked account.
  function Credited(s: State, id: nat): Option<State> {
    if id >= |s.deposits| || s.deposits[id].due == 0 || s.deposits[id].account >= |s.accounts| then None
    else
      var d := s.deposits[id];
      match Post(s.accounts, Posting(d.account, PlusFunds(d.amount, 0.0), BalancesOf(s.accounts[d.account].row)))
      case None => None
      case Some(accounts) =>
        Some(s.(deposits := s.deposits[id := d.(due := d.due - 1, credits := d.credits + 1)], accounts := accounts))
  }

  // A withdraw is created against the balance its creator saw; nothing is locked yet.
  function WithdrawAsked(s: State, account: nat, sum: real, seen: real): State {
    if account < |s.accounts| && 0.0 < sum <= seen then
      s.(withdraws := s.withdraws + [Withdraw(account, sum, WithdrawState.Submitting)])
    else s
  }

  function DepositAsked(s: State, account: nat, amount: real): State {
    if account < |s.accounts| && amount > 0.0 then
      s.(deposits := s.deposits + [Deposit(account, amount, DepositState.Submitting, 0, 0)])
    else s
  }

  function DepositFires(s: State, id: nat, e: DepositEvent): State {
    if id < |s.deposits| && DepositNext(s.deposits[id].state, e).Some? then
      var d, next := s.deposits[id], DepositNext(s.deposits[id].state, e).value;
      s.(deposits := s.deposits[id := d.(state := next, due := d.due + if next.Accepted? then 1 else 0)])
    else s
  }

  // The first transition of `check` whose guard holds.
  function PaymentNext(p: Payment, confirmations: int): Option<PaymentState> {
    if !p.state.Confirmed? && p.minConfirm <= confirmations < p.maxConfirm then Some(Confirming)
    else if confirmations >= p.maxConfirm then Some(Confirmed)
    else None
  }

  // `check` with its after-commit hook, which accepts the deposit if it still may.
  function PaymentChecked(s: State, id: nat, confirmations: int): State {
    if id >= |s.payments| then s
    else
      var p := s.payments[id];
      match PaymentNext(p, confirmations)
      case None => s
      case Some(next) =>
        DepositFires(s.(payments := s.payments[id := p.(state := next)]), p.deposit, DepositEvent.Accept)
  }

  function PaymentSeen(s: State, deposit: nat, minConfirm: int, maxConfirm: int): State {
    s.(payments := s.payments + [Payment(deposit, Unconfirm, minConfirm, maxConfirm)])
  }

  // --- The transition system --------------------------------------------------

  datatype Event =
    | OpenAccount(currency: nat)
    | SubmitOrders(batch: seq<NewOrder>)
    | ExecuteTrade(trade: Trade, bidCopies: Copies, askCopies: Copies)
    | CancelOrders(cancels: seq<CancelRequest>)
    | NewWithdraw(withdrawFrom: nat, sum: real, balanceSeen: real)
    | FireWithdraw(withdraw: nat, withdrawEvent: WithdrawEvent)
    | Audit(audited: nat, quick: bool)
    | NewDeposit(depositTo: nat, amount: real)
    | FireDeposit(deposit: nat, depositEvent: DepositEvent)
    | Credit(credited: nat)
    | NewPayment(paymentFor: nat, minConfirm: int, maxConfirm: int)
    | CheckPayment(payment: nat, confirmations: int)

  function OrElse(r: Option<State>, s: State): State { if r.Some? then r.value else s }

  function Exec(s: State, e: Event): State {
    match e
    case OpenAccount(currency) => s.(accounts := s.accounts + [Acct(currency, Row(0.0, 0.0, []))])
    case SubmitOrders(batch) => OrElse(SubmittedAll(s, batch), s)
    case ExecuteTrade(t, bidCopies, askCopies) => OrElse(Traded(s, t, bidCopies, askCopies), s)
    case CancelOrders(batch) => OrElse(CancelledAll(s, batch), s)
    case NewWithdraw(account, sum, seen) => WithdrawAsked(s, account, sum, seen)
    case FireWithdraw(id, we) => WithdrawFires(s, id, we)
    case Audit(id, quick) => Audited(s, id, quick)
    case NewDeposit(account, amount) => DepositAsked(s, account, amount)
    case FireDeposit(id, de) => DepositFires(s, id, de)
    case Credit(id) => OrElse(Credited(s, id), s)
    case NewPayment(deposit, min, max) => PaymentSeen(s, deposit, min, max)
    case CheckPayment(id, confirmations) => PaymentChecked(s, id, confirmations)
  }

  // --- What the surroundings guarantee ------------------------------------------

  // The accounts a new order names are its member's accounts in the two currencies,
  // and the book it is estimated on holds positive prices and sizes.
  predicate Addressed(s: State, o: Order) {
    && o.market < |s.markets| && o.hold < |s.accounts| && o.gain < |s.accounts|
    && var m := s.markets[o.market];
       && s.accounts[o.hold].currency == (if o.side.Bid? then m.quote else m.base)
       && s.accounts[o.gain].currency == (if o.side.Bid? then m.base else m.quote)
  }

  // What the matching engine guarantees of the trades it publishes, beyond what the
  // executor checks.
  predicate EngineMade(s: State, t: Trade) {
    && t.bid < |s.orders| && t.ask < |s.orders|
    && var bid, ask := s.orders[t.bid], s.orders[t.ask];
       && bid.market == ask.market == t.market
       && t.price > 0.0 && t.funds >= t.price * t.volume && t.funds <= bid.locked
  }

  ghost predicate Legal(s: State, e: Event) {
    match e
    case SubmitOrders(batch) => forall n | n in batch :: Addressed(s, n.order) && PositiveBook(n.levels)
    case ExecuteTrade(t, _, _) => EngineMade(s, t)
    case _ => true
  }

  // --- The invariant ------------------------------------------------------------

  function OrderHold(a: nat): Order -> real {
    (o: Order) => if o.state.Wait? && o.hold == a then o.locked else 0.0
  }

  predicate HoldsFunds(w: WithdrawState) {
    w.Submitted? || w.Accepted? || w.Suspect? || w.Processing? || w.AlmostDone? || w.Failed?
  }

  function WithdrawHold(a: nat): Withdraw -> real {
    (w: Withdraw) => if HoldsFunds(w.state) && w.account == a then w.sum else 0.0
  }

  // What is on hold for account a: its open orders and its withdraws under way.
  function OnHold(s: State, a: nat): real { Sum(s.orders, OrderHold(a)) + Sum(s.withdraws, WithdrawHold(a)) }

  function Currencies(accounts: seq<Acct>): seq<nat> {
    seq(|accounts|, a requires 0 <= a < |accounts| => accounts[a].currency)
  }

  predicate AccountIn(currencies: seq<nat>, a: nat, c: nat) { a < |currencies| && currencies[a] == c }

  function DepositIn(currencies: seq<nat>, c: nat): Deposit -> real {
    (d: Deposit) => if WasAccepted(d) && AccountIn(currencies, d.account, c) then d.amount else 0.0
  }

  function UncreditedIn(currencies: seq<nat>, c: nat): Deposit -> real {
    (d: Deposit) => if d.due > 0 && AccountIn(currencies, d.account, c) then d.amount else 0.0
  }

  function WithdrawnIn(currencies: seq<nat>, c: nat): Withdraw -> real {
    (w: Withdraw) => if w.state.Finished? && AccountIn(currencies, w.account, c) then w.sum else 0.0
  }

  // The fees a trade takes: from the buyer in the base, from the seller in the quote
  // currency.
  function FeeIn(markets: seq<Market>, c: nat): Trade -> real {
    (t: Trade) =>
      if t.market < |markets| then
        var m := markets[t.market];
        (if m.base == c then Times(t.volume, m.bidFee) else 0.0)
        + (if m.quote == c then Times(t.funds, m.askFee) else 0.0)
      else 0.0
  }

  ghost predicate Placed(s: State) {
    OrdersPlaced(s) && WithdrawsPlaced(s) && DepositsPlaced(s) && TradesPlaced(s)
  }

  ghost predicate OrdersPlaced(s: State) {
    forall i | 0 <= i < |s.orders| :: Addressed(s, s.orders[i]) && OrderOk(s.orders[i], s.markets[s.orders[i].market])
  }

  ghost predicate WithdrawsPlaced(s: State) {
    forall i | 0 <= i < |s.withdraws| :: s.withdraws[i].account < |s.accounts| && s.withdraws[i].sum > 0.0
  }

  // One hook per accepted deposit, due or run, and none for the others.
  predicate HookedOnce(d: Deposit) { d.due + d.credits == if WasAccepted(d) then 1 else 0 }

  ghost predicate DepositsPlaced(s: State) {
    forall i | 0 <= i < |s.deposits| ::
      s.deposits[i].account < |s.accounts| && s.deposits[i].amount > 0.0 && HookedOnce(s.deposits[i])
  }

  ghost predicate TradesPlaced(s: State) {
    forall i | 0 <= i < |s.trades| ::
      && s.trades[i].bid < |s.orders| && s.orders[s.trades[i].bid].side.Bid?
      && s.trades[i].ask < |s.orders| && s.orders[s.trades[i].ask].side.Ask?
  }

  ghost predicate LockedMeansOnHold(s: State) {
    forall a: nat | a < |s.accounts| :: s.accounts[a].row.locked == OnHold(s, a)
  }

  function Holdings(s: State, c: nat): real { Sum(s.accounts, InCurrency(c)) }

  // Everything held in a currency, plus what is still to be credited, is what was
  // deposited less what was withdrawn and less the fees.
  ghost predicate Solvent(s: State, c: nat) {
    Holdings(s, c) + Sum(s.deposits, UncreditedIn(Currencies(s.accounts), c)) ==
      Sum(s.deposits, DepositIn(Currencies(s.accounts), c))
      - Sum(s.withdraws, WithdrawnIn(Currencies(s.accounts), c))
      - Sum(s.trades, FeeIn(s.markets, c))
  }

  // What the trades of order i took and brought.
  function TookFrom(i: nat): Trade -> real {
    (t: Trade) => (if t.bid == i then t.funds else 0.0) + (if t.ask == i then t.volume else 0.0)
  }

  function BroughtTo(i: nat): Trade -> real {
    (t: Trade) => (if t.bid == i then t.volume else 0.0) + (if t.ask == i then t.funds else 0.0)
  }

  function TradeOf(i: nat): Trade -> real { (t: Trade) => if t.bid == i || t.ask == i then 1.0 else 0.0 }

  // An order's fields are the exact sums over its trades.
  ghost predicate Booked(s: State, i: nat)
    requires i < |s.orders|
  {
    && FundsUsed(s.orders[i]) == Sum(s.trades, TookFrom(i))
    && s.orders[i].fundsReceived == Sum(s.trades, BroughtTo(i))
    && s.orders[i].tradesCount as real == Sum(s.trades, TradeOf(i))
  }

  ghost predicate Inv(s: State) {
    && AllSound(s.accounts)
    && Placed(s)
    && LockedMeansOnHold(s)
    && (forall c :: Solvent(s, c))
    && (forall i: nat | i < |s.orders| :: Booked(s, i))
  }

  // --- Lists of postings --------------------------------------------------------

  lemma {:induction false} PostAllSplits(accounts: seq<Acct>, ps: seq<Posting>, qs: seq<Posting>)
    ensures PostAll(accounts, ps + qs) ==
              if PostAll(accounts, ps).None? then None else PostAll(PostAll(accounts, ps).value, qs)
    decreases |ps|
  {
    if ps == [] {
      assert ps + qs == qs;
    } else {
      assert (ps + qs)[1..] == ps[1..] + qs;
      if Post(accounts, ps[0]).Some? {
        PostAllSplits(Post(accounts, ps[0]).value, ps[1..], qs);
      }
    }
  }

  lemma {:induction false} NetsSplit(accounts: seq<Acct>, ps: seq<Posting>, qs: seq<Posting>, a: nat, c: nat)
    ensures NetLocked(ps + qs, a) == NetLocked(ps, a) + NetLocked(qs, a)
    ensures NetCurrency(accounts, ps + qs, c) == NetCurrency(accounts, ps, c) + NetCurrency(accounts, qs, c)
    decreases |ps|
  {
    if ps == [] {
      assert ps + qs == qs;
    } else {
      assert (ps + qs)[1..] == ps[1..] + qs;
      NetsSplit(accounts, ps[1..], qs, a, c);
    }
  }

  lemma {:induction false} GuardsPassed(accounts: seq<Acct>, ps: seq<Posting>)
    requires PostAll(accounts, ps).Some?
    ensures forall i | 0 <= i < |ps| :: Guard(ps[i].copy, ps[i].op).None?
    decreases |ps|
  {
    if ps == [] {
    } else {
      GuardsPassed(Post(accounts, ps[0]).value, ps[1..]);
    }
  }

  lemma {:induction false} NetOfOne(accounts: seq<Acct>, p: Posting, a: nat, c: nat)
    requires p.account < |accounts|
    ensures NetLocked([p], a) == if p.account == a then Change(p.op).locked else 0.0
    ensures NetCurrency(accounts, [p], c) == if accounts[p.account].currency == c then Total(Change(p.op)) else 0.0
  {
    assert [p][1..] == [];
  }

  lemma {:induction false} StrikePostingsNet(
      accounts: seq<Acct>, o: Order, m: Market, t: Trade, copies: Copies, a: nat, c: nat)
    requires o.hold < |accounts| && o.gain < |accounts|
    ensures var ps, left := StrikePostings(o, m, t, copies), Leftover(Struck(o, t));
            && NetLocked(ps, a) == (if o.hold == a then -Sub(o, t) - left else 0.0)
            && NetCurrency(accounts, ps, c) ==
                 (if accounts[o.hold].currency == c then -Sub(o, t) else 0.0)
                 + (if accounts[o.gain].currency == c then Add(o, t) - Fee(o, m, t) else 0.0)
  {
    var ps := StrikePostings(o, m, t, copies);
    var p, q, rest := ps[0], ps[1], ps[2..];
    assert ps == ([p] + [q]) + rest;
    NetsSplit(accounts, [p] + [q], rest, a, c);
    NetsSplit(accounts, [p], [q], a, c);
    NetOfOne(accounts, p, a, c);
    NetOfOne(accounts, q, a, c);
    if rest != [] {
      NetOfOne(accounts, rest[0], a, c);
      assert rest == [rest[0]];
    }
  }

  // A strike takes off the held account's lock exactly what the order stops holding.
  lemma {:induction false} StrikeReleases(o: Order, t: Trade, a: nat)
    requires o.state.Wait?
    ensures OrderHold(a)(Struck(o, t)) - OrderHold(a)(o) ==
            if o.hold == a then -Sub(o, t) - Leftover(Struck(o, t)) else 0.0
  {
  }

  // --- Each event keeps the invariant ---------------------------------------------

  lemma {:induction false} CurrenciesKept(before: seq<Acct>, after: seq<Acct>)
    requires SameAccounts(before, after)
    ensures Currencies(before) == Currencies(after)
  {
  }

  lemma {:induction false} TradeMatches(s: State, t: Trade, bidCopies: Copies, askCopies: Copies)
    requires Inv(s) && EngineMade(s, t) && Traded(s, t, bidCopies, askCopies).Some?
    ensures Matches(s.orders[t.bid], t) && Matches(s.orders[t.ask], t)
  {
    var bid, ask := s.orders[t.bid], s.orders[t.ask];
    var qs := StrikePostings(ask, s.markets[ask.market], t, askCopies);
    var ps := StrikePostings(bid, s.markets[bid.market], t, bidCopies);
    GuardsPassed(s.accounts, ps + qs);
    assert (ps + qs)[|ps|] == qs[0];
  }

  // The two strikes take from the accounts' locks what they take from the orders'.
  lemma {:induction false} TradeReleases(s: State, t: Trade, a: nat)
    requires t.bid < |s.orders| && t.ask < |s.orders| && s.orders[t.bid].side.Bid? && s.orders[t.ask].side.Ask?
    requires s.orders[t.bid].state.Wait? && s.orders[t.ask].state.Wait?
    ensures var bid, ask := s.orders[t.bid], s.orders[t.ask];
            Sum(s.orders[t.bid := Struck(bid, t)][t.ask := Struck(ask, t)], OrderHold(a)) ==
              Sum(s.orders, OrderHold(a))
              - (if bid.hold == a then Sub(bid, t) + Leftover(Struck(bid, t)) else 0.0)
              - (if ask.hold == a then Sub(ask, t) + Leftover(Struck(ask, t)) else 0.0)
  {
    var bid, ask := s.orders[t.bid], s.orders[t.ask];
    StrikeReleases(bid, t, a);
    StrikeReleases(ask, t, a);
    SumUpdate(s.orders, t.bid, Struck(bid, t), OrderHold(a));
    SumUpdate(s.orders[t.bid := Struck(bid, t)], t.ask, Struck(ask, t), OrderHold(a));
  }

  lemma {:induction false} TradeUnlocks(s: State, t: Trade, bidCopies: Copies, askCopies: Copies, a: nat)
    requires AllSound(s.accounts) && Traded(s, t, bidCopies, askCopies).Some? && a < |s.accounts|
    requires Addressed(s, s.orders[t.bid]) && Addressed(s, s.orders[t.ask])
    ensures var n := Traded(s, t, bidCopies, askCopies).value;
            var bid, ask := s.orders[t.bid], s.orders[t.ask];
            a < |n.accounts| && n.accounts[a].row.locked ==
              s.accounts[a].row.locked
              - (if bid.hold == a then Sub(bid, t) + Leftover(Struck(bid, t)) else 0.0)
              - (if ask.hold == a then Sub(ask, t) + Leftover(Struck(ask, t)) else 0.0)
  {
    var bid, ask := s.orders[t.bid], s.orders[t.ask];
    var ps := StrikePostings(bid, s.markets[bid.market], t, bidCopies);
    var qs := StrikePostings(ask, s.markets[ask.market], t, askCopies);
    PostingsAddUp(s.accounts, ps + qs, 0);
    NetsSplit(s.accounts, ps, qs, a, 0);
    StrikePostingsNet(s.accounts, bid, s.markets[bid.market], t, bidCopies, a, 0);
    StrikePostingsNet(s.accounts, ask, s.markets[ask.market], t, askCopies, a, 0);
  }

  lemma {:induction false} TradeKeepsHolds(s: State, t: Trade, bidCopies: Copies, askCopies: Copies, a: nat)
    requires AllSound(s.accounts) && OrdersPlaced(s) && LockedMeansOnHold(s)
    requires EngineMade(s, t) && Traded(s, t, bidCopies, askCopies).Some? && a < |s.accounts|
    ensures var n := Traded(s, t, bidCopies, askCopies).value;
            a < |n.accounts| && n.accounts[a].row.locked == OnHold(n, a)
  {
    assert s.accounts[a].row.locked == OnHold(s, a);
    assert Addressed(s, s.orders[t.bid]) && Addressed(s, s.orders[t.ask]);
    TradeReleases(s, t, a);
    TradeUnlocks(s, t, bidCopies, askCopies, a);
  }

  // The two strikes of a trade leave nothing but the fees.
  lemma {:induction false} TradeNet(s: State, t: Trade, bidCopies: Copies, askCopies: Copies, c: nat)
    requires EngineMade(s, t) && t.market < |s.markets|
    requires Addressed(s, s.orders[t.bid]) && Addressed(s, s.orders[t.ask])
    requires s.orders[t.bid].side.Bid? && s.orders[t.ask].side.Ask?
    ensures NetCurrency(s.accounts, StrikePostings(s.orders[t.bid], s.markets[t.market], t, bidCopies)
                                    + StrikePostings(s.orders[t.ask], s.markets[t.market], t, askCopies), c)
            == -FeeIn(s.markets, c)(t)
  {
    var bid, ask, m := s.orders[t.bid], s.orders[t.ask], s.markets[t.market];
    var ps := StrikePostings(bid, m, t, bidCopies);
    var qs := StrikePostings(ask, m, t, askCopies);
    NetsSplit(s.accounts, ps, qs, 0, c);
    StrikePostingsNet(s.accounts, bid, m, t, bidCopies, 0, c);
    StrikePostingsNet(s.accounts, ask, m, t, askCopies, 0, c);
  }

  lemma {:induction false} TradeKeepsSolvent(s: State, t: Trade, bidCopies: Copies, askCopies: Copies, c: nat)
    requires AllSound(s.accounts) && Placed(s) && Solvent(s, c)
    requires EngineMade(s, t) && Traded(s, t, bidCopies, askCopies).Some?
    ensures Solvent(Traded(s, t, bidCopies, askCopies).value, c)
  {
    var n := Traded(s, t, bidCopies, askCopies).value;
    var bid, ask, m := s.orders[t.bid], s.orders[t.ask], s.markets[t.market];
    PostingsAddUp(s.accounts, StrikePostings(bid, m, t, bidCopies) + StrikePostings(ask, m, t, askCopies), c);
    CurrenciesKept(s.accounts, n.accounts);
    TradeNet(s, t, bidCopies, askCopies, c);
    SumAppend(s.trades, t, FeeIn(s.markets, c));
  }

  lemma {:induction false} TradeKeepsBooks(s: State, t: Trade, bidCopies: Copies, askCopies: Copies, i: nat)
    requires Traded(s, t, bidCopies, askCopies).Some? && i < |s.orders| && Booked(s, i)
    ensures Booked(Traded(s, t, bidCopies, askCopies).value, i)
  {
    SumAppend(s.trades, t, TookFrom(i));
    SumAppend(s.trades, t, BroughtTo(i));
    SumAppend(s.trades, t, TradeOf(i));
  }

  lemma {:induction false} TradeKeepsAccounts(s: State, t: Trade, bidCopies: Copies, askCopies: Copies)
    requires AllSound(s.accounts) && Traded(s, t, bidCopies, askCopies).Some?
    ensures AllSound(Traded(s, t, bidCopies, askCopies).value.accounts)
    ensures SameAccounts(s.accounts, Traded(s, t, bidCopies, askCopies).value.accounts)
  {
    var bid, ask := s.orders[t.bid], s.orders[t.ask];
    PostingsAddUp(s.accounts, StrikePostings(bid, s.markets[bid.market], t, bidCopies)
                              + StrikePostings(ask, s.markets[ask.market], t, askCopies), 0);
  }

  lemma {:induction false} TradeKeepsOrders(s: State, t: Trade, bidCopies: Copies, askCopies: Copies)
    requires Inv(s) && EngineMade(s, t) && Traded(s, t, bidCopies, askCopies).Some?
    ensures OrdersPlaced(Traded(s, t, bidCopies, askCopies).value)
  {
    var n := Traded(s, t, bidCopies, askCopies).value;
    var bid, ask := s.orders[t.bid], s.orders[t.ask];
    TradeMatches(s, t, bidCopies, askCopies);
    TradeKeepsAccounts(s, t, bidCopies, askCopies);
    StrikeKeepsOrder(bid, s.markets[bid.market], t);
    StrikeKeepsOrder(ask, s.markets[ask.market], t);
    forall i | 0 <= i < |n.orders|
      ensures Addressed(n, n.orders[i]) && OrderOk(n.orders[i], n.markets[n.orders[i].market])
    {
      assert Addressed(s, s.orders[i]) && OrderOk(s.orders[i], s.markets[s.orders[i].market]);
      assert n.orders[i] == if i == t.ask then Struck(ask, t) else if i == t.bid then Struck(bid, t) else s.orders[i];
    }
  }

  lemma {:induction false} TradeKeepsTables(s: State, t: Trade, bidCopies: Copies, askCopies: Copies)
    requires WithdrawsPlaced(s) && DepositsPlaced(s) && TradesPlaced(s)
    requires Traded(s, t, bidCopies, askCopies).Some?
    requires SameAccounts(s.accounts, Traded(s, t, bidCopies, askCopies).value.accounts)
    ensures var n := Traded(s, t, bidCopies, askCopies).value;
            WithdrawsPlaced(n) && DepositsPlaced(n) && TradesPlaced(n)
  {
  }

  lemma {:induction false} TradeKeepsLocks(s: State, t: Trade, bidCopies: Copies, askCopies: Copies)
    requires Inv(s) && EngineMade(s, t) && Traded(s, t, bidCopies, askCopies).Some?
    ensures LockedMeansOnHold(Traded(s, t, bidCopies, askCopies).value)
  {
    var n := Traded(s, t, bidCopies, askCopies).value;
    TradeKeepsAccounts(s, t, bidCopies, askCopies);
    forall a: nat | a < |n.accounts| ensures n.accounts[a].row.locked == OnHold(n, a) {
      TradeKeepsHolds(s, t, bidCopies, askCopies, a);
    }
  }

  lemma {:induction false} TradeKeepsInv(s: State, t: Trade, bidCopies: Copies, askCopies: Copies)
    requires Inv(s) && EngineMade(s, t) && Traded(s, t, bidCopies, askCopies).Some?
    ensures Inv(Traded(s, t, bidCopies, askCopies).value)
  {
    var n := Traded(s, t, bidCopies, askCopies).value;
    TradeKeepsAccounts(s, t, bidCopies, askCopies);
    TradeKeepsOrders(s, t, bidCopies, askCopies);
    TradeKeepsTables(s, t, bidCopies, askCopies);
    TradeKeepsLocks(s, t, bidCopies, askCopies);
    forall c ensures Solvent(n, c) {
      TradeKeepsSolvent(s, t, bidCopies, askCopies, c);
    }
    forall i: nat | i < |n.orders| ensures Booked(n, i) {
      TradeKeepsBooks(s, t, bidCopies, askCopies, i);
    }
  }

  // One posting on its own.
  lemma {:induction false} OnePosting(accounts: seq<Acct>, p: Posting, c: nat)
    requires AllSound(accounts) && Post(accounts, p).Some?
    ensures var after := Post(accounts, p).value;
            && SameAccounts(accounts, after) && Currencies(accounts) == Currencies(after) && AllSound(after)
            && p.account < |accounts| && Guard(p.copy, p.op).None?
            && (forall a | 0 <= a < |accounts| ::
                  after[a].row.locked == accounts[a].row.locked + if a == p.account then Change(p.op).locked else 0.0)
            && Sum(after, InCurrency(c)) ==
                 Sum(accounts, InCurrency(c)) + if accounts[p.account].currency == c then Total(Change(p.op)) else 0.0
  {
    ApplyIsSound(accounts[p.account].row, p.copy, p.op);
    SumUpdate(accounts, p.account, Post(accounts, p).value[p.account], InCurrency(c));
  }

  // Orders keep their place when accounts keep their currencies.
  lemma {:induction false} OrdersStayPlaced(s: State, n: State)
    requires OrdersPlaced(s) && n.markets == s.markets && SameAccounts(s.accounts, n.accounts)
    requires forall i | 0 <= i < |s.orders| :: i < |n.orders| && n.orders[i].(state := s.orders[i].state) == s.orders[i]
               && (n.orders[i].state == s.orders[i].state
                   || (n.orders[i].state.Cancelled? && s.orders[i].state.Wait?))
    requires |n.orders| <= |s.orders|
    ensures OrdersPlaced(n)
  {
    forall i | 0 <= i < |n.orders|
      ensures Addressed(n, n.orders[i]) && OrderOk(n.orders[i], n.markets[n.orders[i].market])
    {
      assert Addressed(s, s.orders[i]) && OrderOk(s.orders[i], s.markets[s.orders[i].market]);
    }
  }

  lemma {:induction false} SubmitKeepsOrders(s: State, order: Order, accounts: seq<Acct>)
    requires OrdersPlaced(s) && SameAccounts(s.accounts, accounts)
    requires Addressed(s, order) && OrderOk(order, s.markets[order.market])
    ensures OrdersPlaced(s.(orders := s.orders + [order], accounts := accounts))
  {
    var n := s.(orders := s.orders + [order], accounts := accounts);
    OrdersStayPlaced(s, n.(orders := s.orders));
    assert Addressed(n, order);
    forall i | 0 <= i < |n.orders|
      ensures Addressed(n, n.orders[i]) && OrderOk(n.orders[i], n.markets[n.orders[i].market])
    {
      assert i < |s.orders| ==> Addressed(n.(orders := s.orders), n.orders[i]);
    }
  }

  lemma {:induction false} SubmitKeepsPlaced(s: State, o: Order, levels: seq<Estimate.Level>, copy: Balances)
    requires Inv(s) && Addressed(s, o) && PositiveBook(levels) && SubmittedOne(s, o, levels, copy).Some?
    ensures var n := SubmittedOne(s, o, levels, copy).value;
            AllSound(n.accounts) && Placed(n) && SameAccounts(s.accounts, n.accounts)
  {
    var n := SubmittedOne(s, o, levels, copy).value;
    var order := Prepared(o, s.markets[o.market], levels).value;
    OnePosting(s.accounts, Posting(order.hold, LockFunds(order.locked), copy), 0);
    PreparedIsOk(o, s.markets[o.market], levels);
    SubmitKeepsOrders(s, order, n.accounts);
    assert WithdrawsPlaced(n) && DepositsPlaced(n) && TradesPlaced(n);
  }

  lemma {:induction false} SubmitKeepsSums(
      s: State, o: Order, levels: seq<Estimate.Level>, copy: Balances, a: nat, c: nat)
    requires AllSound(s.accounts) && LockedMeansOnHold(s) && Solvent(s, c)
    requires SubmittedOne(s, o, levels, copy).Some?
    ensures var n := SubmittedOne(s, o, levels, copy).value;
            Solvent(n, c) && (a < |n.accounts| ==> n.accounts[a].row.locked == OnHold(n, a))
  {
    var order := Prepared(o, s.markets[o.market], levels).value;
    OnePosting(s.accounts, Posting(order.hold, LockFunds(order.locked), copy), c);
    SumAppend(s.orders, order, OrderHold(a));
  }

  lemma {:induction false} SubmitKeepsBooks(s: State, order: Order, i: nat)
    requires OrdersPlaced(s) && TradesPlaced(s) && order.locked == order.originLocked
    requires order.fundsReceived == 0.0 && order.tradesCount == 0
    requires i <= |s.orders| && (i < |s.orders| ==> Booked(s, i))
    ensures Booked(s.(orders := s.orders + [order]), i)
  {
    if i == |s.orders| {
      SumZero(s.trades, TookFrom(i));
      SumZero(s.trades, BroughtTo(i));
      SumZero(s.trades, TradeOf(i));
    }
  }

  lemma {:induction false} SubmitKeepsInv(s: State, o: Order, levels: seq<Estimate.Level>, copy: Balances)
    requires Inv(s) && Addressed(s, o) && PositiveBook(levels) && SubmittedOne(s, o, levels, copy).Some?
    ensures Inv(SubmittedOne(s, o, levels, copy).value)
    ensures SameAccounts(s.accounts, SubmittedOne(s, o, levels, copy).value.accounts)
  {
    var n := SubmittedOne(s, o, levels, copy).value;
    SubmitKeepsPlaced(s, o, levels, copy);
    forall a: nat | a < |n.accounts| ensures n.accounts[a].row.locked == OnHold(n, a) {
      SubmitKeepsSums(s, o, levels, copy, a, 0);
    }
    forall c ensures Solvent(n, c) {
      SubmitKeepsSums(s, o, levels, copy, 0, c);
    }
    forall i: nat | i < |n.orders| ensures Booked(n, i) {
      SubmitKeepsBooks(s, n.orders[|s.orders|], i);
    }
  }

  lemma {:induction false} SubmitAllKeepsInv(s: State, batch: seq<NewOrder>)
    requires Inv(s) && Legal(s, SubmitOrders(batch)) && SubmittedAll(s, batch).Some?
    ensures Inv(SubmittedAll(s, batch).value)
    decreases |batch|
  {
    if batch == [] {
    } else {
      var n := batch[0];
      assert n in batch;
      var next := SubmittedOne(s, n.order, n.levels, n.copy).value;
      SubmitKeepsInv(s, n.order, n.levels, n.copy);
      forall m | m in batch[1..] ensures Addressed(next, m.order) && PositiveBook(m.levels) {
        assert m in batch;
      }
      SubmitAllKeepsInv(next, batch[1..]);
    }
  }

  lemma {:induction false} CancelKeepsLock(s: State, id: nat, copy: Balances, a: nat)
    requires AllSound(s.accounts) && LockedMeansOnHold(s) && CancelledOne(s, id, copy).Some? && a < |s.accounts|
    ensures var n := CancelledOne(s, id, copy).value;
            a < |n.accounts| && n.accounts[a].row.locked == OnHold(n, a)
  {
    var o := s.orders[id];
    OnePosting(s.accounts, Posting(o.hold, UnlockFunds(o.locked), copy), 0);
    SumUpdate(s.orders, id, o.(state := OrderState.Cancelled), OrderHold(a));
    assert s.accounts[a].row.locked == OnHold(s, a);
  }

  lemma {:induction false} CancelKeepsSolvent(s: State, id: nat, copy: Balances, c: nat)
    requires AllSound(s.accounts) && Solvent(s, c) && CancelledOne(s, id, copy).Some?
    ensures Solvent(CancelledOne(s, id, copy).value, c)
  {
    OnePosting(s.accounts, Posting(s.orders[id].hold, UnlockFunds(s.orders[id].locked), copy), c);
  }

  lemma {:induction false} CancelKeepsPlaced(s: State, id: nat, copy: Balances)
    requires Placed(s) && AllSound(s.accounts) && CancelledOne(s, id, copy).Some?
    ensures var n := CancelledOne(s, id, copy).value;
            Placed(n) && AllSound(n.accounts) && SameAccounts(s.accounts, n.accounts)
  {
    OnePosting(s.accounts, Posting(s.orders[id].hold, UnlockFunds(s.orders[id].locked), copy), 0);
    OrdersStayPlaced(s, CancelledOne(s, id, copy).value);
  }

  lemma {:induction false} CancelKeepsInv(s: State, id: nat, copy: Balances)
    requires Inv(s) && CancelledOne(s, id, copy).Some?
    ensures Inv(CancelledOne(s, id, copy).value)
  {
    var n := CancelledOne(s, id, copy).value;
    CancelKeepsPlaced(s, id, copy);
    forall a: nat | a < |n.accounts| ensures n.accounts[a].row.locked == OnHold(n, a) {
      CancelKeepsLock(s, id, copy, a);
    }
    forall c ensures Solvent(n, c) {
      CancelKeepsSolvent(s, id, copy, c);
    }
    BooksKept(s, n);
  }

  lemma {:induction false} CancelAllKeepsInv(s: State, batch: seq<CancelRequest>)
    requires Inv(s) && CancelledAll(s, batch).Some?
    ensures Inv(CancelledAll(s, batch).value)
    decreases |batch|
  {
    if batch == [] {
    } else {
      CancelKeepsInv(s, batch[0].id, batch[0].copy);
      CancelAllKeepsInv(CancelledOne(s, batch[0].id, batch[0].copy).value, batch[1..]);
    }
  }

  // A withdraw's event moves on the account exactly what the withdraw holds and pays.
  lemma {:induction false} WithdrawNets(s: State, w: Withdraw, e: WithdrawEvent, a: nat, c: nat)
    requires w.account < |s.accounts| && WithdrawNext(w.state, e).Some?
    ensures var ps, next := WithdrawPostings(s, w, e), w.(state := WithdrawNext(w.state, e).value);
            && NetLocked(ps, a) == WithdrawHold(a)(next) - WithdrawHold(a)(w)
            && NetCurrency(s.accounts, ps, c) ==
                 WithdrawnIn(Currencies(s.accounts), c)(w) - WithdrawnIn(Currencies(s.accounts), c)(next)
  {
    var ps := WithdrawPostings(s, w, e);
    if ps != [] {
      NetOfOne(s.accounts, ps[0], a, c);
    }
  }

  lemma {:induction false} WithdrawKeepsSums(s: State, id: nat, e: WithdrawEvent, a: nat, c: nat)
    requires AllSound(s.accounts) && LockedMeansOnHold(s) && Solvent(s, c)
    requires WithdrawFired(s, id, e).Some?
    ensures var n := WithdrawFired(s, id, e).value;
            Solvent(n, c) && (a < |n.accounts| ==> n.accounts[a].row.locked == OnHold(n, a))
  {
    var n, w := WithdrawFired(s, id, e).value, s.withdraws[id];
    PostingsAddUp(s.accounts, WithdrawPostings(s, w, e), c);
    CurrenciesKept(s.accounts, n.accounts);
    WithdrawNets(s, w, e, a, c);
    SumUpdate(s.withdraws, id, n.withdraws[id], WithdrawHold(a));
    SumUpdate(s.withdraws, id, n.withdraws[id], WithdrawnIn(Currencies(s.accounts), c));
  }

  lemma {:induction false} WithdrawKeepsInv(s: State, id: nat, e: WithdrawEvent)
    requires Inv(s) && WithdrawFired(s, id, e).Some?
    ensures Inv(WithdrawFired(s, id, e).value)
  {
    var n := WithdrawFired(s, id, e).value;
    PostingsAddUp(s.accounts, WithdrawPostings(s, s.withdraws[id], e), 0);
    OrdersStayPlaced(s, n);
    forall a: nat | a < |n.accounts| ensures n.accounts[a].row.locked == OnHold(n, a) {
      WithdrawKeepsSums(s, id, e, a, 0);
    }
    forall c ensures Solvent(n, c) {
      WithdrawKeepsSums(s, id, e, 0, c);
    }
    forall i: nat | i < |n.orders| ensures Booked(n, i) {
      assert Booked(s, i);
    }
  }

  lemma {:induction false} CreditKeepsSolvent(s: State, id: nat, c: nat)
    requires AllSound(s.accounts) && DepositsPlaced(s) && Solvent(s, c) && Credited(s, id).Some?
    ensures Solvent(Credited(s, id).value, c)
  {
    var n, d := Credited(s, id).value, s.deposits[id];
    assert HookedOnce(d);
    OnePosting(s.accounts, Posting(d.account, PlusFunds(d.amount, 0.0), BalancesOf(s.accounts[d.account].row)), c);
    SumUpdate(s.deposits, id, n.deposits[id], UncreditedIn(Currencies(s.accounts), c));
    SumUpdate(s.deposits, id, n.deposits[id], DepositIn(Currencies(s.accounts), c));
  }

  lemma {:induction false} CreditKeepsPlaced(s: State, id: nat)
    requires AllSound(s.accounts) && Placed(s) && LockedMeansOnHold(s) && Credited(s, id).Some?
    ensures var n := Credited(s, id).value; AllSound(n.accounts) && Placed(n) && LockedMeansOnHold(n)
  {
    var n, d := Credited(s, id).value, s.deposits[id];
    OnePosting(s.accounts, Posting(d.account, PlusFunds(d.amount, 0.0), BalancesOf(s.accounts[d.account].row)), 0);
    OrdersStayPlaced(s, n);
    assert WithdrawsPlaced(n) && DepositsPlaced(n) && TradesPlaced(n);
    forall a: nat | a < |n.accounts| ensures n.accounts[a].row.locked == OnHold(n, a) {
      assert OnHold(n, a) == OnHold(s, a);
    }
  }

  lemma {:induction false} CreditKeepsInv(s: State, id: nat)
    requires Inv(s) && Credited(s, id).Some?
    ensures Inv(Credited(s, id).value)
  {
    var n := Credited(s, id).value;
    CreditKeepsPlaced(s, id);
    forall c ensures Solvent(n, c) {
      CreditKeepsSolvent(s, id, c);
    }
    forall i: nat | i < |n.orders| ensures Booked(n, i) {
      assert Booked(s, i);
    }
  }

  lemma {:induction false} OpenKeepsHolds(s: State, a: nat)
    requires OrdersPlaced(s) && WithdrawsPlaced(s) && a >= |s.accounts|
    ensures OnHold(s, a) == 0.0
  {
    forall i | 0 <= i < |s.orders| ensures OrderHold(a)(s.orders[i]) == 0.0 {
      assert Addressed(s, s.orders[i]);
    }
    SumZero(s.orders, OrderHold(a));
    SumZero(s.withdraws, WithdrawHold(a));
  }

  lemma {:induction false} OpenKeepsSolvent(s: State, currency: nat, c: nat)
    requires WithdrawsPlaced(s) && DepositsPlaced(s) && Solvent(s, c)
    ensures Solvent(Exec(s, OpenAccount(currency)), c)
  {
    var acct := Acct(currency, Row(0.0, 0.0, []));
    var before, after := Currencies(s.accounts), Currencies(s.accounts + [acct]);
    assert after == before + [currency];
    SumAppend(s.accounts, acct, InCurrency(c));
    SumSame(s.deposits, s.deposits, UncreditedIn(before, c), UncreditedIn(after, c));
    SumSame(s.deposits, s.deposits, DepositIn(before, c), DepositIn(after, c));
    SumSame(s.withdraws, s.withdraws, WithdrawnIn(before, c), WithdrawnIn(after, c));
  }

  lemma {:induction false} OpenKeepsOrders(s: State, currency: nat)
    requires OrdersPlaced(s)
    ensures OrdersPlaced(Exec(s, OpenAccount(currency)))
  {
  }

  // A new account has nothing on hold, and nothing changes for the others.
  lemma {:induction false} OpenKeepsLocks(s: State, currency: nat)
    requires OrdersPlaced(s) && WithdrawsPlaced(s) && LockedMeansOnHold(s)
    ensures LockedMeansOnHold(Exec(s, OpenAccount(currency)))
  {
    var n := Exec(s, OpenAccount(currency));
    OpenKeepsHolds(s, |s.accounts|);
    forall a: nat | a < |n.accounts| ensures n.accounts[a].row.locked == OnHold(n, a) {
      assert OnHold(n, a) == OnHold(s, a);
    }
  }

  lemma {:induction false} OpenKeepsSound(accounts: seq<Acct>, acct: Acct)
    requires AllSound(accounts) && Sound(acct.row)
    ensures AllSound(accounts + [acct])
  {
  }

  lemma {:induction false} OpenKeepsTables(s: State, currency: nat)
    requires WithdrawsPlaced(s) && DepositsPlaced(s) && TradesPlaced(s)
    ensures var n := Exec(s, OpenAccount(currency)); WithdrawsPlaced(n) && DepositsPlaced(n) && TradesPlaced(n)
  {
  }

  lemma {:induction false} OpenKeepsPlaced(s: State, currency: nat)
    requires AllSound(s.accounts) && Placed(s)
    ensures var n := Exec(s, OpenAccount(currency)); AllSound(n.accounts) && Placed(n)
  {
    OpenKeepsOrders(s, currency);
    OpenKeepsSound(s.accounts, Acct(currency, Row(0.0, 0.0, [])));
    OpenKeepsTables(s, currency);
  }

  lemma {:induction false} OpenKeepsInv(s: State, currency: nat)
    requires Inv(s)
    ensures Inv(Exec(s, OpenAccount(currency)))
  {
    var n := Exec(s, OpenAccount(currency));
    OpenKeepsPlaced(s, currency);
    OpenKeepsLocks(s, currency);
    forall c ensures Solvent(n, c) {
      OpenKeepsSolvent(s, currency, c);
    }
    BooksKept(s, n);
  }

  lemma {:induction false} BooksKept(s: State, n: State)
    requires n.trades == s.trades && |n.orders| == |s.orders|
    requires forall i | 0 <= i < |s.orders| :: n.orders[i].(state := s.orders[i].state) == s.orders[i]
    requires forall i: nat | i < |s.orders| :: Booked(s, i)
    ensures forall i: nat | i < |n.orders| :: Booked(n, i)
  {
    forall i: nat | i < |n.orders| ensures Booked(n, i) {
      assert Booked(s, i);
    }
  }

  // Where neither orders, accounts nor trades change, the rest of the invariant is
  // about withdraws and deposits.
  lemma {:induction false} TablesKeepInv(s: State, n: State)
    requires Inv(s) && n == s.(withdraws := n.withdraws, deposits := n.deposits, payments := n.payments)
    requires WithdrawsPlaced(n) && DepositsPlaced(n)
    requires forall a: nat :: Sum(n.withdraws, WithdrawHold(a)) == Sum(s.withdraws, WithdrawHold(a))
    requires forall c :: Solvent(s, c) ==> Solvent(n, c)
    ensures Inv(n)
  {
    OrdersStayPlaced(s, n);
    forall a: nat | a < |n.accounts| ensures n.accounts[a].row.locked == OnHold(n, a) {
      assert OnHold(n, a) == OnHold(s, a);
    }
    forall c ensures Solvent(n, c) {
      assert Solvent(s, c);
    }
    forall i: nat | i < |n.orders| ensures Booked(n, i) {
      assert Booked(s, i);
    }
  }

  lemma {:induction false} AskingKeepsInv(s: State, account: nat, sum: real, seen: real)
    requires Inv(s)
    ensures Inv(WithdrawAsked(s, account, sum, seen))
  {
    var n := WithdrawAsked(s, account, sum, seen);
    var w := Withdraw(account, sum, WithdrawState.Submitting);
    forall a: nat ensures Sum(n.withdraws, WithdrawHold(a)) == Sum(s.withdraws, WithdrawHold(a)) {
      SumAppend(s.withdraws, w, WithdrawHold(a));
    }
    forall c ensures Solvent(s, c) ==> Solvent(n, c) {
      SumAppend(s.withdraws, w, WithdrawnIn(Currencies(s.accounts), c));
    }
    TablesKeepInv(s, n);
  }

  lemma {:induction false} DepositingKeepsInv(s: State, account: nat, amount: real)
    requires Inv(s)
    ensures Inv(DepositAsked(s, account, amount))
  {
    var n := DepositAsked(s, account, amount);
    forall c ensures Solvent(s, c) ==> Solvent(n, c) {
      DepositingKeepsSolvent(s, account, amount, c);
    }
    assert DepositsPlaced(n);
    TablesKeepInv(s, n);
  }

  lemma {:induction false} DepositingKeepsSolvent(s: State, account: nat, amount: real, c: nat)
    ensures Solvent(s, c) ==> Solvent(DepositAsked(s, account, amount), c)
  {
  }

  lemma {:induction false} DepositFiringKeepsInv(s: State, id: nat, e: DepositEvent)
    requires Inv(s)
    ensures Inv(DepositFires(s, id, e))
  {
    var n := DepositFires(s, id, e);
    forall c ensures Solvent(s, c) ==> Solvent(n, c) {
      DepositFiringKeepsSolvent(s, id, e, c);
    }
    assert DepositsPlaced(n);
    TablesKeepInv(s, n);
  }

  lemma {:induction false} DepositFiringKeepsSolvent(s: State, id: nat, e: DepositEvent, c: nat)
    requires DepositsPlaced(s)
    ensures Solvent(s, c) ==> Solvent(DepositFires(s, id, e), c)
  {
    var n := DepositFires(s, id, e);
    if id < |s.deposits| {
      SumUpdate(s.deposits, id, n.deposits[id], UncreditedIn(Currencies(s.accounts), c));
      SumUpdate(s.deposits, id, n.deposits[id], DepositIn(Currencies(s.accounts), c));
    }
  }

  lemma {:induction false} CheckingKeepsInv(s: State, id: nat, confirmations: int)
    requires Inv(s)
    ensures Inv(PaymentChecked(s, id, confirmations))
  {
    if id < |s.payments| && PaymentNext(s.payments[id], confirmations).Some? {
      var p := s.payments[id];
      var t := s.(payments := s.payments[id := p.(state := PaymentNext(p, confirmations).value)]);
      TablesKeepInv(s, t);
      DepositFiringKeepsInv(t, p.deposit, DepositEvent.Accept);
    }
  }

  lemma {:induction false} ExecKeepsInv(s: State, e: Event)
    requires Inv(s) && Legal(s, e)
    ensures Inv(Exec(s, e))
  {
    match e
    case OpenAccount(currency) => OpenKeepsInv(s, currency);
    case SubmitOrders(batch) => if SubmittedAll(s, batch).Some? { SubmitAllKeepsInv(s, batch); }
    case ExecuteTrade(t, bc, ac) => if Traded(s, t, bc, ac).Some? { TradeKeepsInv(s, t, bc, ac); }
    case CancelOrders(batch) => if CancelledAll(s, batch).Some? { CancelAllKeepsInv(s, batch); }
    case FireWithdraw(id, we) => FireKeepsInv(s, id, we);
    case Audit(id, quick) =>
      FireKeepsInv(s, id, MarkSuspect);
      FireKeepsInv(s, id, WithdrawEvent.Accept);
      FireKeepsInv(WithdrawFires(s, id, WithdrawEvent.Accept), id, Process);
    case Credit(id) => if Credited(s, id).Some? { CreditKeepsInv(s, id); }
    case NewWithdraw(account, sum, seen) => AskingKeepsInv(s, account, sum, seen);
    case NewDeposit(account, amount) => DepositingKeepsInv(s, account, amount);
    case FireDeposit(id, de) => DepositFiringKeepsInv(s, id, de);
    case NewPayment(_, _, _) => TablesKeepInv(s, Exec(s, e));
    case CheckPayment(id, confirmations) => CheckingKeepsInv(s, id, confirmations);
  }

  lemma {:induction false} FireKeepsInv(s: State, id: nat, e: WithdrawEvent)
    requires Inv(s)
    ensures Inv(WithdrawFires(s, id, e))
  {
    if WithdrawFired(s, id, e).Some? {
      WithdrawKeepsInv(s, id, e);
    }
  }

  // --- Whole runs -----------------------------------------------------------------

  function Init(markets: seq<Market>): State { State(markets, [], [], [], [], [], []) }

  function Run(s: State, events: seq<Event>): State
    decreases |events|
  {
    if events == [] then s else Run(Exec(s, events[0]), events[1..])
  }

  ghost predicate LegalRun(s: State, events: seq<Event>)
    decreases |events|
  {
    events == [] || (Legal(s, events[0]) && LegalRun(Exec(s, events[0]), events[1..]))
  }

  lemma {:induction false} RunKeepsInv(s: State, events: seq<Event>)
    requires Inv(s) && LegalRun(s, events)
    ensures Inv(Run(s, events))
    decreases |events|
  {
    if events == [] {
    } else {
      ExecKeepsInv(s, events[0]);
      RunKeepsInv(Exec(s, events[0]), events[1..]);
    }
  }

  lemma {:induction false} ReachableIsInv(markets: seq<Market>, events: seq<Event>)
    requires LegalRun(Init(markets), events)
    ensures Inv(Run(Init(markets), events))
  {
    assert Inv(Init(markets));
    RunKeepsInv(Init(markets), events);
  }

  // --- What the exchange promises -----------------------------------------------

  // Nothing is created or lost: in every currency the accounts hold the accepted
  // deposits, less the withdraws done, less the fees, and less only those deposits
  // whose crediting hook has not run yet. Once every hook has run the equation is exact.
  lemma {:induction false} FundsAreConserved(markets: seq<Market>, events: seq<Event>, c: nat)
    requires LegalRun(Init(markets), events)
    ensures Solvent(Run(Init(markets), events), c)
    ensures var s := Run(Init(markets), events);
            var cs := Currencies(s.accounts);
            (forall i | 0 <= i < |s.deposits| :: s.deposits[i].due == 0) ==>
              Holdings(s, c) ==
                Sum(s.deposits, DepositIn(cs, c)) - Sum(s.withdraws, WithdrawnIn(cs, c))
                - Sum(s.trades, FeeIn(s.markets, c))
  {
    var s := Run(Init(markets), events);
    ReachableIsInv(markets, events);
    assert Solvent(s, c);
    if forall i | 0 <= i < |s.deposits| :: s.deposits[i].due == 0 {
      SumZero(s.deposits, UncreditedIn(Currencies(s.accounts), c));
    }
  }

  // However often its payment is checked and whoever else fires its events, an accepted
  // deposit is credited once: its hook is still due, and then goes through, or has run.
  lemma {:induction false} DepositsAreCreditedOnce(markets: seq<Market>, events: seq<Event>, id: nat)
    requires LegalRun(Init(markets), events) && id < |Run(Init(markets), events).deposits|
    ensures var s := Run(Init(markets), events);
            var d := s.deposits[id];
            && d.due + d.credits == (if WasAccepted(d) then 1 else 0)
            && (d.due > 0 ==> Exec(s, Credit(id)).deposits[id] == d.(due := 0, credits := 1))
  {
    var s := Run(Init(markets), events);
    ReachableIsInv(markets, events);
    var d := s.deposits[id];
    assert HookedOnce(d);
    CommitsIff(s.accounts[d.account].row, BalancesOf(s.accounts[d.account].row), PlusFunds(d.amount, 0.0));
  }

  // What is locked is what is on hold, nobody is ever overdrawn, and every log adds
  // up.
  lemma {:induction false} LockedIsOnHold(markets: seq<Market>, events: seq<Event>, a: nat)
    requires LegalRun(Init(markets), events) && a < |Run(Init(markets), events).accounts|
    ensures var s := Run(Init(markets), events);
            var row := s.accounts[a].row;
            && row.locked == Sum(s.orders, OrderHold(a)) + Sum(s.withdraws, WithdrawHold(a))
            && row.balance >= 0.0 && row.locked >= 0.0
            && Examines(row.versions, 0.0, row.balance + row.locked)
  {
    ReachableIsInv(markets, events);
  }

  // The audit never suspects anybody: it accepts a submitted withdraw, processes a
  // quick one, and does nothing else.
  lemma {:induction false} AuditNeverSuspects(markets: seq<Market>, events: seq<Event>, id: nat, quick: bool)
    requires LegalRun(Init(markets), events) && id < |Run(Init(markets), events).withdraws|
    ensures var s := Run(Init(markets), events);
            var w := s.withdraws[id];
            var accepted := if w.state.Submitted? then WithdrawState.Accepted else w.state;
            Audited(s, id, quick) == s.(withdraws := s.withdraws[id :=
              w.(state := if quick && accepted.Accepted? then Processing else accepted)])
  {
    var s := Run(Init(markets), events);
    ReachableIsInv(markets, events);
    assert Sound(s.accounts[s.withdraws[id].account].row);
    AuditPasses(s, id, quick);
  }

  lemma {:induction false} AuditPasses(s: State, id: nat, quick: bool)
    requires id < |s.withdraws| && s.withdraws[id].account < |s.accounts|
    requires Sound(s.accounts[s.withdraws[id].account].row)
    ensures var w := s.withdraws[id];
            var accepted := if w.state.Submitted? then WithdrawState.Accepted else w.state;
            Audited(s, id, quick) == s.(withdraws := s.withdraws[id :=
              w.(state := if quick && accepted.Accepted? then Processing else accepted)])
  {
    var w := s.withdraws[id];
    var accepted := if w.state.Submitted? then WithdrawState.Accepted else w.state;
    assert WithdrawFires(s, id, WithdrawEvent.Accept) == s.(withdraws := s.withdraws[id := w.(state := accepted)]);
  }

  // What holds of an order's fields whatever the trades: they are the exact sums of the two
  // sides, it is done exactly when nothing is left to fill, an ask locks what is left, and
  // an ask sells at its limit or better.
  lemma {:induction false} OrdersAreBooked(markets: seq<Market>, events: seq<Event>, i: nat)
    requires LegalRun(Init(markets), events) && i < |Run(Init(markets), events).orders|
    ensures var s := Run(Init(markets), events);
            var o := s.orders[i];
            && o.market < |s.markets| && OrderOk(o, s.markets[o.market])
            && FundsUsed(o) == Sum(s.trades, TookFrom(i)) && o.fundsReceived == Sum(s.trades, BroughtTo(i))
            && o.tradesCount as real == Sum(s.trades, TradeOf(i))
            && (o.state.Done? <==> o.volume == 0.0)
            && (o.ordType.LimitType? && o.side.Ask? && FundsUsed(o) != 0.0 ==>
                  AvgPrice(o, s.markets[o.market]) >= o.price.value)
  {
    var s := Run(Init(markets), events);
    ReachableIsInv(markets, events);
    assert Booked(s, i);
    assert Addressed(s, s.orders[i]) && OrderOk(s.orders[i], s.markets[s.orders[i].market]);
    if s.orders[i].ordType.LimitType? {
      AvgPriceRespectsLimit(s.orders[i], s.markets[s.orders[i].market]);
    }
  }

  // And exactly when a limit bid is well: its lock covers what is left if and only if its
  // trades took no more than its limit for what they brought, and its truncated average
  // price is within the limit if and only if they took less than one unit of the price more.
  lemma {:induction false} LimitBidsAreWellIff(markets: seq<Market>, events: seq<Event>, i: nat)
    requires LegalRun(Init(markets), events) && i < |Run(Init(markets), events).orders|
    requires IsLimitBid(Run(Init(markets), events).orders[i])
    ensures var s := Run(Init(markets), events);
            var o, took, brought := s.orders[i], Sum(s.trades, TookFrom(i)), Sum(s.trades, BroughtTo(i));
            && o.market < |s.markets| && o.price.Some?
            && (Margin(o) >= 0.0 <==> took <= Times(o.price.value, brought))
            && (AvgPrice(o, s.markets[o.market]) <= o.price.value <==>
                brought == 0.0 || took < Times(o.price.value + Unit(s.markets[o.market].bidDigits), brought))
  {
    var s := Run(Init(markets), events);
    OrdersAreBooked(markets, events, i);
    CoveredIffWithinLimit(s.orders[i], s.markets[s.orders[i].market]);
    AvgPriceRespectsLimit(s.orders[i], s.markets[s.orders[i].market]);
  }

  lemma {:induction false} SumWithin(ts: seq<Trade>, f: Trade -> real, g: Trade -> real, k: real)
    requires forall t | t in ts :: f(t) <= Times(k, g(t))
    ensures Sum(ts, f) <= Times(k, Sum(ts, g))
  {
    if ts == [] {
    } else {
      var init, last := ts[..|ts| - 1], ts[|ts| - 1];
      assert forall t | t in init :: t in ts;
      SumWithin(init, f, g, k);
      assert Times(k, Sum(init, g) + g(last)) == Times(k, Sum(init, g)) + Times(k, g(last));
    }
  }

  lemma {:induction false} TradesWithinLimit(s: State, i: nat, limit: real)
    requires TradesPlaced(s) && i < |s.orders| && s.orders[i].side.Bid?
    requires forall t | t in s.trades && t.bid == i :: t.funds <= Times(limit, t.volume)
    ensures Sum(s.trades, TookFrom(i)) <= Times(limit, Sum(s.trades, BroughtTo(i)))
  {
    forall t | t in s.trades ensures TookFrom(i)(t) <= Times(limit, BroughtTo(i)(t)) {
      var k :| 0 <= k < |s.trades| && s.trades[k] == t;
      assert s.orders[s.trades[k].ask].side.Ask?;
      assert Times(limit, 0.0) == 0.0;
    }
    SumWithin(s.trades, TookFrom(i), BroughtTo(i), limit);
  }

  // Enough is that each of its trades took no more than the limit for the published volume:
  // then the lock covers the rest, is positive while the bid is open, and the average price
  // is within the limit.
  lemma {:induction false} LimitBidsAreWell(markets: seq<Market>, events: seq<Event>, i: nat)
    requires LegalRun(Init(markets), events) && i < |Run(Init(markets), events).orders|
    requires IsLimitBid(Run(Init(markets), events).orders[i]) && Run(Init(markets), events).orders[i].price.Some?
    requires var s := Run(Init(markets), events);
             forall t | t in s.trades && t.bid == i :: t.funds <= Times(s.orders[i].price.value, t.volume)
    ensures var s := Run(Init(markets), events);
            var o := s.orders[i];
            && o.market < |s.markets| && Margin(o) >= 0.0
            && AvgPrice(o, s.markets[o.market]) <= o.price.value && (o.state.Wait? ==> o.locked > 0.0)
  {
    var s := Run(Init(markets), events);
    var limit := s.orders[i].price.value;
    OrdersAreBooked(markets, events, i);
    ReachableIsInv(markets, events);
    TradesWithinLimit(s, i, limit);
    CoveredIffWithinLimit(s.orders[i], s.markets[s.orders[i].market]);
    CoveredBidIsSound(s.orders[i], s.markets[s.orders[i].market]);
  }

  // --- Which guards can raise -----------------------------------------------------

  // An account's lock covers each of its open orders.
  lemma {:induction false} LockCovers(s: State, i: nat)
    requires Inv(s) && i < |s.orders| && s.orders[i].state.Wait?
    ensures s.orders[i].hold < |s.accounts| && s.accounts[s.orders[i].hold].row.locked >= s.orders[i].locked
  {
    var a := s.orders[i].hold;
    assert Addressed(s, s.orders[i]);
    forall o | o in s.orders ensures OrderHold(a)(o) >= 0.0 {
      var j :| 0 <= j < |s.orders| && s.orders[j] == o;
      assert OrderOk(s.orders[j], s.markets[s.orders[j].market]);
    }
    SumCovers(s.orders, i, OrderHold(a));
    SumNonNegative(s.withdraws, WithdrawHold(a));
  }

  // An open order was open before the event, held no less, on the same account.
  lemma {:induction false} OrderShrinks(s: State, e: Event, i: nat)
    requires i < |s.orders|
    ensures var n := Exec(s, e);
            && i < |n.orders|
            && (n.orders[i].state.Wait? ==>
                  && s.orders[i].state.Wait?
                  && n.orders[i].hold == s.orders[i].hold && n.orders[i].locked <= s.orders[i].locked)
  {
    match e
    case SubmitOrders(batch) => if SubmittedAll(s, batch).Some? { SubmitAppends(s, batch, i); }
    case CancelOrders(batch) => if CancelledAll(s, batch).Some? { CancelOnlyCloses(s, batch, i); }
    case ExecuteTrade(t, bc, ac) =>
      if Traded(s, t, bc, ac).Some? {
        var bid, ask := s.orders[t.bid], s.orders[t.ask];
        var ps := StrikePostings(bid, s.markets[bid.market], t, bc);
        var qs := StrikePostings(ask, s.markets[ask.market], t, ac);
        GuardsPassed(s.accounts, ps + qs);
        assert (ps + qs)[0] == ps[0] && (ps + qs)[|ps|] == qs[0];
      }
    case _ =>
  }

  lemma {:induction false} SubmitAppends(s: State, batch: seq<NewOrder>, i: nat)
    requires i < |s.orders| && SubmittedAll(s, batch).Some?
    ensures i < |SubmittedAll(s, batch).value.orders| && SubmittedAll(s, batch).value.orders[i] == s.orders[i]
    decreases |batch|
  {
    if batch == [] {
    } else {
      SubmitAppends(SubmittedOne(s, batch[0].order, batch[0].levels, batch[0].copy).value, batch[1..], i);
    }
  }

  lemma {:induction false} CancelOnlyCloses(s: State, batch: seq<CancelRequest>, i: nat)
    requires i < |s.orders| && CancelledAll(s, batch).Some?
    ensures var n := CancelledAll(s, batch).value;
            i < |n.orders| && (n.orders[i].state.Wait? ==> n.orders[i] == s.orders[i])
    decreases |batch|
  {
    if batch == [] {
    } else {
      CancelOnlyCloses(CancelledOne(s, batch[0].id, batch[0].copy).value, batch[1..], i);
    }
  }

  lemma {:induction false} OrderShrinksInRun(s: State, events: seq<Event>, i: nat)
    requires i < |s.orders|
    ensures var n := Run(s, events);
            && i < |n.orders|
            && (n.orders[i].state.Wait? ==>
                  && s.orders[i].state.Wait?
                  && n.orders[i].hold == s.orders[i].hold && n.orders[i].locked <= s.orders[i].locked)
    decreases |events|
  {
    if events == [] {
    } else {
      OrderShrinks(s, events[0], i);
      OrderShrinksInRun(Exec(s, events[0]), events[1..], i);
    }
  }

  // A copy of the held account taken at any moment since the order was submitted
  // still shows enough locked for it, however stale it has become.
  lemma {:induction false} StaleCopyCovers(s: State, events: seq<Event>, i: nat)
    requires Inv(s) && i < |s.orders| && i < |Run(s, events).orders| && Run(s, events).orders[i].state.Wait?
    ensures var now := Run(s, events).orders[i];
            && now.hold < |s.accounts| && now.hold == s.orders[i].hold
            && s.accounts[now.hold].row.locked >= now.locked
  {
    OrderShrinksInRun(s, events, i);
    LockCovers(s, i);
  }

  // With such a copy, cancelling an open order goes through if and only if something is
  // locked for it, which only a limit bid can lack.
  lemma {:induction false} CancelGoesThrough(s: State, id: nat, copy: Balances)
    requires Inv(s) && id < |s.orders| && s.orders[id].state.Wait? && copy.locked >= s.orders[id].locked
    ensures CancelledOne(s, id, copy).Some? <==> s.orders[id].locked > 0.0
    ensures !IsLimitBid(s.orders[id]) ==> s.orders[id].locked > 0.0
  {
    var o := s.orders[id];
    LockCovers(s, id);
    assert Addressed(s, o) && OrderOk(o, s.markets[o.market]);
    CommitsIff(s.accounts[o.hold].row, copy, UnlockFunds(o.locked));
  }

  // A limit bid whose lock has run out before its volume is open for good: nothing can be
  // taken for it any more, and no copy lets it be cancelled.
  lemma {:induction false} DryBidStaysOpen(s: State, events: seq<Event>, i: nat)
    requires Inv(s) && LegalRun(s, events)
    requires i < |s.orders| && IsLimitBid(s.orders[i]) && s.orders[i].state.Wait? && s.orders[i].locked == 0.0
    ensures i < |Run(s, events).orders| && Run(s, events).orders[i] == s.orders[i]
    decreases |events|
  {
    if events == [] {
    } else {
      var n := Exec(s, events[0]);
      DryBidIsLeftAlone(s, events[0], i);
      ExecKeepsInv(s, events[0]);
      DryBidStaysOpen(n, events[1..], i);
    }
  }

  lemma {:induction false} DryBidIsLeftAlone(s: State, e: Event, i: nat)
    requires Inv(s) && Legal(s, e)
    requires i < |s.orders| && IsLimitBid(s.orders[i]) && s.orders[i].state.Wait? && s.orders[i].locked == 0.0
    ensures i < |Exec(s, e).orders| && Exec(s, e).orders[i] == s.orders[i]
  {
    match e
    case SubmitOrders(batch) => if SubmittedAll(s, batch).Some? { SubmitAppends(s, batch, i); }
    case CancelOrders(batch) => if CancelledAll(s, batch).Some? { NobodyCancelsIt(s, batch, i); }
    case ExecuteTrade(t, bc, ac) => if Traded(s, t, bc, ac).Some? { NoTradeFitsIt(s, t, bc, ac, i); }
    case _ =>
  }

  lemma {:induction false} NoTradeFitsIt(s: State, t: Trade, bidCopies: Copies, askCopies: Copies, i: nat)
    requires EngineMade(s, t) && Traded(s, t, bidCopies, askCopies).Some?
    requires i < |s.orders| && s.orders[i].side.Bid? && s.orders[i].locked == 0.0
    ensures var n := Traded(s, t, bidCopies, askCopies).value; i < |n.orders| && n.orders[i] == s.orders[i]
  {
  }

  lemma {:induction false} NobodyCancelsIt(s: State, batch: seq<CancelRequest>, i: nat)
    requires i < |s.orders| && s.orders[i].locked == 0.0 && CancelledAll(s, batch).Some?
    ensures i < |CancelledAll(s, batch).value.orders| && CancelledAll(s, batch).value.orders[i] == s.orders[i]
    decreases |batch|
  {
    if batch == [] {
    } else {
      assert batch[0].id != i;
      NobodyCancelsIt(CancelledOne(s, batch[0].id, batch[0].copy).value, batch[1..], i);
    }
  }

  lemma {:induction false} OnlyPosting(accounts: seq<Acct>, p: Posting)
    ensures PostAll(accounts, [p]) == Post(accounts, p)
  {
  }

  predicate FairFees(m: Market) { 0.0 <= m.bidFee <= 0.5 && 0.0 <= m.askFee <= 0.5 && m.base != m.quote }

  lemma {:induction false} FeeIsSmall(amount: real, rate: real)
    requires amount > 0.0 && 0.0 <= rate <= 0.5
    ensures 0.0 <= Times(amount, rate) <= amount - Times(amount, rate) && amount - Times(amount, rate) > 0.0
  {
  }

  predicate CopiesCover(o: Order, t: Trade, copies: Copies) {
    copies.hold.locked >= o.locked && copies.holdAgain.locked >= o.locked - Sub(o, t)
  }

  // Neither does one strike of a matching trade, under fees of at most one half.
  lemma {:induction false} StrikeGoesThrough(accounts: seq<Acct>, o: Order, m: Market, t: Trade, copies: Copies)
    requires AllSound(accounts) && o.hold < |accounts| && o.gain < |accounts| && o.hold != o.gain
    requires OrderOk(o, m) && o.state.Wait? && Matches(o, t) && FairFees(m)
    requires accounts[o.hold].row.locked >= o.locked && CopiesCover(o, t, copies)
    requires Sub(o, t) <= o.locked
    ensures PostAll(accounts, StrikePostings(o, m, t, copies)).Some?
  {
    var ps := StrikePostings(o, m, t, copies);
    FeeIsSmall(Add(o, t), FeeRate(o, m));
    ApplyIsSound(accounts[o.hold].row, ps[0].copy, ps[0].op);
    var one := Post(accounts, ps[0]).value;
    ApplyIsSound(one[o.gain].row, ps[1].copy, ps[1].op);
    var two := Post(one, ps[1]).value;
    assert PostAll(accounts, ps) == PostAll(one, ps[1..]) == PostAll(two, ps[2..]);
    if ps[2..] != [] {
      CommitsIff(two[o.hold].row, ps[2].copy, ps[2].op);
      assert ps[2..] == [ps[2]];
      OnlyPosting(two, ps[2]);
    }
  }

  lemma {:induction false} MatchFitsLock(o: Order, m: Market, t: Trade)
    requires OrderOk(o, m) && Matches(o, t)
    ensures 0.0 < Sub(o, t) <= o.locked
  {
  }

  // A trade without volume brings the bid nothing, and its account refuses nothing.
  lemma {:induction false} NoVolumeNoTrade(s: State, t: Trade, bidCopies: Copies, askCopies: Copies)
    requires EngineMade(s, t) && t.volume <= 0.0 && s.orders[t.bid].market < |s.markets| && s.orders[t.bid].side.Bid?
    requires FairFees(s.markets[s.orders[t.bid].market])
    ensures Traded(s, t, bidCopies, askCopies).None?
  {
    if Traded(s, t, bidCopies, askCopies).Some? {
      var bid, ask := s.orders[t.bid], s.orders[t.ask];
      var m := s.markets[bid.market];
      var ps := StrikePostings(bid, m, t, bidCopies);
      var qs := StrikePostings(ask, s.markets[ask.market], t, askCopies);
      GuardsPassed(s.accounts, ps + qs);
      assert (ps + qs)[1] == ps[1] && Guard(ps[1].copy, ps[1].op).None?;
      NothingAfterFees(t.volume, m.bidFee);
    }
  }

  lemma {:induction false} NothingAfterFees(amount: real, rate: real)
    requires amount <= 0.0 && 0.0 <= rate <= 0.5
    ensures amount - Times(amount, rate) <= 0.0
  {
  }

  lemma {:induction false} MatchingTradeGoesThrough(s: State, t: Trade, bidCopies: Copies, askCopies: Copies)
    requires Inv(s) && EngineMade(s, t) && t.volume > 0.0
    requires s.orders[t.bid].side.Bid? && s.orders[t.ask].side.Ask?
    requires s.orders[t.bid].state.Wait? && s.orders[t.ask].state.Wait?
    requires ValidTrade(s.orders[t.ask], s.orders[t.bid], t)
    requires forall m | m in s.markets :: FairFees(m)
    requires CopiesCover(s.orders[t.bid], t, bidCopies) && CopiesCover(s.orders[t.ask], t, askCopies)
    ensures Traded(s, t, bidCopies, askCopies).Some?
  {
    var bid, ask := s.orders[t.bid], s.orders[t.ask];
    assert Addressed(s, bid) && OrderOk(bid, s.markets[bid.market]);
    assert Addressed(s, ask) && OrderOk(ask, s.markets[ask.market]);
    var m := s.markets[t.market];
    assert m in s.markets;
    var ps, qs := StrikePostings(bid, m, t, bidCopies), StrikePostings(ask, m, t, askCopies);
    LockCovers(s, t.bid);
    LockCovers(s, t.ask);
    MatchFitsLock(bid, m, t);
    MatchFitsLock(ask, m, t);
    BothStrikesGoThrough(s.accounts, bid, ask, m, t, bidCopies, askCopies);
  }

  lemma {:induction false} BothStrikesGoThrough(
      accounts: seq<Acct>, bid: Order, ask: Order, m: Market, t: Trade, bidCopies: Copies, askCopies: Copies)
    requires AllSound(accounts) && FairFees(m)
    requires bid.hold < |accounts| && bid.gain < |accounts| && bid.hold != bid.gain && bid.hold != ask.hold
    requires ask.hold < |accounts| && ask.gain < |accounts| && ask.hold != ask.gain
    requires OrderOk(bid, m) && bid.state.Wait? && Matches(bid, t)
    requires OrderOk(ask, m) && ask.state.Wait? && Matches(ask, t)
    requires accounts[bid.hold].row.locked >= bid.locked && CopiesCover(bid, t, bidCopies) && Sub(bid, t) <= bid.locked
    requires accounts[ask.hold].row.locked >= ask.locked && CopiesCover(ask, t, askCopies) && Sub(ask, t) <= ask.locked
    ensures PostAll(accounts, StrikePostings(bid, m, t, bidCopies) + StrikePostings(ask, m, t, askCopies)).Some?
  {
    var ps, qs := StrikePostings(bid, m, t, bidCopies), StrikePostings(ask, m, t, askCopies);
    StrikeGoesThrough(accounts, bid, m, t, bidCopies);
    PostingsAddUp(accounts, ps, 0);
    StrikePostingsNet(accounts, bid, m, t, bidCopies, ask.hold, 0);
    StrikeGoesThrough(PostAll(accounts, ps).value, ask, m, t, askCopies);
    PostAllSplits(accounts, ps, qs);
  }

  // Two open orders that a trade fits: within both volumes and both limits, and not empty.
  predicate Fits(bid: Order, ask: Order, t: Trade) {
    && bid.side.Bid? && ask.side.Ask? && bid.state.Wait? && ask.state.Wait?
    && 0.0 < t.volume <= bid.volume && t.volume <= ask.volume && t.funds > 0.0
    && (bid.ordType.LimitType? && bid.price.Some? ==> t.price <= bid.price.value)
    && (ask.ordType.LimitType? && ask.price.Some? ==> ask.price.value <= t.price)
  }

  // So a trade of the engine goes through if and only if it fits. The engine does publish
  // others: it cuts the volume to the market's precision, the executor's check admits
  // volume zero, and then crediting the bid raises.
  lemma {:induction false} TradeGoesThrough(s: State, t: Trade, bidCopies: Copies, askCopies: Copies)
    requires Inv(s) && EngineMade(s, t)
    requires forall m | m in s.markets :: FairFees(m)
    requires CopiesCover(s.orders[t.bid], t, bidCopies) && CopiesCover(s.orders[t.ask], t, askCopies)
    ensures Traded(s, t, bidCopies, askCopies).Some? <==> Fits(s.orders[t.bid], s.orders[t.ask], t)
  {
    if Fits(s.orders[t.bid], s.orders[t.ask], t) {
      MatchingTradeGoesThrough(s, t, bidCopies, askCopies);
    } else {
      OnlyFittingTrades(s, t, bidCopies, askCopies);
    }
  }

  lemma {:induction false} OnlyFittingTrades(s: State, t: Trade, bidCopies: Copies, askCopies: Copies)
    requires Inv(s) && EngineMade(s, t) && forall m | m in s.markets :: FairFees(m)
    requires !Fits(s.orders[t.bid], s.orders[t.ask], t)
    ensures Traded(s, t, bidCopies, askCopies).None?
  {
    if t.volume <= 0.0 && s.orders[t.bid].side.Bid? {
      assert Addressed(s, s.orders[t.bid]);
      var m := s.markets[s.orders[t.bid].market];
      assert m in s.markets;
      NoVolumeNoTrade(s, t, bidCopies, askCopies);
    }
  }

  // --- The copies a process comes by -------------------------------------------------

  // The copy of the held account that `strike` loads for its last operation, after the
  // first two.
  function InsideCopy(accounts: seq<Acct>, o: Order, m: Market, t: Trade, copies: Copies): Balances {
    var done := PostAll(accounts, StrikePostings(o, m, t, copies)[..2]);
    if done.None? || o.hold >= |done.value| then Balances(0.0, 0.0) else BalancesOf(done.value[o.hold].row)
  }

  // The accounts as the ask finds them, after the bid's strike.
  function AfterStrike(accounts: seq<Acct>, o: Order, m: Market, t: Trade, copies: Copies): seq<Acct> {
    var posted := PostAll(accounts, StrikePostings(o, m, t, copies));
    if posted.Some? then posted.value else accounts
  }

  // That copy shows enough locked, whatever the earlier copies were.
  lemma {:induction false} InsideCopyCovers(accounts: seq<Acct>, o: Order, m: Market, t: Trade, copies: Copies)
    requires AllSound(accounts) && o.hold < |accounts| && o.gain < |accounts| && o.hold != o.gain
    requires OrderOk(o, m) && o.state.Wait? && Matches(o, t) && FairFees(m)
    requires accounts[o.hold].row.locked >= o.locked && copies.hold.locked >= o.locked && Sub(o, t) <= o.locked
    ensures InsideCopy(accounts, o, m, t, copies).locked >= o.locked - Sub(o, t)
  {
    var enough := copies.(holdAgain := Balances(0.0, o.locked));
    var ps, qs := StrikePostings(o, m, t, copies), StrikePostings(o, m, t, enough);
    MatchFitsLock(o, m, t);
    StrikeGoesThrough(accounts, o, m, t, enough);
    assert qs == qs[..2] + qs[2..];
    PostAllSplits(accounts, qs[..2], qs[2..]);
    assert ps[..2] == qs[..2] == [ps[0]] + [ps[1]];
    PostingsAddUp(accounts, ps[..2], 0);
    NetsSplit(accounts, [ps[0]], [ps[1]], o.hold, 0);
    NetOfOne(accounts, ps[0], o.hold, 0);
    NetOfOne(accounts, ps[1], o.hold, 0);
  }

  // In any run: an open order for which something is locked, and no other, can be cancelled
  // with a copy of its account that was taken at any time since it was submitted.
  lemma {:induction false} OpenOrdersCanBeCancelled(markets: seq<Market>, events: seq<Event>, more: seq<Event>, i: nat)
    requires LegalRun(Init(markets), events) && LegalRun(Run(Init(markets), events), more)
    requires i < |Run(Init(markets), events).orders|
    requires var n := Run(Run(Init(markets), events), more); i < |n.orders| && n.orders[i].state.Wait?
    ensures var s := Run(Init(markets), events);
            var n := Run(s, more);
            n.orders[i].hold < |s.accounts|
            && (CancelledOne(n, i, BalancesOf(s.accounts[n.orders[i].hold].row)).Some? <==> n.orders[i].locked > 0.0)
  {
    var s := Run(Init(markets), events);
    var n := Run(s, more);
    ReachableIsInv(markets, events);
    RunKeepsInv(s, more);
    StaleCopyCovers(s, more, i);
    CancelGoesThrough(n, i, BalancesOf(s.accounts[n.orders[i].hold].row));
  }

  // What the executor's process may hold of an order: a copy as old as the order, and the
  // one it loads inside.
  ghost predicate CameBy(s: State, accounts: seq<Acct>, o: Order, m: Market, t: Trade, copies: Copies) {
    && o.hold < |s.accounts| && copies.hold == BalancesOf(s.accounts[o.hold].row)
    && copies.holdAgain == InsideCopy(accounts, o, m, t, copies)
  }

  // In any run: a trade the engine makes between two orders that both were there at some
  // time, from which the copies may stem, goes through if and only if it fits.
  lemma {:induction false} TradesGoThroughInRuns(
      markets: seq<Market>, events: seq<Event>, more: seq<Event>, t: Trade, bidCopies: Copies, askCopies: Copies)
    requires LegalRun(Init(markets), events) && LegalRun(Run(Init(markets), events), more)
    requires var s, n := Run(Init(markets), events), Run(Run(Init(markets), events), more);
             && EngineMade(n, t) && t.bid < |s.orders| && t.ask < |s.orders|
             && (forall m | m in n.markets :: FairFees(m))
             && t.market < |n.markets|
             && CameBy(s, n.accounts, n.orders[t.bid], n.markets[t.market], t, bidCopies)
             && CameBy(s, AfterStrike(n.accounts, n.orders[t.bid], n.markets[t.market], t, bidCopies),
                       n.orders[t.ask], n.markets[t.market], t, askCopies)
    ensures var n := Run(Run(Init(markets), events), more);
            Traded(n, t, bidCopies, askCopies).Some? <==> Fits(n.orders[t.bid], n.orders[t.ask], t)
  {
    var s := Run(Init(markets), events);
    var n := Run(s, more);
    ReachableIsInv(markets, events);
    RunKeepsInv(s, more);
    if Fits(n.orders[t.bid], n.orders[t.ask], t) {
      StaleCopyCovers(s, more, t.bid);
      StaleCopyCovers(s, more, t.ask);
      assert n.markets[t.market] in n.markets;
      InsideCopiesCover(n, t, bidCopies, askCopies);
      MatchingTradeGoesThrough(n, t, bidCopies, askCopies);
    } else {
      OnlyFittingTrades(n, t, bidCopies, askCopies);
    }
  }

  lemma {:induction false} InsideCopiesCover(n: State, t: Trade, bidCopies: Copies, askCopies: Copies)
    requires Inv(n) && EngineMade(n, t) && t.volume > 0.0 && t.market < |n.markets| && FairFees(n.markets[t.market])
    requires n.orders[t.bid].side.Bid? && n.orders[t.bid].state.Wait?
    requires n.orders[t.ask].side.Ask? && n.orders[t.ask].state.Wait?
    requires ValidTrade(n.orders[t.ask], n.orders[t.bid], t)
    requires bidCopies.hold.locked >= n.orders[t.bid].locked && askCopies.hold.locked >= n.orders[t.ask].locked
    requires var bid, ask, m := n.orders[t.bid], n.orders[t.ask], n.markets[t.market];
             && bidCopies.holdAgain == InsideCopy(n.accounts, bid, m, t, bidCopies)
             && askCopies.holdAgain == InsideCopy(AfterStrike(n.accounts, bid, m, t, bidCopies), ask, m, t, askCopies)
    ensures CopiesCover(n.orders[t.bid], t, bidCopies) && CopiesCover(n.orders[t.ask], t, askCopies)
  {
    var bid, ask, m := n.orders[t.bid], n.orders[t.ask], n.markets[t.market];
    assert Addressed(n, bid) && OrderOk(bid, n.markets[bid.market]);
    assert Addressed(n, ask) && OrderOk(ask, n.markets[ask.market]);
    LockCovers(n, t.bid);
    LockCovers(n, t.ask);
    MatchFitsLock(bid, m, t);
    MatchFitsLock(ask, m, t);
    InsideCopyCovers(n.accounts, bid, m, t, bidCopies);
    StrikeGoesThrough(n.accounts, bid, m, t, bidCopies);
    var ps := StrikePostings(bid, m, t, bidCopies);
    var posted := PostAll(n.accounts, ps).value;
    PostingsAddUp(n.accounts, ps, 0);
    StrikePostingsNet(n.accounts, bid, m, t, bidCopies, ask.hold, 0);
    InsideCopyCovers(posted, ask, m, t, askCopies);
  }

  lemma {:induction false} LockCoversWithdraw(s: State, id: nat)
    requires Inv(s) && id < |s.withdraws| && HoldsFunds(s.withdraws[id].state)
    ensures var w := s.withdraws[id]; w.account < |s.accounts| && s.accounts[w.account].row.locked >= w.sum
  {
    var a := s.withdraws[id].account;
    forall o | o in s.orders ensures OrderHold(a)(o) >= 0.0 {
      var j :| 0 <= j < |s.orders| && s.orders[j] == o;
      assert OrderOk(s.orders[j], s.markets[s.orders[j].market]);
    }
    SumNonNegative(s.orders, OrderHold(a));
    SumCovers(s.withdraws, id, WithdrawHold(a));
  }

  // The states each withdraw event may fire from, and the one it leads to.
  function Sources(e: WithdrawEvent): set<WithdrawState> {
    match e
    case Submit => {WithdrawState.Submitting}
    case Cancel => {WithdrawState.Submitting, WithdrawState.Submitted, WithdrawState.Accepted}
    case MarkSuspect => {WithdrawState.Submitted}
    case Accept => {WithdrawState.Submitted}
    case Reject => {WithdrawState.Submitted, WithdrawState.Accepted, Processing}
    case Process => {WithdrawState.Accepted}
    case CallRpc => {Processing}
    case Succeed => {Processing, AlmostDone}
    case Fail => {Processing}
  }

  function Target(e: WithdrawEvent): WithdrawState {
    match e
    case Submit => WithdrawState.Submitted
    case Cancel => Canceled
    case MarkSuspect => Suspect
    case Accept => WithdrawState.Accepted
    case Reject => WithdrawState.Rejected
    case Process => Processing
    case CallRpc => AlmostDone
    case Succeed => Finished
    case Fail => Failed
  }

  // A withdraw event goes through exactly from the listed states, except that submitting
  // needs the balance, and leads to the listed one.
  lemma {:induction false} WithdrawGoesThrough(s: State, id: nat, e: WithdrawEvent)
    requires Inv(s) && id < |s.withdraws|
    ensures var w := s.withdraws[id];
            && w.account < |s.accounts|
            && (WithdrawFired(s, id, e).Some? <==>
                  w.state in Sources(e) && (e.Submit? ==> w.sum <= s.accounts[w.account].row.balance))
            && (WithdrawFired(s, id, e).Some? ==>
                  WithdrawFired(s, id, e).value.withdraws == s.withdraws[id := w.(state := Target(e))])
  {
    assert WithdrawNext(s.withdraws[id].state, e).Some? <==> s.withdraws[id].state in Sources(e);
    if WithdrawNext(s.withdraws[id].state, e).Some? {
      ListedEventGoesThrough(s, id, e);
    }
  }

  lemma {:induction false} ListedEventGoesThrough(s: State, id: nat, e: WithdrawEvent)
    requires Inv(s) && id < |s.withdraws| && WithdrawNext(s.withdraws[id].state, e).Some?
    ensures var w := s.withdraws[id];
            w.account < |s.accounts|
            && (WithdrawFired(s, id, e).Some? <==> (e.Submit? ==> w.sum <= s.accounts[w.account].row.balance))
  {
    var w := s.withdraws[id];
    if HoldsFunds(w.state) {
      LockCoversWithdraw(s, id);
    }
    var ps := WithdrawPostings(s, w, e);
    if ps != [] {
      assert ps == [ps[0]];
      OnlyPosting(s.accounts, ps[0]);
      CommitsIff(s.accounts[w.account].row, ps[0].copy, ps[0].op);
    }
  }
}
