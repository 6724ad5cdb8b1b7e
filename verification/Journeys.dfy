/**
Whole journeys through the books, from any reachable state: money comes in, goes out, and
an order that is cancelled leaves everything as it was.
 */
module Journeys {
  import opened Wrappers
  import opened Amounts
  import opened Accounts
  import opened Orders
  import opened Ledger
  import Estimate

  // What an account has, whatever its log says.
  function Has(s: State, a: nat): Balances
    requires a < |s.accounts|
  {
    BalancesOf(s.accounts[a].row)
  }

  // Only account a has changed, by d.
  ghost predicate Changed(s: State, n: State, a: nat, d: Balances) {
    && |n.accounts| == |s.accounts| && a < |s.accounts|
    && Has(n, a) == Moved(Has(s, a), d)
    && forall b | 0 <= b < |s.accounts| && b != a :: n.accounts[b] == s.accounts[b]
  }

  const NOTHING := Balances(0.0, 0.0)

  lemma {:induction false} ChangedTwice(s: State, n: State, m: State, a: nat, d: Balances, e: Balances)
    requires Changed(s, n, a, d) && Changed(n, m, a, e)
    ensures Changed(s, m, a, Moved(d, e))
  {
  }

  lemma {:induction false} RunThree(s: State, a: Event, b: Event, c: Event)
    ensures Run(s, [a, b, c]) == Exec(Exec(Exec(s, a), b), c)
  {
    assert [a, b, c][1..] == [b, c] && [b, c][1..] == [c] && [c][1..] == [];
    var t := Exec(Exec(s, a), b);
    assert Run(s, [a, b, c]) == Run(Exec(s, a), [b, c]);
    assert Run(Exec(s, a), [b, c]) == Run(t, [c]);
    assert Run(t, [c]) == Run(Exec(t, c), []);
  }

  lemma {:induction false} RunFive(s: State, a: Event, b: Event, c: Event, d: Event, e: Event)
    ensures Run(s, [a, b, c, d, e]) == Exec(Exec(Exec(Exec(Exec(s, a), b), c), d), e)
  {
    assert [a, b, c, d, e][1..] == [b, c, d, e] && [b, c, d, e][1..] == [c, d, e];
    assert Run(s, [a, b, c, d, e]) == Run(Exec(s, a), [b, c, d, e]);
    assert Run(Exec(s, a), [b, c, d, e]) == Run(Exec(Exec(s, a), b), [c, d, e]);
    RunThree(Exec(Exec(s, a), b), c, d, e);
  }

  // --- Money comes in ---------------------------------------------------------------

  // The confirmations make a payment confirmed from the upper threshold on, and confirming
  // between the two.
  function CheckedState(p: Payment, confirmations: int): PaymentState {
    if confirmations >= p.maxConfirm then Confirmed
    else if confirmations >= p.minConfirm && !p.state.Confirmed? then Confirming
    else p.state
  }

  // Enough confirmations for the deposit; a confirmed payment counts only from the upper
  // threshold on.
  predicate Enough(p: Payment, confirmations: int) {
    confirmations >= p.maxConfirm || (confirmations >= p.minConfirm && !p.state.Confirmed?)
  }

  // Checking a payment accepts the deposit it was made for, if that was submitted and there
  // are enough confirmations, and leaves a crediting hook; and it changes nothing else.
  lemma {:induction false} CheckDecides(s: State, id: nat, confirmations: int)
    requires id < |s.payments|
    ensures var n, p := Exec(s, CheckPayment(id, confirmations)), s.payments[id];
            && n == s.(payments := n.payments, deposits := n.deposits)
            && n.payments == s.payments[id := p.(state := CheckedState(p, confirmations))]
            && |n.deposits| == |s.deposits|
            && forall i | 0 <= i < |s.deposits| ::
                 n.deposits[i] ==
                   if i == p.deposit && Enough(p, confirmations) && s.deposits[i].state.Submitted?
                   then s.deposits[i].(state := DepositState.Accepted, due := s.deposits[i].due + 1)
                   else s.deposits[i]
  {
  }

  lemma {:induction false} CreditMoves(s: State, id: nat)
    requires id < |s.deposits| && s.deposits[id].account < |s.accounts| && s.deposits[id].amount > 0.0
    requires Sound(s.accounts[s.deposits[id].account].row)
    ensures var n, d := Exec(s, Credit(id)), s.deposits[id];
            && n == s.(accounts := n.accounts, deposits := n.deposits)
            && Changed(s, n, d.account, if d.due > 0 then Balances(d.amount, 0.0) else NOTHING)
            && n.deposits == s.deposits[id := if d.due > 0 then d.(due := d.due - 1, credits := d.credits + 1) else d]
  {
    var d := s.deposits[id];
    CommitsIff(s.accounts[d.account].row, BalancesOf(s.accounts[d.account].row), PlusFunds(d.amount, 0.0));
  }

  // A deposit submitted, with its payment not yet seen by anybody.
  function Paid(s: State, a: nat, amount: real, min: int, max: int): State {
    s.(deposits := s.deposits + [Deposit(a, amount, DepositState.Submitted, 0, 0)],
       payments := s.payments + [Payment(|s.deposits|, Unconfirm, min, max)])
  }

  lemma {:induction false} AskAndPay(s: State, a: nat, amount: real, min: int, max: int)
    requires a < |s.accounts| && amount > 0.0
    ensures var d := |s.deposits|;
            Exec(Exec(Exec(s, NewDeposit(a, amount)), FireDeposit(d, DepositEvent.Submit)), NewPayment(d, min, max)) ==
              Paid(s, a, amount, min, max)
  {
    var d := |s.deposits|;
    var s1 := Exec(s, NewDeposit(a, amount));
    assert s1.deposits == s.deposits + [Deposit(a, amount, DepositState.Submitting, 0, 0)];
    var s2 := Exec(s1, FireDeposit(d, DepositEvent.Submit));
    assert s2.deposits == s.deposits + [Deposit(a, amount, DepositState.Submitted, 0, 0)];
  }

  lemma {:induction false} CheckAndCredit(
      s: State, a: nat, amount: real, min: int, max: int, confirmations: int, paid: State)
    requires paid == Paid(s, a, amount, min, max) && a < |s.accounts| && amount > 0.0 && Sound(s.accounts[a].row)
    ensures var d, p := |s.deposits|, |s.payments|;
            var n := Exec(Exec(paid, CheckPayment(p, confirmations)), Credit(d));
            var accepted := confirmations >= max || confirmations >= min;
            && Changed(s, n, a, if accepted then Balances(amount, 0.0) else NOTHING)
            && n.deposits == s.deposits + [Deposit(a, amount,
                 if accepted then DepositState.Accepted else DepositState.Submitted, 0, if accepted then 1 else 0)]
            && n == s.(accounts := n.accounts, deposits := n.deposits, payments := n.payments)
  {
    var d, p := |s.deposits|, |s.payments|;
    CheckDecides(paid, p, confirmations);
    CreditMoves(Exec(paid, CheckPayment(p, confirmations)), d);
  }

  // A deposit's way: asked for, submitted, paid and credited. The account gains exactly the
  // amount if there are enough confirmations, and otherwise nothing happens.
  lemma {:induction false} MoneyComesIn(s: State, a: nat, amount: real, min: int, max: int, confirmations: int)
    requires Inv(s) && a < |s.accounts| && amount > 0.0
    ensures var d, p := |s.deposits|, |s.payments|;
            var n := Run(s, [NewDeposit(a, amount), FireDeposit(d, DepositEvent.Submit), NewPayment(d, min, max),
                             CheckPayment(p, confirmations), Credit(d)]);
            var accepted := confirmations >= max || confirmations >= min;
            && Changed(s, n, a, if accepted then Balances(amount, 0.0) else NOTHING)
            && n.deposits == s.deposits + [Deposit(a, amount,
                 if accepted then DepositState.Accepted else DepositState.Submitted, 0, if accepted then 1 else 0)]
            && n == s.(accounts := n.accounts, deposits := n.deposits, payments := n.payments)
  {
    var d, p := |s.deposits|, |s.payments|;
    RunFive(s, NewDeposit(a, amount), FireDeposit(d, DepositEvent.Submit), NewPayment(d, min, max),
            CheckPayment(p, confirmations), Credit(d));
    AskAndPay(s, a, amount, min, max);
    CheckAndCredit(s, a, amount, min, max, confirmations, Paid(s, a, amount, min, max));
  }

  // So from nothing: an account is opened, empty, and holds what its first deposit brings.
  lemma {:induction false} FirstDeposit(
      markets: seq<Market>, currency: nat, amount: real, min: int, max: int, confirmations: int)
    requires amount > 0.0 && confirmations >= max
    ensures var s := Run(Init(markets), [OpenAccount(currency)]);
            var n := Run(s, [NewDeposit(0, amount), FireDeposit(0, DepositEvent.Submit), NewPayment(0, min, max),
                             CheckPayment(0, confirmations), Credit(0)]);
            && |s.accounts| == 1 && Has(s, 0) == NOTHING
            && |n.accounts| == 1 && n.accounts[0].currency == currency && Has(n, 0) == Balances(amount, 0.0)
  {
    var s := Exec(Init(markets), OpenAccount(currency));
    assert Run(Init(markets), [OpenAccount(currency)]) == Run(s, []);
    ReachableIsInv(markets, []);
    ExecKeepsInv(Init(markets), OpenAccount(currency));
    CreditKeepsCurrency(s, amount, min, max, confirmations);
    MoneyComesIn(s, 0, amount, min, max, confirmations);
  }

  lemma {:induction false} CreditKeepsCurrency(s: State, amount: real, min: int, max: int, confirmations: int)
    requires |s.accounts| == 1 && amount > 0.0
    ensures var d, p := |s.deposits|, |s.payments|;
            var n := Run(s, [NewDeposit(0, amount), FireDeposit(d, DepositEvent.Submit), NewPayment(d, min, max),
                             CheckPayment(p, confirmations), Credit(d)]);
            |n.accounts| == 1 && n.accounts[0].currency == s.accounts[0].currency
  {
    var d, p := |s.deposits|, |s.payments|;
    RunFive(s, NewDeposit(0, amount), FireDeposit(d, DepositEvent.Submit), NewPayment(d, min, max),
            CheckPayment(p, confirmations), Credit(d));
    AskAndPay(s, 0, amount, min, max);
    CheckDecides(Paid(s, 0, amount, min, max), p, confirmations);
  }

  // --- Money goes out ---------------------------------------------------------------

  // What a withdraw's event moves on its account.
  function Moves(w: Withdraw, e: WithdrawEvent): Balances {
    match e
    case Submit => Balances(-w.sum, w.sum)
    case Cancel => if w.state.Submitting? then NOTHING else Balances(w.sum, -w.sum)
    case Reject => Balances(w.sum, -w.sum)
    case Succeed => Balances(0.0, -w.sum)
    case _ => NOTHING
  }

  // Exactly that, and nothing on any other account.
  lemma {:induction false} EventMoves(s: State, id: nat, e: WithdrawEvent)
    requires WithdrawFired(s, id, e).Some?
    ensures var n, w := Exec(s, FireWithdraw(id, e)), s.withdraws[id];
            && n == s.(accounts := n.accounts, withdraws := s.withdraws[id := w.(state := Target(e))])
            && Changed(s, n, w.account, Moves(w, e))
  {
    var w := s.withdraws[id];
    var ps := WithdrawPostings(s, w, e);
    if ps != [] {
      assert ps == [ps[0]];
      OnlyPosting(s.accounts, ps[0]);
    }
  }

  lemma {:induction false} FireStep(s: State, id: nat, e: WithdrawEvent)
    requires Inv(s) && id < |s.withdraws| && s.withdraws[id].state in Sources(e)
    requires s.withdraws[id].account < |s.accounts|
    requires e.Submit? ==> s.withdraws[id].sum <= Has(s, s.withdraws[id].account).balance
    ensures var n, w := Exec(s, FireWithdraw(id, e)), s.withdraws[id];
            && Inv(n) && n == s.(accounts := n.accounts, withdraws := s.withdraws[id := w.(state := Target(e))])
            && Changed(s, n, w.account, Moves(w, e))
  {
    WithdrawGoesThrough(s, id, e);
    EventMoves(s, id, e);
    ExecKeepsInv(s, FireWithdraw(id, e));
  }

  lemma {:induction false} AskStep(s: State, a: nat, sum: real, seen: real)
    requires Inv(s) && a < |s.accounts| && 0.0 < sum <= seen
    ensures var n := Exec(s, NewWithdraw(a, sum, seen));
            Inv(n) && n == s.(withdraws := s.withdraws + [Withdraw(a, sum, WithdrawState.Submitting)])
  {
    ExecKeepsInv(s, NewWithdraw(a, sum, seen));
  }

  // A withdraw is asked for and submitted: its sum is locked.
  lemma {:induction false} AskAndLock(s: State, a: nat, sum: real, seen: real)
    requires Inv(s) && a < |s.accounts| && 0.0 < sum <= seen && sum <= Has(s, a).balance
    ensures var w := |s.withdraws|;
            var n := Exec(Exec(s, NewWithdraw(a, sum, seen)), FireWithdraw(w, WithdrawEvent.Submit));
            && Changed(s, n, a, Balances(-sum, sum)) && Inv(n)
            && n == s.(accounts := n.accounts, withdraws := s.withdraws + [Withdraw(a, sum, WithdrawState.Submitted)])
  {
    var w := |s.withdraws|;
    AskStep(s, a, sum, seen);
    FireStep(Exec(s, NewWithdraw(a, sum, seen)), w, WithdrawEvent.Submit);
  }

  // Submitted, it may be cancelled: everything is as it was before.
  lemma {:induction false} CancelledWithdrawLeavesNothing(s: State, a: nat, sum: real, seen: real)
    requires Inv(s) && a < |s.accounts| && 0.0 < sum <= seen && sum <= Has(s, a).balance
    ensures var w := |s.withdraws|;
            var n := Run(s, [NewWithdraw(a, sum, seen), FireWithdraw(w, WithdrawEvent.Submit),
                             FireWithdraw(w, WithdrawEvent.Cancel)]);
            && Changed(s, n, a, NOTHING)
            && n == s.(accounts := n.accounts, withdraws := s.withdraws + [Withdraw(a, sum, Canceled)])
  {
    var w := |s.withdraws|;
    var e1, e2, e3 := NewWithdraw(a, sum, seen), FireWithdraw(w, WithdrawEvent.Submit),
                      FireWithdraw(w, WithdrawEvent.Cancel);
    RunThree(s, e1, e2, e3);
    AskAndLock(s, a, sum, seen);
    var s2 := Exec(Exec(s, e1), e2);
    FireStep(s2, w, WithdrawEvent.Cancel);
    ChangedTwice(s, s2, Exec(s2, e3), a, Balances(-sum, sum), Balances(sum, -sum));
  }

  // Or it is audited, processed and done: the account has lost exactly the sum.
  lemma {:induction false} MoneyGoesOut(s: State, a: nat, sum: real, seen: real)
    requires Inv(s) && a < |s.accounts| && 0.0 < sum <= seen && sum <= Has(s, a).balance
    ensures var w := |s.withdraws|;
            var n := Run(s, [NewWithdraw(a, sum, seen), FireWithdraw(w, WithdrawEvent.Submit), Audit(w, true),
                             FireWithdraw(w, CallRpc), FireWithdraw(w, Succeed)]);
            && Changed(s, n, a, Balances(-sum, 0.0))
            && n == s.(accounts := n.accounts, withdraws := s.withdraws + [Withdraw(a, sum, Finished)])
  {
    var w := |s.withdraws|;
    var e1, e2 := NewWithdraw(a, sum, seen), FireWithdraw(w, WithdrawEvent.Submit);
    RunFive(s, e1, e2, Audit(w, true), FireWithdraw(w, CallRpc), FireWithdraw(w, Succeed));
    AskAndLock(s, a, sum, seen);
    var s2 := Exec(Exec(s, e1), e2);
    ProcessAndSend(s2, w);
    var n := Exec(Exec(Exec(s2, Audit(w, true)), FireWithdraw(w, CallRpc)), FireWithdraw(w, Succeed));
    ChangedTwice(s, s2, n, a, Balances(-sum, sum), Balances(0.0, -sum));
  }

  lemma {:induction false} ProcessAndSend(s: State, w: nat)
    requires Inv(s) && w < |s.withdraws| && s.withdraws[w].state.Submitted?
    ensures var n := Exec(Exec(Exec(s, Audit(w, true)), FireWithdraw(w, CallRpc)), FireWithdraw(w, Succeed));
            && Changed(s, n, s.withdraws[w].account, Balances(0.0, -s.withdraws[w].sum))
            && n == s.(accounts := n.accounts, withdraws := s.withdraws[w := s.withdraws[w].(state := Finished)])
  {
    var s3 := Exec(s, Audit(w, true));
    AuditStep(s, w);
    SendAndSucceed(s3, w, s3.withdraws[w]);
    var n := Exec(Exec(s3, FireWithdraw(w, CallRpc)), FireWithdraw(w, Succeed));
    ChangedTwice(s, s3, n, s.withdraws[w].account, NOTHING, Balances(0.0, -s.withdraws[w].sum));
  }

  lemma {:induction false} SendAndSucceed(s: State, id: nat, w: Withdraw)
    requires Inv(s) && id < |s.withdraws| && s.withdraws[id] == w && w.state.Processing?
    ensures var n := Exec(Exec(s, FireWithdraw(id, CallRpc)), FireWithdraw(id, Succeed));
            && Changed(s, n, w.account, Balances(0.0, -w.sum))
            && n == s.(accounts := n.accounts, withdraws := s.withdraws[id := w.(state := Finished)])
  {
    var m := Exec(s, FireWithdraw(id, CallRpc));
    FireStep(s, id, CallRpc);
    FireStep(m, id, Succeed);
    ChangedTwice(s, m, Exec(m, FireWithdraw(id, Succeed)), w.account, NOTHING, Balances(0.0, -w.sum));
  }

  lemma {:induction false} AuditStep(s: State, w: nat)
    requires Inv(s) && w < |s.withdraws| && s.withdraws[w].state.Submitted?
    ensures var n := Exec(s, Audit(w, true));
            && Inv(n) && n == s.(withdraws := s.withdraws[w := s.withdraws[w].(state := Processing)])
            && Changed(s, n, s.withdraws[w].account, NOTHING)
  {
    AuditPasses(s, w, true);
    ExecKeepsInv(s, Audit(w, true));
  }

  // --- An order comes and goes -------------------------------------------------------

  // A new order is taken if and only if it can be prepared, locks something, and both the
  // copy and the row have that much; what is stored is the prepared order.
  lemma {:induction false} SubmitGoesThrough(s: State, o: Order, levels: seq<Estimate.Level>, copy: Balances)
    requires Inv(s) && Addressed(s, o)
    ensures var p := Prepared(o, s.markets[o.market], levels);
            && (SubmittedOne(s, o, levels, copy).Some? <==>
                  p.Some? && 0.0 < p.value.locked <= copy.balance && p.value.locked <= Has(s, o.hold).balance)
            && (SubmittedOne(s, o, levels, copy).Some? ==>
                  var n := SubmittedOne(s, o, levels, copy).value;
                  && n == s.(accounts := n.accounts, orders := s.orders + [p.value])
                  && Changed(s, n, o.hold, Balances(-p.value.locked, p.value.locked)))
  {
    PreparedIff(o, s.markets[o.market], levels);
    var p := Prepared(o, s.markets[o.market], levels);
    if p.Some? {
      CommitsIff(s.accounts[o.hold].row, copy, LockFunds(p.value.locked));
    }
  }

  // Cancelled at once, it leaves the accounts as they were.
  lemma {:induction false} CancelUndoesSubmit(s: State, o: Order, levels: seq<Estimate.Level>, copy: Balances)
    requires Inv(s) && Addressed(s, o) && PositiveBook(levels) && SubmittedOne(s, o, levels, copy).Some?
    ensures var n := SubmittedOne(s, o, levels, copy).value;
            var order := n.orders[|s.orders|];
            var back := CancelledOne(n, |s.orders|, Has(n, order.hold));
            && back.Some? && Changed(s, back.value, o.hold, NOTHING)
            && back.value == s.(accounts := back.value.accounts,
                                orders := s.orders + [order.(state := OrderState.Cancelled)])
  {
    var n := SubmittedOne(s, o, levels, copy).value;
    var order := n.orders[|s.orders|];
    SubmitGoesThrough(s, o, levels, copy);
    SubmitKeepsInv(s, o, levels, copy);
    PreparedIff(o, s.markets[o.market], levels);
    CancelMoves(n, |s.orders|, Has(n, order.hold));
    ChangedTwice(s, n, CancelledOne(n, |s.orders|, Has(n, order.hold)).value, o.hold,
                 Balances(-order.locked, order.locked), Balances(order.locked, -order.locked));
  }

  // A cancellation gives back exactly what the order still locks.
  lemma {:induction false} CancelMoves(s: State, id: nat, copy: Balances)
    requires Inv(s) && id < |s.orders| && s.orders[id].state.Wait? && s.orders[id].locked > 0.0
    requires s.orders[id].hold < |s.accounts| && copy.locked >= s.orders[id].locked
    ensures CancelledOne(s, id, copy).Some?
    ensures var n, o := CancelledOne(s, id, copy).value, s.orders[id];
            && n == s.(accounts := n.accounts, orders := s.orders[id := o.(state := OrderState.Cancelled)])
            && Changed(s, n, o.hold, Balances(o.locked, -o.locked))
  {
    CancelGoesThrough(s, id, copy);
  }
}
