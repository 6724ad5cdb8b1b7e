/**
Where withdraws, deposits and orders can go, over whole runs: the states one can get to are
exactly those listed, and what never changes of an order.
 */
module Lifecycles {
  import opened Wrappers
  import opened Accounts
  import opened Orders
  import opened Ledger

  // --- Withdraws ------------------------------------------------------------------

  // Done, canceled, rejected, suspect and failed withdraws go nowhere.
  function WithdrawReach(from: WithdrawState): set<WithdrawState>
    decreases StepsLeft(from)
  {
    match from
    case Submitting => WithdrawReach(WithdrawState.Submitted) + {WithdrawState.Submitting}
    case Submitted => WithdrawReach(WithdrawState.Accepted) + {WithdrawState.Submitted, Suspect}
    case Accepted => WithdrawReach(Processing) + {WithdrawState.Accepted, Canceled}
    case Processing => {Processing, WithdrawState.Rejected, AlmostDone, Finished, Failed}
    case AlmostDone => {AlmostDone, Finished}
    case _ => {from}
  }

  lemma {:induction false} WithdrawReachGoesOn(from: WithdrawState, e: WithdrawEvent)
    requires from in Sources(e)
    ensures Target(e) in WithdrawReach(from) && WithdrawReach(Target(e)) <= WithdrawReach(from)
    ensures from in WithdrawReach(from)
  {
  }

  // The withdraw is the same one, and has got no further than it may.
  ghost predicate WithdrawMoved(s: State, n: State, id: nat) {
    && id < |s.withdraws| && id < |n.withdraws|
    && n.withdraws[id] == s.withdraws[id].(state := n.withdraws[id].state)
    && WithdrawReach(n.withdraws[id].state) <= WithdrawReach(s.withdraws[id].state)
  }

  lemma {:induction false} FireMoved(s: State, fired: nat, e: WithdrawEvent, id: nat)
    requires id < |s.withdraws|
    ensures WithdrawMoved(s, WithdrawFires(s, fired, e), id)
  {
    if WithdrawFired(s, fired, e).Some? {
      assert s.withdraws[fired].state in Sources(e);
      assert WithdrawFired(s, fired, e).value.withdraws[fired].state == Target(e);
      WithdrawReachGoesOn(s.withdraws[fired].state, e);
    }
  }

  lemma {:induction false} ExecMoved(s: State, e: Event, id: nat)
    requires id < |s.withdraws|
    ensures WithdrawMoved(s, Exec(s, e), id)
  {
    match e
    case SubmitOrders(batch) => if SubmittedAll(s, batch).Some? { SubmitLeavesTables(s, batch); }
    case CancelOrders(batch) => if CancelledAll(s, batch).Some? { CancelLeavesTables(s, batch); }
    case FireWithdraw(fired, we) => FireMoved(s, fired, we, id);
    case Audit(audited, quick) =>
      FireMoved(s, audited, MarkSuspect, id);
      FireMoved(s, audited, WithdrawEvent.Accept, id);
      FireMoved(WithdrawFires(s, audited, WithdrawEvent.Accept), audited, Process, id);
    case _ =>
  }

  lemma {:induction false} SubmitLeavesTables(s: State, batch: seq<NewOrder>)
    requires SubmittedAll(s, batch).Some?
    ensures var n := SubmittedAll(s, batch).value; n == s.(accounts := n.accounts, orders := n.orders)
    decreases |batch|
  {
    if batch == [] {
    } else {
      SubmitLeavesTables(SubmittedOne(s, batch[0].order, batch[0].levels, batch[0].copy).value, batch[1..]);
    }
  }

  lemma {:induction false} CancelLeavesTables(s: State, batch: seq<CancelRequest>)
    requires CancelledAll(s, batch).Some?
    ensures var n := CancelledAll(s, batch).value; n == s.(accounts := n.accounts, orders := n.orders)
    decreases |batch|
  {
    if batch == [] {
    } else {
      CancelLeavesTables(CancelledOne(s, batch[0].id, batch[0].copy).value, batch[1..]);
    }
  }

  // Over any run: a withdraw keeps its account and sum, and gets only to the states listed.
  lemma {:induction false} WithdrawsStayInReach(s: State, events: seq<Event>, id: nat)
    requires id < |s.withdraws|
    ensures WithdrawMoved(s, Run(s, events), id)
    ensures Run(s, events).withdraws[id].state in WithdrawReach(s.withdraws[id].state)
    decreases |events|
  {
    if events == [] {
    } else {
      ExecMoved(s, events[0], id);
      WithdrawsStayInReach(Exec(s, events[0]), events[1..], id);
    }
  }

  // The event that brings a withdraw one step nearer to a state in its reach.
  function Towards(from: WithdrawState, to: WithdrawState): WithdrawEvent {
    match from
    case Submitting => if to.Canceled? then WithdrawEvent.Cancel else WithdrawEvent.Submit
    case Submitted =>
      if to.Canceled? then WithdrawEvent.Cancel else if to.Suspect? then MarkSuspect
      else if to.Rejected? then WithdrawEvent.Reject else WithdrawEvent.Accept
    case Accepted =>
      if to.Canceled? then WithdrawEvent.Cancel else if to.Rejected? then WithdrawEvent.Reject else Process
    case Processing =>
      if to.Rejected? then WithdrawEvent.Reject else if to.Failed? then Fail
      else if to.Finished? then Succeed else CallRpc
    case _ => Succeed
  }

  function StepsLeft(from: WithdrawState): nat {
    match from
    case Submitting => 5
    case Submitted => 4
    case Accepted => 3
    case Processing => 2
    case AlmostDone => 1
    case _ => 0
  }

  lemma {:induction false} TowardsLeads(from: WithdrawState, to: WithdrawState)
    requires to in WithdrawReach(from) && from != to
    ensures var e := Towards(from, to);
            from in Sources(e) && to in WithdrawReach(Target(e)) && StepsLeft(Target(e)) < StepsLeft(from)
  {
  }

  lemma {:induction false} OneStepNearer(s: State, id: nat, to: WithdrawState)
    requires Inv(s) && id < |s.withdraws| && to in WithdrawReach(s.withdraws[id].state)
    requires s.withdraws[id].state != to && CanLeave(s, s.withdraws[id], to)
    ensures var w := s.withdraws[id];
            var e := Towards(w.state, to);
            var n := Exec(s, FireWithdraw(id, e));
            && Inv(n) && id < |n.withdraws| && n.withdraws[id] == w.(state := Target(e))
            && to in WithdrawReach(Target(e)) && StepsLeft(Target(e)) < StepsLeft(w.state)
            && CanLeave(n, n.withdraws[id], to)
  {
    var w := s.withdraws[id];
    TowardsLeads(w.state, to);
    WithdrawGoesThrough(s, id, Towards(w.state, to));
    ExecKeepsInv(s, FireWithdraw(id, Towards(w.state, to)));
  }

  // To be submitted, a withdraw needs the balance.
  predicate CanLeave(s: State, w: Withdraw, to: WithdrawState) {
    w.state.Submitting? && !to.Submitting? && !to.Canceled? ==>
      w.account < |s.accounts| && w.sum <= s.accounts[w.account].row.balance
  }

  lemma {:induction false} FirstThen(s: State, e: Event, more: seq<Event>)
    requires Legal(s, e) && LegalRun(Exec(s, e), more)
    ensures LegalRun(s, [e] + more) && Run(s, [e] + more) == Run(Exec(s, e), more)
  {
    assert ([e] + more)[1..] == more;
  }

  // And it can get to each of them.
  lemma {:induction false} WithdrawsReach(s: State, id: nat, to: WithdrawState) returns (events: seq<Event>)
    requires Inv(s) && id < |s.withdraws| && to in WithdrawReach(s.withdraws[id].state)
    requires CanLeave(s, s.withdraws[id], to)
    ensures LegalRun(s, events) && id < |Run(s, events).withdraws| && Run(s, events).withdraws[id].state == to
    decreases StepsLeft(s.withdraws[id].state)
  {
    if s.withdraws[id].state == to {
      events := [];
    } else {
      var e := FireWithdraw(id, Towards(s.withdraws[id].state, to));
      OneStepNearer(s, id, to);
      var more := WithdrawsReach(Exec(s, e), id, to);
      events := [e] + more;
      FirstThen(s, e, more);
    }
  }

  // --- Deposits -------------------------------------------------------------------

  function DepositReach(from: DepositState): set<DepositState> {
    match from
    case Submitting =>
      {DepositState.Submitting, DepositState.Cancelled, DepositState.Submitted, DepositState.Rejected,
       DepositState.Accepted, Checked, Warning}
    case Submitted =>
      {DepositState.Submitted, DepositState.Rejected, DepositState.Accepted, Checked, Warning}
    case Accepted => {DepositState.Accepted, Checked, Warning}
    case _ => {from}
  }

  ghost predicate DepositMoved(s: State, n: State, id: nat) {
    && id < |s.deposits| && id < |n.deposits|
    && n.deposits[id].account == s.deposits[id].account && n.deposits[id].amount == s.deposits[id].amount
    && DepositReach(n.deposits[id].state) <= DepositReach(s.deposits[id].state)
  }

  lemma {:induction false} DepositReachGoesOn(from: DepositState, e: DepositEvent)
    requires DepositNext(from, e).Some?
    ensures DepositReach(DepositNext(from, e).value) <= DepositReach(from)
  {
  }

  lemma {:induction false} DepositFireMoved(s: State, fired: nat, e: DepositEvent, id: nat)
    requires id < |s.deposits|
    ensures DepositMoved(s, DepositFires(s, fired, e), id)
  {
    if fired < |s.deposits| && DepositNext(s.deposits[fired].state, e).Some? {
      DepositReachGoesOn(s.deposits[fired].state, e);
    }
  }

  lemma {:induction false} ExecDepositMoved(s: State, e: Event, id: nat)
    requires id < |s.deposits|
    ensures DepositMoved(s, Exec(s, e), id)
  {
    match e
    case SubmitOrders(batch) => if SubmittedAll(s, batch).Some? { SubmitLeavesTables(s, batch); }
    case CancelOrders(batch) => if CancelledAll(s, batch).Some? { CancelLeavesTables(s, batch); }
    case FireDeposit(fired, de) => DepositFireMoved(s, fired, de, id);
    case CheckPayment(payment, confirmations) =>
      if payment < |s.payments| && PaymentNext(s.payments[payment], confirmations).Some? {
        var p := s.payments[payment];
        var next := p.(state := PaymentNext(p, confirmations).value);
        DepositFireMoved(s.(payments := s.payments[payment := next]), p.deposit, DepositEvent.Accept, id);
      }
    case _ =>
  }

  // Over any run: a deposit keeps its account and amount, and gets only to the states listed.
  lemma {:induction false} DepositsStayInReach(s: State, events: seq<Event>, id: nat)
    requires id < |s.deposits|
    ensures DepositMoved(s, Run(s, events), id)
    ensures Run(s, events).deposits[id].state in DepositReach(s.deposits[id].state)
    decreases |events|
  {
    if events == [] {
    } else {
      ExecDepositMoved(s, events[0], id);
      DepositsStayInReach(Exec(s, events[0]), events[1..], id);
    }
  }

  // And it can get to each of them.
  lemma {:induction false} DepositsReach(s: State, id: nat, to: DepositState) returns (events: seq<Event>)
    requires id < |s.deposits| && to in DepositReach(s.deposits[id].state)
    ensures LegalRun(s, events) && id < |Run(s, events).deposits| && Run(s, events).deposits[id].state == to
    decreases DepositStepsLeft(s.deposits[id].state)
  {
    var d := s.deposits[id];
    if d.state == to {
      events := [];
    } else {
      var e := FireDeposit(id, DepositTowards(d.state, to));
      var more := DepositsReach(Exec(s, e), id, to);
      events := [e] + more;
      FirstThen(s, e, more);
    }
  }

  function DepositStepsLeft(from: DepositState): nat {
    match from
    case Submitting => 3
    case Submitted => 2
    case Accepted => 1
    case _ => 0
  }

  function DepositTowards(from: DepositState, to: DepositState): DepositEvent {
    match from
    case Submitting => if to.Cancelled? then DepositEvent.Cancel else DepositEvent.Submit
    case Submitted => if to.Rejected? then DepositEvent.Reject else DepositEvent.Accept
    case _ => if to.Checked? then Check else Warn
  }

  // --- Orders ---------------------------------------------------------------------

  // What of its volume has been traded.
  function Filled(o: Order): real { if o.side.Bid? then o.fundsReceived else FundsUsed(o) }

  // The terms of an order never change, what is left and what has been filled always make
  // the same volume, and an order that is no longer open never changes at all.
  ghost predicate SameTerms(o: Order, p: Order) {
    && p == o.(volume := p.volume, locked := p.locked, fundsReceived := p.fundsReceived,
               tradesCount := p.tradesCount, state := p.state)
    && p.volume + Filled(p) == o.volume + Filled(o)
    && (!o.state.Wait? ==> p == o)
  }

  lemma {:induction false} CancelKeepsTerms(s: State, batch: seq<CancelRequest>, i: nat)
    requires i < |s.orders| && CancelledAll(s, batch).Some?
    ensures var n := CancelledAll(s, batch).value; i < |n.orders| && SameTerms(s.orders[i], n.orders[i])
    decreases |batch|
  {
    if batch == [] {
    } else {
      CancelKeepsTerms(CancelledOne(s, batch[0].id, batch[0].copy).value, batch[1..], i);
    }
  }

  lemma {:induction false} StruckKeepsTerms(o: Order, t: Trade)
    requires o.state.Wait?
    ensures SameTerms(o, Struck(o, t))
  {
  }

  lemma {:induction false} ExecKeepsTerms(s: State, e: Event, i: nat)
    requires i < |s.orders|
    ensures i < |Exec(s, e).orders| && SameTerms(s.orders[i], Exec(s, e).orders[i])
  {
    match e
    case SubmitOrders(batch) => if SubmittedAll(s, batch).Some? { SubmitAppends(s, batch, i); }
    case CancelOrders(batch) => if CancelledAll(s, batch).Some? { CancelKeepsTerms(s, batch, i); }
    case ExecuteTrade(t, bc, ac) =>
      if Traded(s, t, bc, ac).Some? {
        StruckKeepsTerms(s.orders[t.bid], t);
        StruckKeepsTerms(s.orders[t.ask], t);
      }
    case _ =>
  }

  // Over any run, legal or not.
  lemma {:induction false} TermsNeverChange(s: State, events: seq<Event>, i: nat)
    requires i < |s.orders|
    ensures i < |Run(s, events).orders| && SameTerms(s.orders[i], Run(s, events).orders[i])
    decreases |events|
  {
    if events == [] {
    } else {
      ExecKeepsTerms(s, events[0], i);
      TermsNeverChange(Exec(s, events[0]), events[1..], i);
    }
  }
}
