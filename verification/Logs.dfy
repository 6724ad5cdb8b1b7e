/**
What every account's log records: version by version, by how much each amount changed.
 */
module Logs {
  import opened Wrappers
  import opened Accounts
  import opened Orders
  import opened Ledger

  // Both columns of an account's log add up to its balance and its lock.
  ghost predicate AllRecorded(accounts: seq<Acct>) {
    forall a | 0 <= a < |accounts| :: Recorded(accounts[a].row.versions) == BalancesOf(accounts[a].row)
  }

  lemma {:induction false} PostRecords(accounts: seq<Acct>, p: Posting)
    requires AllRecorded(accounts) && Post(accounts, p).Some?
    ensures AllRecorded(Post(accounts, p).value)
  {
    ApplyRecords(accounts[p.account].row, p.copy, p.op);
  }

  lemma {:induction false} PostAllRecords(accounts: seq<Acct>, ps: seq<Posting>)
    requires AllRecorded(accounts) && PostAll(accounts, ps).Some?
    ensures AllRecorded(PostAll(accounts, ps).value)
    decreases |ps|
  {
    if ps == [] {
    } else {
      PostRecords(accounts, ps[0]);
      PostAllRecords(Post(accounts, ps[0]).value, ps[1..]);
    }
  }

  lemma {:induction false} SubmitRecords(s: State, batch: seq<NewOrder>)
    requires AllRecorded(s.accounts) && SubmittedAll(s, batch).Some?
    ensures AllRecorded(SubmittedAll(s, batch).value.accounts)
    decreases |batch|
  {
    if batch == [] {
    } else {
      var n := batch[0];
      var order := Prepared(n.order, s.markets[n.order.market], n.levels).value;
      PostRecords(s.accounts, Posting(order.hold, LockFunds(order.locked), n.copy));
      SubmitRecords(SubmittedOne(s, n.order, n.levels, n.copy).value, batch[1..]);
    }
  }

  lemma {:induction false} CancelRecords(s: State, batch: seq<CancelRequest>)
    requires AllRecorded(s.accounts) && CancelledAll(s, batch).Some?
    ensures AllRecorded(CancelledAll(s, batch).value.accounts)
    decreases |batch|
  {
    if batch == [] {
    } else {
      var o := s.orders[batch[0].id];
      PostRecords(s.accounts, Posting(o.hold, UnlockFunds(o.locked), batch[0].copy));
      CancelRecords(CancelledOne(s, batch[0].id, batch[0].copy).value, batch[1..]);
    }
  }

  lemma {:induction false} FireRecords(s: State, id: nat, e: WithdrawEvent)
    requires AllRecorded(s.accounts)
    ensures AllRecorded(WithdrawFires(s, id, e).accounts)
  {
    if WithdrawFired(s, id, e).Some? {
      PostAllRecords(s.accounts, WithdrawPostings(s, s.withdraws[id], e));
    }
  }

  lemma {:induction false} AuditRecords(s: State, id: nat, quick: bool)
    requires AllRecorded(s.accounts)
    ensures AllRecorded(Audited(s, id, quick).accounts)
  {
    FireRecords(s, id, MarkSuspect);
    FireRecords(s, id, WithdrawEvent.Accept);
    FireRecords(WithdrawFires(s, id, WithdrawEvent.Accept), id, Process);
  }

  lemma {:induction false} TradeRecords(s: State, t: Trade, bidCopies: Copies, askCopies: Copies)
    requires AllRecorded(s.accounts) && Traded(s, t, bidCopies, askCopies).Some?
    ensures AllRecorded(Traded(s, t, bidCopies, askCopies).value.accounts)
  {
    var bid, ask := s.orders[t.bid], s.orders[t.ask];
    PostAllRecords(s.accounts, StrikePostings(bid, s.markets[bid.market], t, bidCopies)
                               + StrikePostings(ask, s.markets[ask.market], t, askCopies));
  }

  lemma {:induction false} CreditRecords(s: State, id: nat)
    requires AllRecorded(s.accounts) && Credited(s, id).Some?
    ensures AllRecorded(Credited(s, id).value.accounts)
  {
    var d := s.deposits[id];
    PostRecords(s.accounts, Posting(d.account, PlusFunds(d.amount, 0.0), BalancesOf(s.accounts[d.account].row)));
  }

  lemma {:induction false} ExecRecords(s: State, e: Event)
    requires AllRecorded(s.accounts)
    ensures AllRecorded(Exec(s, e).accounts)
  {
    match e
    case SubmitOrders(batch) => if SubmittedAll(s, batch).Some? { SubmitRecords(s, batch); }
    case ExecuteTrade(t, bc, ac) => if Traded(s, t, bc, ac).Some? { TradeRecords(s, t, bc, ac); }
    case CancelOrders(batch) => if CancelledAll(s, batch).Some? { CancelRecords(s, batch); }
    case FireWithdraw(id, we) => FireRecords(s, id, we);
    case Audit(id, quick) => AuditRecords(s, id, quick);
    case Credit(id) => if Credited(s, id).Some? { CreditRecords(s, id); }
    case _ =>
  }

  lemma {:induction false} RunRecords(s: State, events: seq<Event>)
    requires AllRecorded(s.accounts)
    ensures AllRecorded(Run(s, events).accounts)
    decreases |events|
  {
    if events == [] {
    } else {
      ExecRecords(s, events[0]);
      RunRecords(Exec(s, events[0]), events[1..]);
    }
  }

  // Over any run, legal or not: the balance column of an account's log adds up to its
  // balance, and the locked column to its lock.
  lemma {:induction false} LogsAddUp(markets: seq<Market>, events: seq<Event>, a: nat)
    requires a < |Run(Init(markets), events).accounts|
    ensures var row := Run(Init(markets), events).accounts[a].row;
            Recorded(row.versions) == Balances(row.balance, row.locked)
  {
    RunRecords(Init(markets), events);
  }
}
