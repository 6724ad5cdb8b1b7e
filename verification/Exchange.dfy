/**
The services that change the books, step by step on the tables, each inside a
transaction that puts everything back when a step raises.
 */
module Exchange {
  import opened Wrappers
  import opened Accounts
  import opened Orders
  import opened Ledger

  class Books {
    const markets: seq<Market>
    var accounts: seq<Acct>
    var orders: seq<Order>
    var trades: seq<Trade>
    var withdraws: seq<Withdraw>
    var deposits: seq<Deposit>
    var payments: seq<Payment>

    function Value(): State
      reads this
    {
      State(markets, accounts, orders, trades, withdraws, deposits, payments)
    }

    constructor (markets: seq<Market>)
      ensures Value() == Init(markets)
    {
      this.markets := markets;
      accounts, orders, trades, withdraws, deposits, payments := [], [], [], [], [], [];
    }

    // The end of a transaction that raised.
    method RollBack(s: State)
      requires s.markets == markets
      modifies this
      ensures Value() == s
    {
      accounts, orders, trades := s.accounts, s.orders, s.trades;
      withdraws, deposits, payments := s.withdraws, s.deposits, s.payments;
    }

    // One fund operation on one account.
    method Operate(p: Posting) returns (ok: bool)
      modifies this`accounts
      ensures ok <==> Post(old(accounts), p).Some?
      ensures accounts == if ok then Post(old(accounts), p).value else old(accounts)
    {
      if p.account >= |accounts| {
        return false;
      }
      var r := Apply(accounts[p.account].row, p.copy, p.op);
      ok := r.Ok?;
      if ok {
        accounts := accounts[p.account := accounts[p.account].(row := r.value)];
      }
    }

    // `Order#strike`. When it raises, what it did so far is left to the transaction.
    method Strike(id: nat, t: Trade, copies: Copies) returns (ok: bool)
      requires id < |orders| && orders[id].market < |markets|
      modifies this`accounts, this`orders
      ensures var o := old(orders[id]);
              var posted := PostAll(old(accounts), StrikePostings(o, markets[o.market], t, copies));
              && (ok <==> o.state.Wait? && posted.Some?)
              && (ok ==> accounts == posted.value && orders == old(orders)[id := Struck(o, t)])
    {
      var o := orders[id];
      if !o.state.Wait? {
        return false;
      }
      ghost var ps := StrikePostings(o, markets[o.market], t, copies);
      ghost var first := accounts;
      var realSub, add := Sub(o, t), Add(o, t);
      var realFee := Fee(o, markets[o.market], t);

      ok := Operate(Posting(o.hold, UnlockAndSubFunds(realSub, realSub), copies.hold));
      if !ok {
        return;
      }
      ghost var second := accounts;
      assert PostAll(first, ps) == PostAll(second, ps[1..]);
      ok := Operate(Posting(o.gain, PlusFunds(add - realFee, realFee), copies.gain));
      if !ok {
        return;
      }
      assert ps[1..][1..] == ps[2..] && PostAll(second, ps[1..]) == PostAll(accounts, ps[2..]);

      var volume, locked, state := o.volume - t.volume, o.locked - realSub, o.state;
      if volume == 0.0 {
        state := Done;
        if locked != 0.0 {
          assert ps[2..] == [Posting(o.hold, UnlockFunds(locked), copies.holdAgain)];
          OnlyPosting(accounts, ps[2]);
          ok := Operate(Posting(o.hold, UnlockFunds(locked), copies.holdAgain));
          if !ok {
            return;
          }
        }
      } else if o.ordType.MarketType? && locked == 0.0 {
        state := OrderState.Cancelled;
      }
      orders := orders[id := o.(volume := volume, locked := locked, fundsReceived := o.fundsReceived + add,
                                tradesCount := o.tradesCount + 1, state := state)];
    }

    // The executor's transaction around one trade.
    method ExecuteTrade(t: Trade, bidCopies: Copies, askCopies: Copies) returns (ok: bool)
      modifies this
      ensures Value() == Exec(old(Value()), Event.ExecuteTrade(t, bidCopies, askCopies))
      ensures ok <==> Traded(old(Value()), t, bidCopies, askCopies).Some?
    {
      var before := Value();
      if t.bid >= |orders| || t.ask >= |orders| {
        return false;
      }
      var bid, ask := orders[t.bid], orders[t.ask];
      if !bid.side.Bid? || !ask.side.Ask? || bid.market >= |markets| || ask.market >= |markets|
         || !ValidTrade(ask, bid, t) {
        return false;
      }
      PostAllSplits(accounts, StrikePostings(bid, markets[bid.market], t, bidCopies),
                    StrikePostings(ask, markets[ask.market], t, askCopies));
      trades := trades + [t];
      ok := Strike(t.bid, t, bidCopies);
      if ok {
        ok := Strike(t.ask, t, askCopies);
      }
      if !ok {
        RollBack(before);
      }
    }

    // `do_submit`.
    method DoSubmit(n: NewOrder) returns (ok: bool)
      modifies this`accounts, this`orders
      ensures ok <==> SubmittedOne(old(Value()), n.order, n.levels, n.copy).Some?
      ensures ok ==> Value() == SubmittedOne(old(Value()), n.order, n.levels, n.copy).value
    {
      if n.order.market >= |markets| {
        return false;
      }
      var order := Prepared(n.order, markets[n.order.market], n.levels);
      if order.None? {
        return false;
      }
      orders := orders + [order.value];
      ok := Operate(Posting(order.value.hold, LockFunds(order.value.locked), n.copy));
    }

    // `submit`: all the orders or none.
    method Submit(batch: seq<NewOrder>) returns (ok: bool)
      modifies this
      ensures Value() == Exec(old(Value()), SubmitOrders(batch))
      ensures ok <==> SubmittedAll(old(Value()), batch).Some?
    {
      var before := Value();
      var i := 0;
      while i < |batch|
        invariant 0 <= i <= |batch|
        invariant SubmittedAll(Value(), batch[i..]) == SubmittedAll(before, batch)
      {
        ok := DoSubmit(batch[i]);
        if !ok {
          RollBack(before);
          return;
        }
        i := i + 1;
      }
      ok := true;
    }

    // `do_cancel!`.
    method DoCancel(c: CancelRequest) returns (ok: bool)
      modifies this`accounts, this`orders
      ensures ok <==> CancelledOne(old(Value()), c.id, c.copy).Some?
      ensures ok ==> Value() == CancelledOne(old(Value()), c.id, c.copy).value
    {
      if c.id >= |orders| || !orders[c.id].state.Wait? {
        return false;
      }
      var o := orders[c.id];
      ok := Operate(Posting(o.hold, UnlockFunds(o.locked), c.copy));
      if ok {
        orders := orders[c.id := o.(state := OrderState.Cancelled)];
      }
    }

    // `cancel!`: all the orders or none.
    method Cancel(batch: seq<CancelRequest>) returns (ok: bool)
      modifies this
      ensures Value() == Exec(old(Value()), CancelOrders(batch))
      ensures ok <==> CancelledAll(old(Value()), batch).Some?
    {
      var before := Value();
      var i := 0;
      while i < |batch|
        invariant 0 <= i <= |batch|
        invariant CancelledAll(Value(), batch[i..]) == CancelledAll(before, batch)
      {
        ok := DoCancel(batch[i]);
        if !ok {
          RollBack(before);
          return;
        }
        i := i + 1;
      }
      ok := true;
    }

    // A withdraw's event with its callback: `succeed` debits before the state is
    // written, the others lock or unlock after.
    method Fire(id: nat, e: WithdrawEvent) returns (ok: bool)
      modifies this
      ensures ok <==> WithdrawFired(old(Value()), id, e).Some?
      ensures Value() == WithdrawFires(old(Value()), id, e)
    {
      var before := Value();
      if id >= |withdraws| || withdraws[id].account >= |accounts| {
        return false;
      }
      var w := withdraws[id];
      var next := WithdrawNext(w.state, e);
      if next.None? {
        return false;
      }
      var row := accounts[w.account].row;
      var current := BalancesOf(row);
      ok := true;
      if e.Succeed? {
        OnlyPosting(accounts, Posting(w.account, UnlockAndSubFunds(w.sum, w.sum), current));
        ok := Operate(Posting(w.account, UnlockAndSubFunds(w.sum, w.sum), current));
      }
      if ok {
        withdraws := withdraws[id := w.(state := next.value)];
        if e.Submit? {
          OnlyPosting(accounts, Posting(w.account, LockFunds(w.sum), current));
          ok := Operate(Posting(w.account, LockFunds(w.sum), current));
        } else if e.Reject? || (e.Cancel? && !w.state.Submitting?) {
          OnlyPosting(accounts, Posting(w.account, UnlockFunds(w.sum), current));
          ok := Operate(Posting(w.account, UnlockFunds(w.sum), current));
        }
      }
      if !ok {
        RollBack(before);
      }
    }

    // `audit!`.
    method AuditWithdraw(id: nat, quick: bool)
      modifies this
      ensures Value() == Exec(old(Value()), Audit(id, quick))
    {
      if id >= |withdraws| || withdraws[id].account >= |accounts| {
        return;
      }
      var row := accounts[withdraws[id].account].row;
      var fired;
      if Examines(row.versions, 0.0, row.balance + row.locked) {
        fired := Fire(id, WithdrawEvent.Accept);
        if quick {
          fired := Fire(id, Process);
        }
      } else {
        fired := Fire(id, MarkSuspect);
      }
    }

    // A deposit's event. Whoever enters the accepted state owes the hook.
    method FireDeposit(id: nat, e: DepositEvent)
      modifies this`deposits
      ensures Value() == DepositFires(old(Value()), id, e)
    {
      if id < |deposits| {
        var d := deposits[id];
        var next := DepositNext(d.state, e);
        if next.Some? {
          d := d.(state := next.value);
          if next.value.Accepted? {
            d := d.(due := d.due + 1);
          }
          deposits := deposits[id := d];
        }
      }
    }

    // `do`: the hook.
    method CreditDeposit(id: nat) returns (ok: bool)
      modifies this`accounts, this`deposits
      ensures ok <==> Credited(old(Value()), id).Some?
      ensures Value() == Exec(old(Value()), Credit(id))
    {
      if id >= |deposits| || deposits[id].due == 0 || deposits[id].account >= |accounts| {
        return false;
      }
      var d := deposits[id];
      ok := Operate(Posting(d.account, PlusFunds(d.amount, 0.0), BalancesOf(accounts[d.account].row)));
      if ok {
        deposits := deposits[id := d.(due := d.due - 1, credits := d.credits + 1)];
      }
    }

    // `check` of a payment.
    method CheckPayment(id: nat, confirmations: int)
      modifies this`deposits, this`payments
      ensures Value() == Exec(old(Value()), Event.CheckPayment(id, confirmations))
    {
      if id < |payments| {
        var p := payments[id];
        var next := PaymentNext(p, confirmations);
        if next.Some? {
          payments := payments[id := p.(state := next.value)];
          FireDeposit(p.deposit, DepositEvent.Accept);
        }
      }
    }
  }
}
