/**
Fund operations on one account. A process guards an operation on its own copy of
the balances, which may be arbitrarily stale; the database row is changed by the
amount itself, and a version row is inserted only if the copy then equals the row,
else after one reload and validation.
 */
module Accounts {
  import opened Wrappers

  datatype FundOp =
    | PlusFunds(amount: real, fee: real)
    | SubFunds(amount: real)
    | LockFunds(amount: real)
    | UnlockFunds(amount: real)
    | UnlockAndSubFunds(amount: real, unlocked: real)

  datatype Error = AccountError | LockedError | RecordInvalid

  datatype Balances = Balances(balance: real, locked: real)

  // `balance` and `locked` are the changes, `amount` the account's total after them.
  datatype Version = Version(op: FundOp, balance: real, locked: real, amount: real)

  // An account row with the version rows that refer to it.
  datatype Row = Row(balance: real, locked: real, versions: seq<Version>)

  function Guard(copy: Balances, op: FundOp): Option<Error> {
    match op
    case PlusFunds(amount, fee) => if amount <= 0.0 || fee > amount then Some(AccountError) else None
    case SubFunds(amount) => if amount <= 0.0 || amount > copy.balance then Some(AccountError) else None
    case LockFunds(amount) => if amount <= 0.0 || amount > copy.balance then Some(AccountError) else None
    case UnlockFunds(amount) => if amount <= 0.0 || amount > copy.locked then Some(AccountError) else None
    case UnlockAndSubFunds(amount, unlocked) =>
      if amount <= 0.0 || amount > unlocked then Some(AccountError)
      else if unlocked <= 0.0 || unlocked > copy.locked then Some(LockedError)
      else None
  }

  // What `change_balance_and_locked` is given.
  function Change(op: FundOp): Balances {
    match op
    case PlusFunds(amount, _) => Balances(amount, 0.0)
    case SubFunds(amount) => Balances(-amount, 0.0)
    case LockFunds(amount) => Balances(-amount, amount)
    case UnlockFunds(amount) => Balances(amount, -amount)
    case UnlockAndSubFunds(amount, unlocked) => Balances(unlocked - amount, -unlocked)
  }

  // What the version row records: worked out a second time, from the operation's
  // name and arguments.
  function ComputeLockedAndBalance(op: FundOp): (real, real) {
    match op
    case SubFunds(amount) => (0.0, 0.0 - amount)
    case PlusFunds(amount, _) => (0.0, amount)
    case LockFunds(amount) => (amount, 0.0 - amount)
    case UnlockFunds(amount) => (0.0 - amount, amount)
    case UnlockAndSubFunds(amount, unlocked) => (0.0 - unlocked, unlocked - amount)
  }

  function NewVersion(op: FundOp, amount: real): Version {
    var (locked, balance) := ComputeLockedAndBalance(op);
    Version(op, balance, locked, amount)
  }

  function Moved(b: Balances, d: Balances): Balances { Balances(b.balance + d.balance, b.locked + d.locked) }

  function BalancesOf(row: Row): Balances { Balances(row.balance, row.locked) }

  predicate IsValid(b: Balances) { b.balance >= 0.0 && b.locked >= 0.0 }

  // One operation as one transaction on the row.
  function Apply(row: Row, copy: Balances, op: FundOp): Result<Row, Error> {
    if Guard(copy, op).Some? then Err(Guard(copy, op).value)
    else
      var now := Moved(BalancesOf(row), Change(op));
      if Moved(copy, Change(op)) != now && !IsValid(now) then Err(RecordInvalid)
      else Ok(Row(now.balance, now.locked, row.versions + [NewVersion(op, now.balance + now.locked)]))
  }

  // `examine`: every version's amount is the running sum of the changes, and the
  // last one is the account's.
  predicate Examines(versions: seq<Version>, expected: real, amount: real)
    decreases |versions|
  {
    if versions == [] then expected == amount
    else
      var next := expected + versions[0].balance + versions[0].locked;
      next == versions[0].amount && Examines(versions[1..], next, amount)
  }

  predicate Sound(row: Row) {
    IsValid(BalancesOf(row)) && Examines(row.versions, 0.0, row.balance + row.locked)
  }

  // What the guard asks of a copy: a positive amount, a fee or a part of the lock that is
  // no more than there is, and that the change would leave the copy without overdraft.
  lemma {:induction false} GuardIff(copy: Balances, op: FundOp)
    requires IsValid(copy)
    ensures Guard(copy, op).None? <==>
              && op.amount > 0.0
              && (op.PlusFunds? ==> op.fee <= op.amount)
              && (op.UnlockAndSubFunds? ==> op.amount <= op.unlocked)
              && IsValid(Moved(copy, Change(op)))
    ensures Guard(copy, op) == Some(LockedError) <==>
              op.UnlockAndSubFunds? && 0.0 < op.amount <= op.unlocked && copy.locked < op.unlocked
    ensures Guard(copy, op) != Some(RecordInvalid)
  {
  }

  lemma {:induction false} OneMoreVersion(versions: seq<Version>, v: Version, expected: real, amount: real)
    requires Examines(versions, expected, amount) && v.amount == amount + v.balance + v.locked
    ensures Examines(versions + [v], expected, v.amount)
    decreases |versions|
  {
    if versions == [] {
      assert Examines([], v.amount, v.amount);
      assert ([v])[1..] == [];
      assert versions + [v] == [v];
    } else {
      assert (versions + [v])[1..] == versions[1..] + [v];
      OneMoreVersion(versions[1..], v, expected + versions[0].balance + versions[0].locked, amount);
    }
  }

  lemma {:induction false} CommitsIff(row: Row, copy: Balances, op: FundOp)
    requires Sound(row)
    ensures Apply(row, copy, op).Ok? <==> Guard(copy, op).None? && IsValid(Moved(BalancesOf(row), Change(op)))
  {
  }

  // However stale the copy: a committed operation leaves both amounts non-negative
  // and a log the audit accepts; and it commits exactly when the guard passes on
  // the copy and the row itself can bear the change. The copy decides whether the
  // operation goes through, never what it does.
  lemma {:induction false} ApplyIsSound(row: Row, copy: Balances, op: FundOp)
    requires Sound(row)
    ensures Apply(row, copy, op).Ok? <==> Guard(copy, op).None? && IsValid(Moved(BalancesOf(row), Change(op)))
    ensures Apply(row, copy, op).Ok? ==>
              var r := Apply(row, copy, op).value;
              && Sound(r)
              && BalancesOf(r) == Moved(BalancesOf(row), Change(op))
              && Apply(row, BalancesOf(row), op) ==
                   (if Guard(BalancesOf(row), op).None? then Ok(r) else Err(Guard(BalancesOf(row), op).value))
  {
    if Apply(row, copy, op).Ok? {
      var now := Moved(BalancesOf(row), Change(op));
      OneMoreVersion(row.versions, NewVersion(op, now.balance + now.locked), 0.0, row.balance + row.locked);
    }
  }

  // What each operation moves: in, out, to the lock, back, and out of the lock.
  lemma {:induction false} ApplyMoves(row: Row, copy: Balances, op: FundOp)
    requires Apply(row, copy, op).Ok?
    ensures var r := Apply(row, copy, op).value;
            match op
            case PlusFunds(amount, _) => r.balance == row.balance + amount && r.locked == row.locked
            case SubFunds(amount) => r.balance == row.balance - amount && r.locked == row.locked
            case LockFunds(amount) => r.balance == row.balance - amount && r.locked == row.locked + amount
            case UnlockFunds(amount) => r.balance == row.balance + amount && r.locked == row.locked - amount
            case UnlockAndSubFunds(amount, unlocked) =>
              r.balance + r.locked == row.balance + row.locked - amount && r.locked == row.locked - unlocked
  {
  }

  // Both columns of the log, added up.
  function Recorded(versions: seq<Version>): Balances {
    if versions == [] then Balances(0.0, 0.0)
    else
      var v := versions[|versions| - 1];
      Moved(Recorded(versions[..|versions| - 1]), Balances(v.balance, v.locked))
  }

  // A committed operation leaves one version more, which records by how much each of the
  // two amounts has changed and what they come to; so both columns keep adding up.
  lemma {:induction false} ApplyRecords(row: Row, copy: Balances, op: FundOp)
    requires Apply(row, copy, op).Ok?
    ensures var r := Apply(row, copy, op).value;
            && r.versions == row.versions +
                 [Version(op, r.balance - row.balance, r.locked - row.locked, r.balance + r.locked)]
            && (Recorded(row.versions) == BalancesOf(row) ==> Recorded(r.versions) == BalancesOf(r))
  {
    var r := Apply(row, copy, op).value;
    assert r.versions[..|row.versions|] == row.versions;
  }

  // --- Without a transaction --------------------------------------------------

  // Operations by others, each one a transaction on the row.
  datatype Other = Other(op: FundOp, copy: Balances)

  function ApplyAll(row: Row, others: seq<Other>): Option<Row>
    decreases |others|
  {
    if others == [] then Some(row)
    else
      match Apply(row, others[0].copy, others[0].op)
      case Err(_) => None
      case Ok(next) => ApplyAll(next, others[1..])
  }

  // A credit outside any transaction: the row is updated, then others come in between,
  // and only then the version is inserted, with the total as it is by that time.
  function CreditedLate(row: Row, amount: real, others: seq<Other>): Option<Row> {
    match ApplyAll(row.(balance := row.balance + amount), others)
    case None => None
    case Some(now) =>
      Some(now.(versions := now.versions + [NewVersion(PlusFunds(amount, 0.0), now.balance + now.locked)]))
  }

  lemma {:induction false} OthersAppend(row: Row, others: seq<Other>)
    requires ApplyAll(row, others).Some?
    ensures var now := ApplyAll(row, others).value;
            && row.versions <= now.versions
            && (others == [] ==> now == row)
            && (others != [] ==>
                  && |now.versions| > |row.versions|
                  && var d := Change(others[0].op);
                     now.versions[|row.versions|] ==
                       NewVersion(others[0].op, row.balance + row.locked + d.balance + d.locked))
    decreases |others|
  {
    if others == [] {
    } else {
      OthersAppend(Apply(row, others[0].copy, others[0].op).value, others[1..]);
    }
  }

  // The first version that does not continue the running sum spoils the log.
  lemma {:induction false} SpoiltLog(
    versions: seq<Version>, more: seq<Version>, expected: real, amount: real, total: real)
    requires Examines(versions, expected, amount) && more != []
    requires more[0].amount != amount + more[0].balance + more[0].locked
    ensures !Examines(versions + more, expected, total)
    decreases |versions|
  {
    if versions == [] {
      assert versions + more == more;
    } else {
      assert (versions + more)[1..] == versions[1..] + more;
      SpoiltLog(versions[1..], more, expected + versions[0].balance + versions[0].locked, amount, total);
    }
  }

  // The log still adds up if and only if nobody came in between; otherwise no later
  // version mends it.
  lemma {:induction false} LateVersionAddsUpIff(row: Row, amount: real, others: seq<Other>)
    requires Sound(row) && amount > 0.0 && CreditedLate(row, amount, others).Some?
    ensures var late := CreditedLate(row, amount, others).value;
            Examines(late.versions, 0.0, late.balance + late.locked) <==> others == []
  {
    var moved := row.(balance := row.balance + amount);
    var late := CreditedLate(row, amount, others).value;
    OthersAppend(moved, others);
    if others == [] {
      OneMoreVersion(row.versions, late.versions[|row.versions|], 0.0, row.balance + row.locked);
    } else {
      var more := late.versions[|row.versions|..];
      assert late.versions == row.versions + more;
      SpoiltLog(row.versions, more, 0.0, row.balance + row.locked, late.balance + late.locked);
    }
  }

  // --- The same, as the objects do it ----------------------------------------

  // The account's row in the database, with its version rows.
  class AccountRecord {
    var balance: real
    var locked: real
    var versions: seq<Version>

    function Value(): Row
      reads this
    {
      Row(balance, locked, versions)
    }

    constructor ()
      ensures Value() == Row(0.0, 0.0, [])
    {
      balance, locked, versions := 0.0, 0.0, [];
    }

    // `update accounts set balance = balance + ..., locked = locked + ...`
    method Update(d: Balances)
      modifies this`balance, this`locked
      ensures BalancesOf(Value()) == Moved(old(BalancesOf(Value())), d)
    {
      balance, locked := balance + d.balance, locked + d.locked;
    }

    // `insert ... select ... where balance = ? and locked = ?`
    method OptimisticallyInsert(expected: Balances, v: Version) returns (inserted: bool)
      modifies this`versions
      ensures inserted <==> expected == old(BalancesOf(Value()))
      ensures versions == if inserted then old(versions) + [v] else old(versions)
    {
      inserted := balance == expected.balance && locked == expected.locked;
      if inserted {
        versions := versions + [v];
      }
    }

    // What a rolled back transaction does to the row.
    method Restore(row: Row)
      modifies this
      ensures Value() == row
    {
      balance, locked, versions := row.balance, row.locked, row.versions;
    }

    method Examine(amount: real) returns (ok: bool)
      ensures ok <==> Examines(versions, 0.0, amount)
    {
      var expected, i := 0.0, 0;
      while i < |versions|
        invariant 0 <= i <= |versions|
        invariant Examines(versions[i..], expected, amount) <==> Examines(versions, 0.0, amount)
      {
        expected := expected + versions[i].balance + versions[i].locked;
        if expected != versions[i].amount {
          return false;
        }
        i := i + 1;
      }
      ok := expected == amount;
    }
  }

  // A process's copy of an account.
  class Account {
    const record: AccountRecord
    var balance: real
    var locked: real

    function Copy(): Balances
      reads this
    {
      Balances(balance, locked)
    }

    constructor (record: AccountRecord)
      ensures this.record == record && Copy() == BalancesOf(record.Value())
    {
      this.record, balance, locked := record, record.balance, record.locked;
    }

    method ChangeBalanceAndLocked(d: Balances)
      modifies this, record`balance, record`locked
      ensures Copy() == Moved(old(Copy()), d)
      ensures BalancesOf(record.Value()) == Moved(old(BalancesOf(record.Value())), d)
    {
      balance, locked := balance + d.balance, locked + d.locked;
      record.Update(d);
    }

    // The hook behind every fund operation. The loop is the begin/rescue/retry; it
    // goes round at most once.
    method RecordVersion(op: FundOp) returns (error: Option<Error>, retries: nat)
      modifies record`versions
      ensures error == (if Copy() != BalancesOf(record.Value()) && !IsValid(BalancesOf(record.Value()))
                        then Some(RecordInvalid) else None)
      ensures record.versions == old(record.versions) +
                if error.None? then [NewVersion(op, record.balance + record.locked)] else []
      ensures retries <= 1
    {
      var account := Copy();
      retries := 0;
      while true
        invariant retries <= 1 && record.versions == old(record.versions)
        invariant retries == 0 ==> account == Copy()
        invariant retries == 1 ==>
                    && Copy() != BalancesOf(record.Value())
                    && account == BalancesOf(record.Value()) && IsValid(account)
        decreases 1 - retries
      {
        var inserted := record.OptimisticallyInsert(account, NewVersion(op, account.balance + account.locked));
        if inserted {
          return None, retries;
        }
        account := Balances(record.balance, record.locked);
        if !IsValid(account) {
          return Some(RecordInvalid), retries;
        }
        retries := retries + 1;
      }
    }

    // Any of the five fund operations, hook included, in a transaction that restores the
    // row when the operation raises. A copy that had already been changed is not restored.
    method Operate(op: FundOp) returns (error: Option<Error>)
      modifies this, record
      ensures error.None? <==> Apply(old(record.Value()), old(Copy()), op).Ok?
      ensures error.None? ==>
                && record.Value() == Apply(old(record.Value()), old(Copy()), op).value
                && Copy() == Moved(old(Copy()), Change(op))
      ensures error.Some? ==>
                && Apply(old(record.Value()), old(Copy()), op) == Err(error.value)
                && record.Value() == old(record.Value())
                && Copy() == (if error.value.RecordInvalid? then Moved(old(Copy()), Change(op)) else old(Copy()))
    {
      var before := record.Value();
      error := Guard(Copy(), op);
      if error.None? {
        ChangeBalanceAndLocked(Change(op));
        var retries;
        error, retries := RecordVersion(op);
        if error.Some? {
          record.Restore(before);
        }
      }
    }
  }
}
