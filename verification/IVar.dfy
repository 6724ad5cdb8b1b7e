/**
A single-assignment cell (`IVar`, and `Future`, which adds scheduling and
cancellation and has a `set` of its own): any number of `set`, `fail`, `execute`,
`cancel` and `add_observer` calls, interleaved one synchronized block at a time.
 */
module IVar {
  import opened Wrappers

  datatype Status = Unscheduled | Pending | Processing | Cancelled | Fulfilled | Rejected

  // `Assign` is a future's `set`: it gives an unscheduled future its task and executes it.
  datatype Kind = Set | Fail | Assign | Execute | Cancel | Add

  datatype Pc =
    | Start
    | Scheduling                                         // a future's `set`, about to execute it
    | Posted                                             // the task waits in the executor
    | Running(rescues: bool)                             // the block or task is being evaluated
    | Completing(success: bool, value: int, rescues: bool) // about to complete; `rescues` if a failure is rescued
    | Notify                                             // completed, about to take the observers
    | Notifying(left: set<nat>)                          // still to be notified
    | Direct                                             // the cell was complete: about to notify itself
    | Done
    | Raised                                             // MultipleAssignmentError
    | Aborted                                            // left by what no rescue takes

  datatype Op = Op(kind: Kind, pc: Pc)

  // An observer bears the number of the call that added it. `told` counts
  // notifications; `claim` is the call that took the cell out of the pending state,
  // `winner` the one that completed it. The three are history.
  datatype Cell = Cell(
    future: bool, status: Status, value: int, event: bool, observers: set<nat>,
    ops: map<nat, Op>, told: map<nat, nat>, claim: Option<nat>, winner: Option<nat>)

  // `ok` and `v` are the outcome of the block where one is evaluated; `x` says whom a
  // notifying call tells next. A block given to `set` may be left by an exception that is
  // no StandardError, or by a break; a future's task may not, for its executor rescues all.
  datatype Action = Call(id: nat, kind: Kind) | Step(id: nat, ok: bool, v: int, x: nat) | Abort(id: nat)

  // A future starts unscheduled.
  function New(future: bool): Cell {
    Cell(future, if future then Unscheduled else Pending, 0, false, {}, map[], map[], None, None)
  }

  // The calls a cell of this sort answers.
  predicate Offers(future: bool, kind: Kind) {
    match kind
    case Set => !future
    case Assign => future
    case Execute => future
    case Cancel => future
    case Fail => true
    case Add => true
  }

  predicate IsComplete(c: Cell) { c.status.Fulfilled? || c.status.Rejected? }

  function Told(c: Cell, x: nat): nat { if x in c.told then c.told[x] else 0 }

  function Tell(c: Cell, x: nat): Cell { c.(told := c.told[x := Told(c, x) + 1]) }

  function Goto(c: Cell, id: nat, pc: Pc): Cell
    requires id in c.ops
  {
    c.(ops := c.ops[id := c.ops[id].(pc := pc)])
  }

  // `compare_and_set_state`.
  function CompareAndSet(c: Cell, id: nat, from: Status, to: Status, won: Pc, lost: Pc): Cell
    requires id in c.ops
  {
    if c.status == from then Goto(c.(status := to, claim := if from.Pending? then Some(id) else c.claim), id, won)
    else Goto(c, id, lost)
  }

  function Begin(c: Cell, id: nat): Cell
    requires id in c.ops
  {
    match c.ops[id].kind
    case Set => CompareAndSet(c, id, Pending, Processing, Running(true), Raised)
    case Fail => Goto(c, id, Completing(false, 0, false))
    case Assign => Goto(c, id, if c.status.Unscheduled? then Scheduling else Raised)
    case Execute => CompareAndSet(c, id, Unscheduled, Pending, Posted, Done)
    case Cancel => CompareAndSet(c, id, Pending, Cancelled, Completing(false, 0, false), Done)
    case Add =>
      if c.event then Goto(c, id, Direct) else Goto(c.(observers := c.observers + {id}), id, Done)
  }

  // `complete_without_notification`.
  function Complete(c: Cell, id: nat, success: bool, value: int, rescues: bool): Cell
    requires id in c.ops
  {
    if IsComplete(c) then Goto(c, id, if rescues then Completing(false, 0, false) else Raised)
    else
      Goto(c.(status := if success then Fulfilled else Rejected, value := value, event := true, winner := Some(id)),
           id, Notify)
  }

  function Advance(c: Cell, a: Action): Cell
    requires a.Step? && a.id in c.ops
  {
    match c.ops[a.id].pc
    case Start => Begin(c, a.id)
    case Scheduling => CompareAndSet(c, a.id, Unscheduled, Pending, Posted, Done)
    case Posted => CompareAndSet(c, a.id, Pending, Processing, Running(false), Done)
    case Running(rescues) => Goto(c, a.id, Completing(a.ok, if a.ok then a.v else 0, rescues && a.ok))
    case Completing(success, value, rescues) => Complete(c, a.id, success, value, rescues)
    case Notify => Goto(c.(observers := {}), a.id, Notifying(c.observers))
    case Notifying(left) =>
      if left == {} then Goto(c, a.id, Done)
      else if a.x in left then Goto(Tell(c, a.x), a.id, Notifying(left - {a.x}))
      else c
    case Direct => Goto(Tell(c, a.id), a.id, Done)
    case Done => c
    case Raised => c
    case Aborted => c
  }

  function DoAbort(c: Cell, id: nat): Cell
    requires id in c.ops
  {
    if c.ops[id].pc == Running(true) then Goto(c, id, Aborted) else c
  }

  function Exec(c: Cell, a: Action): Cell {
    match a
    case Call(id, kind) => if id in c.ops || !Offers(c.future, kind) then c else c.(ops := c.ops[id := Op(kind, Start)])
    case Step(id, _, _, _) => if id in c.ops then Advance(c, a) else c
    case Abort(id) => if id in c.ops then DoAbort(c, id) else c
  }

  function Run(c: Cell, actions: seq<Action>): Cell
    decreases |actions|
  {
    if actions == [] then c else Run(Exec(c, actions[0]), actions[1..])
  }

  // --- The invariant ------------------------------------------------------------

  predicate AfterWin(pc: Pc) { pc.Notify? || pc.Notifying? }

  // Those the winner took and has not told yet.
  function Waiting(c: Cell): set<nat> {
    if c.winner.Some? && c.winner.value in c.ops && c.ops[c.winner.value].pc.Notifying? then
      c.ops[c.winner.value].pc.left
    else {}
  }

  // Where observer x is: not registered, registered, taken by the winner, about to
  // notify itself, or told, and in one place only.
  predicate Accounted(c: Cell, x: nat) {
    var at := (if x in c.observers then 1 else 0) + (if x in Waiting(c) then 1 else 0) + Told(c, x);
    if x !in c.ops || !c.ops[x].kind.Add? || c.ops[x].pc.Start? || c.ops[x].pc.Direct? then at == 0
    else c.ops[x].pc.Done? && at == 1
  }

  predicate OpOk(c: Cell, id: nat)
    requires id in c.ops
  {
    var op := c.ops[id];
    && (AfterWin(op.pc) ==> c.winner == Some(id))
    && (op.kind.Set? || op.kind.Fail? ==> (op.pc.Done? ==> c.winner == Some(id)))
    && (op.kind.Add? ==> op.pc.Start? || op.pc.Direct? || op.pc.Done?)
    && (op.pc.Direct? ==> op.kind.Add? && c.event)
    && (op.pc.Posted? ==> Executes(op.kind))
    && (op.pc.Scheduling? ==> op.kind.Assign?)
    && (op.pc.Aborted? || op.pc == Running(true) ==> op.kind.Set?)
    && Offers(c.future, op.kind)
  }

  predicate Executes(kind: Kind) { kind.Execute? || kind.Assign? }

  // The winner is past completing, adds nothing, and once it took the observers there
  // are none.
  predicate WinnerOk(c: Cell) {
    && (IsComplete(c) <==> c.event) && (c.event <==> c.winner.Some?)
    && (c.winner.Some? ==>
          && c.winner.value in c.ops
          && (AfterWin(c.ops[c.winner.value].pc) || c.ops[c.winner.value].pc.Done?)
          && !c.ops[c.winner.value].kind.Add?
          && (!c.ops[c.winner.value].pc.Notify? ==> c.observers == {}))
  }

  ghost predicate Inv(c: Cell) {
    && WinnerOk(c)
    && (forall id {:trigger OpOk(c, id)} | id in c.ops :: OpOk(c, id))
    && (forall x: nat {:trigger Accounted(c, x)} :: Accounted(c, x) && (Told(c, x) > 0 ==> c.event))
  }

  lemma {:induction false} GotoKeepsInv(c: Cell, d: Cell, id: nat, pc: Pc)
    requires Inv(c) && id in c.ops && d == Goto(c.(status := d.status, claim := d.claim), id, pc)
    requires IsComplete(c) <==> IsComplete(d)
    requires !AfterWin(pc) && !pc.Direct? && !AfterWin(c.ops[id].pc) && !c.ops[id].kind.Add?
    requires pc.Done? ==> !c.ops[id].kind.Set? && !c.ops[id].kind.Fail?
    requires (pc.Posted? ==> Executes(c.ops[id].kind)) && (pc.Scheduling? ==> c.ops[id].kind.Assign?)
    requires pc.Aborted? || pc == Running(true) ==> c.ops[id].kind.Set?
    requires c.winner != Some(id)
    ensures Inv(d)
  {
    forall i | i in d.ops ensures OpOk(d, i) {
      assert OpOk(c, i);
    }
    forall x: nat ensures Accounted(d, x) && (Told(d, x) > 0 ==> d.event) {
      assert Accounted(c, x);
    }
  }

  lemma {:induction false} AddKeepsInv(c: Cell, id: nat)
    requires Inv(c) && id in c.ops && c.ops[id] == Op(Add, Start)
    ensures Inv(Begin(c, id))
  {
    var d := Begin(c, id);
    forall i | i in d.ops ensures OpOk(d, i) {
      assert OpOk(c, i);
    }
    forall x: nat ensures Accounted(d, x) && (Told(d, x) > 0 ==> d.event) {
      assert Accounted(c, x);
    }
  }

  lemma {:induction false} CompleteKeepsInv(c: Cell, id: nat)
    requires Inv(c) && id in c.ops && c.ops[id].pc.Completing?
    ensures var pc := c.ops[id].pc; Inv(Complete(c, id, pc.success, pc.value, pc.rescues))
  {
    var pc := c.ops[id].pc;
    var d := Complete(c, id, pc.success, pc.value, pc.rescues);
    assert OpOk(c, id);
    if IsComplete(c) {
      GotoKeepsInv(c, d, id, d.ops[id].pc);
    } else {
      forall i | i in d.ops ensures OpOk(d, i) {
        assert OpOk(c, i);
      }
      forall x: nat ensures Accounted(d, x) {
        assert Accounted(c, x);
      }
    }
  }

  lemma {:induction false} NotifyKeepsInv(c: Cell, a: Action)
    requires Inv(c) && a.Step? && a.id in c.ops && AfterWin(c.ops[a.id].pc)
    ensures Inv(Advance(c, a))
  {
    var d := Advance(c, a);
    assert OpOk(c, a.id);
    forall i | i in d.ops ensures OpOk(d, i) {
      assert OpOk(c, i);
    }
    forall x: nat ensures Accounted(d, x) {
      assert Accounted(c, x) && Accounted(c, a.x);
    }
  }

  lemma {:induction false} DirectKeepsInv(c: Cell, a: Action)
    requires Inv(c) && a.Step? && a.id in c.ops && c.ops[a.id].pc.Direct?
    ensures Inv(Advance(c, a))
  {
    var d := Advance(c, a);
    assert OpOk(c, a.id);
    forall i | i in d.ops ensures OpOk(d, i) {
      assert OpOk(c, i);
    }
    forall x: nat ensures Accounted(d, x) && (Told(d, x) > 0 ==> d.event) {
      assert Accounted(c, x) && Accounted(c, a.id);
    }
  }

  lemma {:induction false} CallKeepsInv(c: Cell, id: nat, kind: Kind)
    requires Inv(c)
    ensures Inv(Exec(c, Call(id, kind)))
  {
    var d := Exec(c, Call(id, kind));
    forall i | i in d.ops ensures OpOk(d, i) {
      assert i in c.ops ==> OpOk(c, i);
    }
    forall x: nat ensures Accounted(d, x) && (Told(d, x) > 0 ==> d.event) {
      assert Accounted(c, x);
    }
  }

  lemma {:induction false} ExecKeepsInv(c: Cell, a: Action)
    requires Inv(c)
    ensures Inv(Exec(c, a))
  {
    if a.Call? {
      CallKeepsInv(c, a.id, a.kind);
    } else if a.Abort? && a.id in c.ops {
      assert OpOk(c, a.id);
      if c.ops[a.id].pc == Running(true) {
        GotoKeepsInv(c, Goto(c, a.id, Aborted), a.id, Aborted);
      }
    } else if a.id in c.ops {
      assert OpOk(c, a.id);
      var d := Exec(c, a);
      match c.ops[a.id].pc
      case Start =>
        if c.ops[a.id].kind.Add? {
          AddKeepsInv(c, a.id);
        } else {
          GotoKeepsInv(c, d, a.id, d.ops[a.id].pc);
        }
      case Scheduling => GotoKeepsInv(c, d, a.id, d.ops[a.id].pc);
      case Posted => GotoKeepsInv(c, d, a.id, d.ops[a.id].pc);
      case Running(_) => GotoKeepsInv(c, d, a.id, d.ops[a.id].pc);
      case Completing(_, _, _) => CompleteKeepsInv(c, a.id);
      case Notify => NotifyKeepsInv(c, a);
      case Notifying(_) => NotifyKeepsInv(c, a);
      case Direct => DirectKeepsInv(c, a);
      case Done =>
      case Raised =>
      case Aborted =>
    }
  }

  lemma {:induction false} NewIsInv(future: bool)
    ensures Inv(New(future))
  {
    forall x: nat ensures Accounted(New(future), x) {
    }
  }

  lemma {:induction false} RunKeepsInv(c: Cell, actions: seq<Action>)
    requires Inv(c)
    ensures Inv(Run(c, actions))
    decreases |actions|
  {
    if actions == [] {
    } else {
      ExecKeepsInv(c, actions[0]);
      RunKeepsInv(Exec(c, actions[0]), actions[1..]);
    }
  }

  // --- What callers are promised --------------------------------------------------

  lemma {:induction false} StepIsFinal(c: Cell, a: Action)
    requires Inv(c) && IsComplete(c)
    ensures var d := Exec(c, a); IsComplete(d) && d.status == c.status && d.value == c.value && d.winner == c.winner
  {
  }

  // Assignment is single: once complete, neither the outcome nor who brought it about
  // ever changes.
  lemma {:induction false} OutcomeIsFinal(c: Cell, actions: seq<Action>)
    requires Inv(c) && IsComplete(c)
    ensures var d := Run(c, actions);
            IsComplete(d) && d.status == c.status && d.value == c.value && d.winner == c.winner
    decreases |actions|
  {
    if actions == [] {
    } else {
      ExecKeepsInv(c, actions[0]);
      StepIsFinal(c, actions[0]);
      OutcomeIsFinal(Exec(c, actions[0]), actions[1..]);
    }
  }

  // A call of `set` or `fail` that has returned normally is the one that completed the
  // cell; every other one has raised or will.
  lemma {:induction false} ReturningCallWon(actions: seq<Action>, future: bool, i: nat)
    requires var c := Run(New(future), actions);
             i in c.ops && (c.ops[i].kind.Set? || c.ops[i].kind.Fail?) && (c.ops[i].pc.Done? || AfterWin(c.ops[i].pc))
    ensures var c := Run(New(future), actions); IsComplete(c) && c.winner == Some(i)
  {
    var c := Run(New(future), actions);
    NewIsInv(future);
    RunKeepsInv(New(future), actions);
    assert OpOk(c, i);
  }

  // --- Claims -----------------------------------------------------------------------

  // Past having claimed the cell.
  predicate Claims(op: Op) {
    op.pc.Running? || ((op.kind.Set? || Executes(op.kind) || op.kind.Cancel?) && (op.pc.Completing? || AfterWin(op.pc)))
  }

  predicate ClaimAgrees(c: Cell, id: nat)
    requires id in c.ops
  {
    && (Claims(c.ops[id]) ==> c.claim == Some(id))
    && (c.claim == Some(id) ==> !c.ops[id].pc.Start? && !c.ops[id].pc.Posted?)
    && (c.ops[id].kind.Cancel? ==> !c.ops[id].pc.Running?)
    && (c.ops[id].pc.Posted? ==> Executes(c.ops[id].kind))
    && (c.ops[id].pc.Scheduling? ==> c.ops[id].kind.Assign?)
  }

  ghost predicate ClaimOk(c: Cell) {
    && (c.status.Unscheduled? || c.status.Pending? ==> c.claim.None?)
    && (c.claim.Some? ==> c.claim.value in c.ops)
    && (forall id {:trigger ClaimAgrees(c, id)} | id in c.ops :: ClaimAgrees(c, id))
  }

  // What a step does to the rest of the cell: a claim is made once, and only from the
  // pending state.
  ghost predicate ClaimsOnce(c: Cell, d: Cell, id: nat)
    requires id in c.ops
  {
    && (d.claim == c.claim || (c.claim.None? && d.claim == Some(id)))
    && (d.status.Unscheduled? || d.status.Pending? ==> d.claim.None?)
    && id in d.ops && d.ops == c.ops[id := c.ops[id].(pc := d.ops[id].pc)]
    && ClaimAgrees(d, id)
  }

  lemma {:induction false} BeginClaims(c: Cell, id: nat)
    requires id in c.ops && ClaimAgrees(c, id) && c.ops[id].pc.Start?
    requires c.status.Unscheduled? || c.status.Pending? ==> c.claim.None?
    ensures ClaimsOnce(c, Begin(c, id), id)
  {
    if c.ops[id].kind.Set? || c.ops[id].kind.Cancel? {
      WinClaims(c, id);
    }
  }

  lemma {:induction false} WinClaims(c: Cell, id: nat)
    requires id in c.ops && ClaimAgrees(c, id) && c.ops[id].pc.Start?
    requires c.ops[id].kind.Set? || c.ops[id].kind.Cancel?
    requires c.status.Unscheduled? || c.status.Pending? ==> c.claim.None?
    ensures ClaimsOnce(c, Begin(c, id), id)
  {
  }

  lemma {:induction false} StepClaims(c: Cell, a: Action)
    requires a.Step? && a.id in c.ops && ClaimAgrees(c, a.id)
    requires c.status.Unscheduled? || c.status.Pending? ==> c.claim.None?
    ensures ClaimsOnce(c, Advance(c, a), a.id)
  {
    if c.ops[a.id].pc.Start? {
      BeginClaims(c, a.id);
    } else if c.ops[a.id].pc.Completing? || AfterWin(c.ops[a.id].pc) {
      FinishClaimsNothing(c, a);
    }
  }

  lemma {:induction false} FinishClaimsNothing(c: Cell, a: Action)
    requires a.Step? && a.id in c.ops && ClaimAgrees(c, a.id)
    requires c.ops[a.id].pc.Completing? || AfterWin(c.ops[a.id].pc)
    requires c.status.Unscheduled? || c.status.Pending? ==> c.claim.None?
    ensures ClaimsOnce(c, Advance(c, a), a.id)
  {
  }

  lemma {:induction false} ExecKeepsClaim(c: Cell, a: Action)
    requires ClaimOk(c)
    ensures ClaimOk(Exec(c, a))
    ensures c.claim.Some? ==> Exec(c, a).claim == c.claim
    ensures forall id | id in c.ops :: id in Exec(c, a).ops && Exec(c, a).ops[id].kind == c.ops[id].kind
  {
    var d := Exec(c, a);
    if a.Step? && a.id in c.ops {
      assert ClaimAgrees(c, a.id);
      StepClaims(c, a);
    }
    forall id | id in d.ops ensures ClaimAgrees(d, id) {
      assert id in c.ops ==> ClaimAgrees(c, id);
    }
  }

  lemma {:induction false} RunKeepsClaim(c: Cell, actions: seq<Action>)
    requires ClaimOk(c)
    ensures ClaimOk(Run(c, actions))
    ensures c.claim.Some? ==> Run(c, actions).claim == c.claim
    ensures forall id | id in c.ops :: id in Run(c, actions).ops && Run(c, actions).ops[id].kind == c.ops[id].kind
    decreases |actions|
  {
    if actions == [] {
    } else {
      ExecKeepsClaim(c, actions[0]);
      RunKeepsClaim(Exec(c, actions[0]), actions[1..]);
    }
  }

  // --- Some call does win -----------------------------------------------------------

  // No call can go on.
  predicate Quiet(c: Cell) {
    forall id | id in c.ops :: c.ops[id].pc.Done? || c.ops[id].pc.Raised? || c.ops[id].pc.Aborted?
  }

  // The calls after which a cell is completed in the end.
  predicate Settling(kind: Kind) { kind.Set? || kind.Fail? || Executes(kind) }

  // How far a call past its first step has brought the cell.
  predicate Brings(c: Cell, op: Op) {
    && (op.kind.Fail? && !op.pc.Start? && !op.pc.Completing? ==> IsComplete(c))
    && (op.kind.Set? && !op.pc.Start? ==> !c.status.Pending? && !c.status.Unscheduled?)
    && (Executes(op.kind) && !op.pc.Start? && !op.pc.Scheduling? ==> !c.status.Unscheduled?)
  }

  // Whoever took the cell out of a state is still at work on it.
  ghost predicate AtWork(c: Cell) {
    && (c.future && c.status.Pending? ==> exists id :: id in c.ops && c.ops[id].pc.Posted?)
    && ClaimantOk(c)
    && (!c.future ==> !c.status.Unscheduled?)
  }

  // The claimant is at work on the cell, or has left it for good.
  predicate ClaimantOk(c: Cell) {
    c.status.Processing? || c.status.Cancelled? ==>
      && c.claim.Some? && c.claim.value in c.ops
      && var pc := c.ops[c.claim.value].pc; pc.Completing? || (c.status.Processing? && (pc.Running? || pc.Aborted?))
  }

  ghost predicate Progress(c: Cell) { AtWork(c) && forall id | id in c.ops :: Brings(c, c.ops[id]) }

  // No step goes back.
  lemma {:induction false} StepMovesOn(c: Cell, a: Action)
    requires a.Step? && a.id in c.ops && Brings(c, c.ops[a.id]) && OpOk(c, a.id)
    requires !c.future ==> !c.status.Unscheduled?
    ensures var d := Advance(c, a);
            && (IsComplete(c) ==> IsComplete(d))
            && (!c.status.Unscheduled? ==> !d.status.Unscheduled?)
            && (!c.status.Unscheduled? && !c.status.Pending? ==> !d.status.Pending?)
            && a.id in d.ops && d.ops == c.ops[a.id := c.ops[a.id].(pc := d.ops[a.id].pc)]
            && Brings(d, d.ops[a.id])
  {
  }

  lemma {:induction false} StepKeepsPosted(c: Cell, a: Action)
    requires a.Step? && a.id in c.ops && c.future
    requires c.status.Pending? ==> exists id :: id in c.ops && c.ops[id].pc.Posted?
    ensures var d := Advance(c, a); d.status.Pending? ==> exists id :: id in d.ops && d.ops[id].pc.Posted?
  {
    var d := Advance(c, a);
    if c.status.Pending? && d.status.Pending? {
      var j :| j in c.ops && c.ops[j].pc.Posted?;
      assert j in d.ops && d.ops[j].pc.Posted?;
    } else if d.status.Pending? {
      assert a.id in d.ops && d.ops[a.id].pc.Posted?;
    }
  }

  lemma {:induction false} StepKeepsClaimant(c: Cell, a: Action)
    requires a.Step? && a.id in c.ops && ClaimantOk(c)
    ensures ClaimantOk(Advance(c, a))
  {
    if c.ops[a.id].pc.Start? {
      BeginKeepsClaimant(c, a.id);
    } else if AfterWin(c.ops[a.id].pc) {
      NotifyKeepsClaimant(c, a);
    }
  }

  lemma {:induction false} NotifyKeepsClaimant(c: Cell, a: Action)
    requires a.Step? && a.id in c.ops && AfterWin(c.ops[a.id].pc) && ClaimantOk(c)
    ensures ClaimantOk(Advance(c, a))
  {
  }

  lemma {:induction false} BeginKeepsClaimant(c: Cell, id: nat)
    requires id in c.ops && c.ops[id].pc.Start? && ClaimantOk(c)
    ensures ClaimantOk(Begin(c, id))
  {
  }

  lemma {:induction false} StepKeepsAtWork(c: Cell, a: Action)
    requires a.Step? && a.id in c.ops && AtWork(c) && Brings(c, c.ops[a.id]) && OpOk(c, a.id)
    ensures AtWork(Advance(c, a)) && Advance(c, a).future == c.future
  {
    StepKeepsClaimant(c, a);
    StepMovesOn(c, a);
    if c.future {
      StepKeepsPosted(c, a);
    }
  }

  lemma {:induction false} ExecKeepsProgress(c: Cell, a: Action)
    requires Inv(c) && Progress(c)
    ensures Inv(Exec(c, a)) && Progress(Exec(c, a))
  {
    ExecKeepsInv(c, a);
    var d := Exec(c, a);
    if a.Step? && a.id in c.ops {
      assert OpOk(c, a.id);
      StepMovesOn(c, a);
      StepKeepsAtWork(c, a);
    } else {
      OtherwiseKeepsProgress(c, a);
    }
  }

  lemma {:induction false} OtherwiseKeepsProgress(c: Cell, a: Action)
    requires Progress(c) && (a.Step? ==> a.id !in c.ops)
    ensures Progress(Exec(c, a))
  {
    var d := Exec(c, a);
    if c.future && c.status.Pending? {
      var j :| j in c.ops && c.ops[j].pc.Posted?;
      assert j in d.ops && d.ops[j].pc.Posted?;
    }
    forall id | id in d.ops ensures Brings(d, d.ops[id]) {
      assert id in c.ops ==> Brings(c, c.ops[id]);
    }
  }

  lemma {:induction false} RunKeepsProgress(c: Cell, actions: seq<Action>)
    requires Inv(c) && Progress(c)
    ensures Inv(Run(c, actions)) && Progress(Run(c, actions))
    decreases |actions|
  {
    if actions == [] {
    } else {
      ExecKeepsProgress(c, actions[0]);
      RunKeepsProgress(Exec(c, actions[0]), actions[1..]);
    }
  }

  lemma {:induction false} RunKeepsSort(c: Cell, actions: seq<Action>)
    ensures Run(c, actions).future == c.future
    decreases |actions|
  {
    if actions == [] {
    } else {
      RunKeepsSort(Exec(c, actions[0]), actions[1..]);
    }
  }

  // Whoever won other than by `fail` had claimed the cell.
  predicate WonByClaim(c: Cell) {
    c.winner.Some? && c.winner.value in c.ops && !c.ops[c.winner.value].kind.Fail? ==> c.claim == c.winner
  }

  lemma {:induction false} ExecKeepsWinner(c: Cell, a: Action)
    requires Inv(c) && ClaimOk(c) && WonByClaim(c)
    ensures WonByClaim(Exec(c, a))
  {
    if a.id in c.ops {
      assert OpOk(c, a.id) && ClaimAgrees(c, a.id);
    }
  }

  lemma {:induction false} RunKeepsWinner(c: Cell, actions: seq<Action>)
    requires Inv(c) && ClaimOk(c) && WonByClaim(c)
    ensures WonByClaim(Run(c, actions))
    decreases |actions|
  {
    if actions == [] {
    } else {
      ExecKeepsInv(c, actions[0]);
      ExecKeepsClaim(c, actions[0]);
      ExecKeepsWinner(c, actions[0]);
      RunKeepsWinner(Exec(c, actions[0]), actions[1..]);
    }
  }

  // The block of the one `set` that had claimed the cell was left, and nobody called `fail`.
  predicate Stalled(c: Cell) {
    && c.claim.Some? && c.claim.value in c.ops && c.ops[c.claim.value].pc.Aborted?
    && forall id | id in c.ops :: !c.ops[id].kind.Fail?
  }

  lemma {:induction false} StalledIsIncomplete(c: Cell)
    requires Inv(c) && WonByClaim(c) && Stalled(c)
    ensures !IsComplete(c)
  {
  }

  lemma {:induction false} QuietIsCompleteOrStalled(c: Cell, i: nat)
    requires Inv(c) && Progress(c) && Quiet(c) && i in c.ops && Settling(c.ops[i].kind) && !Stalled(c)
    ensures IsComplete(c)
  {
    assert Brings(c, c.ops[i]) && OpOk(c, i);
    if c.status.Processing? {
      var j :| j in c.ops && c.ops[j].kind.Fail?;
      assert Brings(c, c.ops[j]) && OpOk(c, j);
    }
  }

  lemma {:induction false} ReachableCells(actions: seq<Action>, future: bool)
    ensures var c := Run(New(future), actions);
            Inv(c) && Progress(c) && ClaimOk(c) && WonByClaim(c) && c.future == future
  {
    NewIsInv(future);
    RunKeepsProgress(New(future), actions);
    RunKeepsClaim(New(future), actions);
    RunKeepsWinner(New(future), actions);
    RunKeepsSort(New(future), actions);
  }

  // Once no call can go on, a cell on which one that settles was called (a `set` or a `fail`
  // of a plain cell, a `set`, a `fail` or an `execute` of a future) is complete if and only
  // if it has not stalled, and then its completer has returned.
  lemma {:induction false} QuietCellsAreComplete(actions: seq<Action>, future: bool, i: nat)
    requires var c := Run(New(future), actions); Quiet(c) && i in c.ops && Settling(c.ops[i].kind)
    ensures var c := Run(New(future), actions);
            && (IsComplete(c) <==> !Stalled(c))
            && (IsComplete(c) ==> c.winner.Some? && c.winner.value in c.ops && c.ops[c.winner.value].pc.Done?)
  {
    ReachableCells(actions, future);
    var c := Run(New(future), actions);
    if Stalled(c) {
      StalledIsIncomplete(c);
    } else {
      QuietIsCompleteOrStalled(c, i);
    }
  }

  // Only a plain cell can stall.
  lemma {:induction false} FuturesNeverStall(actions: seq<Action>)
    ensures !Stalled(Run(New(true), actions))
  {
    ReachableCells(actions, true);
    var c := Run(New(true), actions);
    if c.claim.Some? && c.claim.value in c.ops {
      assert OpOk(c, c.claim.value);
    }
  }

  // Of all the racing calls of `set` and `fail` on a plain cell those return normally that
  // completed it, and all others raise or were left: exactly one unless the cell stalled,
  // and then none.
  lemma {:induction false} OneCallWins(actions: seq<Action>, i: nat)
    requires var c := Run(New(false), actions); Quiet(c) && i in c.ops && Settling(c.ops[i].kind)
    ensures var c := Run(New(false), actions);
            && (IsComplete(c) <==> !Stalled(c)) && (IsComplete(c) <==> c.winner.Some?)
            && (c.winner.Some? ==> c.winner.value in c.ops && Settling(c.ops[c.winner.value].kind))
            && forall j | j in c.ops && Settling(c.ops[j].kind) :: c.ops[j].pc.Done? <==> c.winner == Some(j)
  {
    QuietCellsAreComplete(actions, false, i);
    ReachableCells(actions, false);
    var c := Run(New(false), actions);
    forall j | j in c.ops ensures OpOk(c, j) {
    }
  }

  // A stalled cell stays incomplete in every later state, unless somebody calls `fail`: all
  // further calls of `set` raise.
  lemma {:induction false} StalledForGood(actions: seq<Action>, more: seq<Action>, j: nat)
    requires Stalled(Run(New(false), actions))
    requires forall k | 0 <= k < |more| :: more[k].Call? ==> !more[k].kind.Fail?
    ensures var d := Run(Run(New(false), actions), more);
            Stalled(d) && !IsComplete(d) && (j in d.ops && d.ops[j].kind.Set? ==> !d.ops[j].pc.Done?)
  {
    var c := Run(New(false), actions);
    ReachableCells(actions, false);
    RunKeepsInv(c, more);
    RunKeepsWinner(c, more);
    RunKeepsStalled(c, more);
    var d := Run(c, more);
    StalledIsIncomplete(d);
    assert j in d.ops ==> OpOk(d, j);
  }

  lemma {:induction false} AbortedStays(c: Cell, a: Action, i: nat)
    requires i in c.ops && c.ops[i].pc.Aborted?
    ensures i in Exec(c, a).ops && Exec(c, a).ops[i].pc.Aborted?
  {
    if a.Step? && a.id in c.ops && a.id != i {
      if c.ops[a.id].pc.Start? {
        BeginTouchesOne(c, a.id, i);
      } else {
        AdvanceTouchesOne(c, a, i);
      }
    }
  }

  lemma {:induction false} BeginTouchesOne(c: Cell, id: nat, i: nat)
    requires id in c.ops && i in c.ops && i != id
    ensures i in Begin(c, id).ops && Begin(c, id).ops[i] == c.ops[i]
  {
  }

  lemma {:induction false} AdvanceTouchesOne(c: Cell, a: Action, i: nat)
    requires a.Step? && a.id in c.ops && i in c.ops && i != a.id && !c.ops[a.id].pc.Start?
    ensures i in Advance(c, a).ops && Advance(c, a).ops[i] == c.ops[i]
  {
  }

  lemma {:induction false} OnlyCallsAdd(c: Cell, a: Action)
    ensures forall id | id in Exec(c, a).ops ::
              id in c.ops || (a.Call? && id == a.id && Exec(c, a).ops[id].kind == a.kind)
  {
  }

  lemma {:induction false} ExecKeepsStalled(c: Cell, a: Action)
    requires ClaimOk(c) && Stalled(c) && (a.Call? ==> !a.kind.Fail?)
    ensures ClaimOk(Exec(c, a)) && Stalled(Exec(c, a))
  {
    var d := Exec(c, a);
    ExecKeepsClaim(c, a);
    AbortedStays(c, a, c.claim.value);
    OnlyCallsAdd(c, a);
    forall id | id in d.ops ensures !d.ops[id].kind.Fail? {
      assert id in c.ops ==> d.ops[id].kind == c.ops[id].kind;
    }
  }

  lemma {:induction false} RunKeepsStalled(c: Cell, more: seq<Action>)
    requires ClaimOk(c) && Stalled(c) && forall k | 0 <= k < |more| :: more[k].Call? ==> !more[k].kind.Fail?
    ensures Stalled(Run(c, more))
    decreases |more|
  {
    if more == [] {
    } else {
      ExecKeepsStalled(c, more[0]);
      RunKeepsStalled(Exec(c, more[0]), more[1..]);
    }
  }

  // Every observer added is told at most once, never before the cell is complete, and by
  // the time all calls are through, if any of them settles the cell, exactly once; not at
  // all if the cell stalled.
  lemma {:induction false} ObserversAreToldOnce(actions: seq<Action>, future: bool, x: nat)
    requires var c := Run(New(future), actions); x in c.ops && c.ops[x].kind.Add?
    ensures var c := Run(New(future), actions);
            && Told(c, x) <= 1
            && (Told(c, x) == 1 ==> IsComplete(c))
            && (Quiet(c) && (exists i :: i in c.ops && Settling(c.ops[i].kind)) ==>
                  Told(c, x) == if Stalled(c) then 0 else 1)
  {
    var c := Run(New(future), actions);
    ReachableCells(actions, future);
    assert Accounted(c, x) && OpOk(c, x);
    if Quiet(c) {
      if i :| i in c.ops && Settling(c.ops[i].kind) {
        QuietCellsAreComplete(actions, future, i);
      }
    }
  }

  // --- Cancelling -----------------------------------------------------------------

  // A cancel that succeeded keeps the task from being run, then and in any later state.
  lemma {:induction false} CancelExcludesTheTask(actions: seq<Action>, more: seq<Action>, i: nat, j: nat)
    requires var c := Run(New(true), actions); i in c.ops && c.ops[i].kind.Cancel? && c.claim == Some(i)
    ensures var d := Run(Run(New(true), actions), more);
            d.claim == Some(i) && (j in d.ops ==> !d.ops[j].pc.Running?)
  {
    RunKeepsClaim(New(true), actions);
    RunKeepsClaim(Run(New(true), actions), more);
    var d := Run(Run(New(true), actions), more);
    assert j in d.ops ==> ClaimAgrees(d, j);
    assert i in d.ops ==> ClaimAgrees(d, i);
  }

  // While the task is being run no cancel has succeeded, and none will.
  lemma {:induction false} TaskExcludesCancelling(actions: seq<Action>, more: seq<Action>, i: nat, j: nat)
    requires var c := Run(New(true), actions); j in c.ops && c.ops[j].pc.Running?
    ensures var d := Run(Run(New(true), actions), more);
            d.claim == Some(j) && (i in d.ops && d.ops[i].kind.Cancel? ==> !Claims(d.ops[i]))
  {
    var c := Run(New(true), actions);
    RunKeepsClaim(New(true), actions);
    assert ClaimAgrees(c, j);
    RunKeepsClaim(c, more);
    var d := Run(c, more);
    assert i in d.ops ==> ClaimAgrees(d, i);
  }
}
