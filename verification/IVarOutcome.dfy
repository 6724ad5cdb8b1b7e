/**
What a cell is completed with: the outcome of its winner's block, read off the actions.
 */
module IVarOutcome {
  import opened Wrappers
  import opened IVar

  // What a block or a task did: it returned v, or it raised.
  datatype Answer = Answer(ok: bool, v: int)

  // The outcome of call w's block or task, when it is evaluated.
  function AnswerOf(c: Cell, actions: seq<Action>, w: nat): Option<Answer>
    decreases |actions|
  {
    if actions == [] then None
    else
      var a := actions[0];
      if a.Step? && a.id == w && w in c.ops && c.ops[w].pc.Running? then Some(Answer(a.ok, a.v))
      else AnswerOf(Exec(c, a), actions[1..], w)
  }

  // The cell holds what the answer says: its value, or no value and a reason.
  predicate Holds(c: Cell, answer: Answer) {
    if answer.ok then c.status.Fulfilled? && c.value == answer.v else c.status.Rejected? && c.value == 0
  }

  // Whose block is evaluated, and what the others complete with.
  predicate Shaped(op: Op) {
    && (op.pc.Running? ==> op.kind.Set? || Executes(op.kind))
    && (op.pc.Completing? ==> !op.kind.Add? && (!op.pc.success ==> op.pc.value == 0))
    && (op.pc.Completing? && (op.kind.Fail? || op.kind.Cancel?) ==> !op.pc.success)
  }

  ghost predicate AllShaped(c: Cell) { forall id | id in c.ops :: Shaped(c.ops[id]) }

  lemma {:induction false} ExecKeepsShape(c: Cell, a: Action)
    requires Inv(c) && AllShaped(c)
    ensures AllShaped(Exec(c, a))
    ensures forall id | id in c.ops :: id in Exec(c, a).ops && Exec(c, a).ops[id].kind == c.ops[id].kind
  {
    var d := Exec(c, a);
    OnlyCallsAdd(c, a);
    if a.Step? && a.id in c.ops {
      assert OpOk(c, a.id) && Shaped(c.ops[a.id]);
      StepKeepsShape(c, a);
      forall id | id in c.ops && id != a.id ensures id in d.ops && d.ops[id] == c.ops[id] {
        StepTouchesOne(c, a, id);
      }
    }
  }

  lemma {:induction false} StepTouchesOne(c: Cell, a: Action, i: nat)
    requires a.Step? && a.id in c.ops && i in c.ops && i != a.id
    ensures i in Advance(c, a).ops && Advance(c, a).ops[i] == c.ops[i]
  {
    if c.ops[a.id].pc.Start? {
      BeginTouchesOne(c, a.id, i);
    } else {
      AdvanceTouchesOne(c, a, i);
    }
  }

  lemma {:induction false} StepKeepsShape(c: Cell, a: Action)
    requires a.Step? && a.id in c.ops && OpOk(c, a.id) && Shaped(c.ops[a.id])
    ensures a.id in Advance(c, a).ops && Shaped(Advance(c, a).ops[a.id])
    ensures Advance(c, a).ops[a.id].kind == c.ops[a.id].kind
  {
    if c.ops[a.id].pc.Start? {
      BeginKeepsShape(c, a.id);
    }
  }

  lemma {:induction false} BeginKeepsShape(c: Cell, id: nat)
    requires id in c.ops
    ensures id in Begin(c, id).ops && Shaped(Begin(c, id).ops[id]) && Begin(c, id).ops[id].kind == c.ops[id].kind
  {
  }

  // A cell is completed by the call that was about to, with what it was about to.
  lemma {:induction false} OneStepCompletes(c: Cell, a: Action)
    requires Inv(c) && AllShaped(c) && !IsComplete(c) && IsComplete(Exec(c, a))
    ensures var d := Exec(c, a);
            && a.Step? && a.id in c.ops && c.ops[a.id].pc.Completing? && d.winner == Some(a.id)
            && Holds(d, Answer(c.ops[a.id].pc.success, c.ops[a.id].pc.value))
  {
    if a.Step? && a.id in c.ops {
      assert OpOk(c, a.id) && Shaped(c.ops[a.id]);
    }
  }

  // What call w, if it is the one to complete the cell, will complete it with.
  ghost predicate Decides(c: Cell, actions: seq<Action>, w: nat, d: Cell) {
    && w in d.ops && !d.ops[w].kind.Add?
    && if w in c.ops && c.ops[w].pc.Completing? then Holds(d, Answer(c.ops[w].pc.success, c.ops[w].pc.value))
       else if d.ops[w].kind.Fail? || d.ops[w].kind.Cancel? then d.status.Rejected? && d.value == 0
       else AnswerOf(c, actions, w).Some? && Holds(d, AnswerOf(c, actions, w).value)
  }

  lemma {:induction false} RunDecides(c: Cell, actions: seq<Action>, w: nat)
    requires Inv(c) && AllShaped(c) && !IsComplete(c)
    requires IsComplete(Run(c, actions)) && Run(c, actions).winner == Some(w)
    ensures Decides(c, actions, w, Run(c, actions))
    decreases |actions|
  {
    var a := actions[0];
    var n := Exec(c, a);
    ExecKeepsInv(c, a);
    ExecKeepsShape(c, a);
    if IsComplete(n) {
      OneStepCompletes(c, a);
      OutcomeIsFinal(n, actions[1..]);
      RunKeepsInv(n, actions[1..]);
      assert OpOk(c, w) && Shaped(c.ops[w]);
      KindsStay(n, actions[1..], w);
    } else {
      RunDecides(n, actions[1..], w);
      if w in c.ops {
        KindsStay(n, actions[1..], w);
      }
      StillDecides(c, a, actions[1..], w, Run(n, actions[1..]));
    }
  }

  lemma {:induction false} KindsStay(c: Cell, actions: seq<Action>, w: nat)
    requires Inv(c) && AllShaped(c) && w in c.ops
    ensures w in Run(c, actions).ops && Run(c, actions).ops[w].kind == c.ops[w].kind
    decreases |actions|
  {
    if actions == [] {
    } else {
      ExecKeepsInv(c, actions[0]);
      ExecKeepsShape(c, actions[0]);
      KindsStay(Exec(c, actions[0]), actions[1..], w);
    }
  }

  lemma {:induction false} StillDecides(c: Cell, a: Action, actions: seq<Action>, w: nat, d: Cell)
    requires Inv(c) && AllShaped(c) && !IsComplete(c) && !IsComplete(Exec(c, a))
    requires Decides(Exec(c, a), actions, w, d) && (w in c.ops ==> d.ops[w].kind == c.ops[w].kind)
    ensures Decides(c, [a] + actions, w, d)
  {
    assert ([a] + actions)[1..] == actions;
    if w in c.ops && a.Step? && a.id == w {
      OwnStepDecides(c, a);
    } else {
      OthersLeaveIt(c, a, w);
    }
  }

  // The call's own step brings it to completing with what its block did, or leaves it short
  // of evaluating one.
  lemma {:induction false} OwnStepDecides(c: Cell, a: Action)
    requires Inv(c) && AllShaped(c) && a.Step? && a.id in c.ops
    requires !IsComplete(c) && !IsComplete(Exec(c, a))
    ensures var n, op := Exec(c, a), c.ops[a.id];
            && a.id in n.ops && !op.pc.Completing?
            && (op.pc.Running? ==> n.ops[a.id].pc.Completing? && (op.kind.Set? || Executes(op.kind))
                                   && n.ops[a.id].pc.success == a.ok && n.ops[a.id].pc.value == if a.ok then a.v else 0)
            && (!op.pc.Running? && n.ops[a.id].pc.Completing? ==>
                  (op.kind.Fail? || op.kind.Cancel?) && !n.ops[a.id].pc.success && n.ops[a.id].pc.value == 0)
  {
    assert OpOk(c, a.id) && Shaped(c.ops[a.id]);
  }

  lemma {:induction false} OthersLeaveIt(c: Cell, a: Action, w: nat)
    requires !(a.Step? && a.id == w && w in c.ops)
    ensures w in c.ops ==> w in Exec(c, a).ops
    ensures w in c.ops && !a.Abort? ==> Exec(c, a).ops[w] == c.ops[w]
    ensures w in c.ops && Exec(c, a).ops[w] != c.ops[w] ==> c.ops[w].pc.Running? && Exec(c, a).ops[w].pc.Aborted?
    ensures w !in c.ops && w in Exec(c, a).ops ==> Exec(c, a).ops[w].pc.Start?
  {
    OnlyCallsAdd(c, a);
    if a.Step? && a.id in c.ops && w in c.ops {
      StepTouchesOne(c, a, w);
    }
  }

  // A cell that is complete holds what its winner's block or task did: the value it
  // returned, or nothing but the rejection if it raised. One that `fail` or `cancel`
  // completed is rejected.
  lemma {:induction false} WinnerDecides(actions: seq<Action>, future: bool)
    requires IsComplete(Run(New(future), actions))
    ensures var c := Run(New(future), actions);
            && c.winner.Some? && c.winner.value in c.ops
            && var w := c.winner.value;
               var kind := c.ops[w].kind;
               && (kind.Set? || Executes(kind) ==>
                     AnswerOf(New(future), actions, w).Some? && Holds(c, AnswerOf(New(future), actions, w).value))
               && (kind.Fail? || kind.Cancel? ==> c.status.Rejected? && c.value == 0)
               && !kind.Add?
  {
    ReachableCells(actions, future);
    NewIsInv(future);
    RunDecides(New(future), actions, Run(New(future), actions).winner.value);
  }

  // --- Who gets to complete it ------------------------------------------------------

  // A `set` that comes first on a plain cell, run to its end without interference, completes
  // it with what its block did.
  lemma {:induction false} FirstSetSucceeds(actions: seq<Action>, i: nat, ok: bool, v: int, x: nat)
    requires var c := Run(New(false), actions); c.status.Pending? && i in c.ops && c.ops[i] == Op(Set, Start)
    ensures var d := Run(Run(New(false), actions), [Step(i, ok, v, x), Step(i, ok, v, x), Step(i, ok, v, x)]);
            IsComplete(d) && d.winner == Some(i) && Holds(d, Answer(ok, v))
  {
    var c, a := Run(New(false), actions), Step(i, ok, v, x);
    assert [a, a, a][1..] == [a, a] && [a, a][1..] == [a] && [a][1..] == [];
    assert Run(c, [a, a, a]) == Run(Exec(c, a), [a, a]);
    assert Run(Exec(c, a), [a, a]) == Run(Exec(Exec(c, a), a), [a]);
    assert Run(Exec(Exec(c, a), a), [a]) == Exec(Exec(Exec(c, a), a), a);
  }

  // A future's `set` that comes first gives the future its task and posts it; one that comes
  // when the future has been scheduled raises, and so it never does anything.
  lemma {:induction false} FirstAssignSchedules(c: Cell, i: nat, a: Action)
    requires a.Step? && a.id == i && i in c.ops && c.ops[i] == Op(Assign, Start)
    ensures c.status.Unscheduled? ==>
              Exec(Exec(c, a), a).status.Pending? && Exec(Exec(c, a), a).ops[i].pc.Posted?
    ensures !c.status.Unscheduled? ==> Exec(c, a) == c.(ops := c.ops[i := Op(Assign, Raised)])
  {
  }

  lemma {:induction false} LateAssignRaises(actions: seq<Action>, more: seq<Action>, i: nat)
    requires var c := Run(New(true), actions);
             !c.status.Unscheduled? && i in c.ops && c.ops[i] == Op(Assign, Start)
    ensures var d := Run(Run(New(true), actions), more);
            i in d.ops && (d.ops[i] == Op(Assign, Start) || d.ops[i] == Op(Assign, Raised))
  {
    LateAssignStays(Run(New(true), actions), more, i);
  }

  lemma {:induction false} LateAssignStays(c: Cell, more: seq<Action>, i: nat)
    requires !c.status.Unscheduled? && i in c.ops
    requires c.ops[i] == Op(Assign, Start) || c.ops[i] == Op(Assign, Raised)
    ensures var d := Run(c, more);
            i in d.ops && (d.ops[i] == Op(Assign, Start) || d.ops[i] == Op(Assign, Raised))
    decreases |more|
  {
    if more == [] {
    } else {
      LateAssignStep(c, more[0], i);
      LateAssignStays(Exec(c, more[0]), more[1..], i);
    }
  }

  lemma {:induction false} LateAssignStep(c: Cell, a: Action, i: nat)
    requires !c.status.Unscheduled? && i in c.ops
    requires c.ops[i] == Op(Assign, Start) || c.ops[i] == Op(Assign, Raised)
    ensures var d := Exec(c, a);
            !d.status.Unscheduled? && i in d.ops && (d.ops[i] == Op(Assign, Start) || d.ops[i] == Op(Assign, Raised))
  {
    if a.Step? && a.id in c.ops && a.id != i {
      StepTouchesOne(c, a, i);
    }
  }

  // A cancel that comes before the task has been picked up succeeds, and whatever is
  // interleaved with its second step, the task is not run.
  lemma {:induction false} EarlyCancelSucceeds(actions: seq<Action>, i: nat, a: Action, more: seq<Action>, j: nat)
    requires var c := Run(New(true), actions); c.status.Pending? && i in c.ops && c.ops[i] == Op(Cancel, Start)
    requires a.Step? && a.id == i
    ensures var c := Run(New(true), actions);
            && Exec(c, a).claim == Some(i)
            && (IsComplete(Exec(Exec(c, a), a)) && Exec(Exec(c, a), a).winner == Some(i)
                && Exec(Exec(c, a), a).status.Rejected?)
            && (j in Run(Exec(c, a), more).ops ==> !Run(Exec(c, a), more).ops[j].pc.Running?)
  {
    RunThenOne(New(true), actions, a);
    CancelExcludesTheTask(actions + [a], more, i, j);
  }

  // A `fail` completes a cell that is not complete, in its second step.
  lemma {:induction false} FailSucceeds(c: Cell, i: nat, a: Action)
    requires a.Step? && a.id == i && i in c.ops && c.ops[i] == Op(Fail, Start) && !IsComplete(c)
    ensures var d := Exec(Exec(c, a), a); IsComplete(d) && d.winner == Some(i) && d.status.Rejected?
  {
  }

  lemma {:induction false} RunThenOne(c: Cell, actions: seq<Action>, a: Action)
    ensures Run(c, actions + [a]) == Exec(Run(c, actions), a)
    decreases |actions|
  {
    if actions == [] {
      assert actions + [a] == [a];
      assert Run(Exec(c, a), []) == Exec(c, a);
    } else {
      assert (actions + [a])[1..] == actions[1..] + [a];
      RunThenOne(Exec(c, actions[0]), actions[1..], a);
    }
  }
}
