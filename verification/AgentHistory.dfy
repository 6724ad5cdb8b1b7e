/**
What an agent's value and its failure owe to the actions it was sent: both are computed
from what the actions did when they were called, and from the restarts.
 */
module AgentHistory {
  import opened Wrappers
  import opened Agent

  // --- The value ----------------------------------------------------------------

  // A worker calls an action, which is no await, and it returns a value the validator takes.
  predicate Accepts(valid: Validator, s: State, a: Action) {
    && a.Step? && a.worker < |s.workers| && s.workers[a.worker].Called? && !s.workers[a.worker].job.await
    && a.outcome.Returns? && valid(a.outcome.value)
  }

  // The values brought by the actions called and by the restarts that had an effect.
  function Brought(valid: Validator, s: State, actions: seq<Action>): seq<int>
    decreases |actions|
  {
    if actions == [] then []
    else Brings(valid, s, actions[0]) + Brought(valid, Exec(valid, s, actions[0]), actions[1..])
  }

  function Brings(valid: Validator, s: State, a: Action): seq<int> {
    if Accepts(valid, s, a) then [a.outcome.value] else if Restarts(valid, s, a) then [a.value] else []
  }

  function Afters(log: seq<Update>): seq<int> { seq(|log|, i requires 0 <= i < |log| => log[i].after) }

  function LastValue(values: seq<int>, otherwise: int): int {
    if values == [] then otherwise else values[|values| - 1]
  }

  lemma {:induction false} ExecBrings(valid: Validator, s: State, a: Action)
    ensures var t := Exec(valid, s, a);
            && Afters(t.log) == Afters(s.log) + Brings(valid, s, a)
            && t.value == LastValue(Brings(valid, s, a), s.value)
  {
    OneUpdate(valid, s, a);
    var t, brings := Exec(valid, s, a), Brings(valid, s, a);
    if brings == [] {
      assert Afters(s.log) + [] == Afters(s.log);
    } else {
      assert Afters(s.log + [Update(s.value, brings[0])]) == Afters(s.log) + [brings[0]];
    }
  }

  lemma {:induction false} OneUpdate(valid: Validator, s: State, a: Action)
    ensures var t, brings := Exec(valid, s, a), Brings(valid, s, a);
            && |brings| <= 1
            && t.value == (if brings == [] then s.value else brings[0])
            && t.log == if brings == [] then s.log else s.log + [Update(s.value, brings[0])]
  {
  }

  lemma {:induction false} OneAfterTheOther(
      log: seq<int>, first: seq<int>, more: seq<int>, value: int, after: seq<int>, last: int)
    requires after == log + first + more && last == LastValue(more, LastValue(first, value))
    ensures after == log + (first + more) && last == LastValue(first + more, value)
  {
  }

  lemma {:induction false} RunBrings(valid: Validator, s: State, actions: seq<Action>)
    ensures var t := Run(valid, s, actions);
            && Afters(t.log) == Afters(s.log) + Brought(valid, s, actions)
            && t.value == LastValue(Brought(valid, s, actions), s.value)
    decreases |actions|
  {
    if actions == [] {
    } else {
      var n := Exec(valid, s, actions[0]);
      ExecBrings(valid, s, actions[0]);
      RunBrings(valid, n, actions[1..]);
      var first, more := Brings(valid, s, actions[0]), Brought(valid, n, actions[1..]);
      var end := Run(valid, n, actions[1..]);
      OneAfterTheOther(Afters(s.log), first, more, s.value, Afters(end.log), end.value);
    }
  }

  // The updates of the value are exactly, and in order, what the called actions returned,
  // if the validator took it, and what effective restarts set; so the value is the last of
  // these, and the initial one as long as there is none. In any run, patient or not.
  lemma {:induction false} ValueIsTheLastBrought(
      valid: Validator, initial: int, failMode: bool, actions: seq<Action>)
    ensures var s, brought := Run(valid, Init(initial, failMode), actions),
                              Brought(valid, Init(initial, failMode), actions);
            Afters(s.log) == brought && s.value == LastValue(brought, initial)
  {
    RunBrings(valid, Init(initial, failMode), actions);
  }

  // --- The failure --------------------------------------------------------------

  // A called action raises, returns what the validator refuses, or makes an observer raise.
  predicate Errs(valid: Validator, s: State, a: Action) {
    && a.Step? && a.worker < |s.workers| && s.workers[a.worker].Called? && !s.workers[a.worker].job.await
    && !a.outcome.Aborts?
    && (a.outcome.Returns? && valid(a.outcome.value) ==> a.outcome.observerRaises)
  }

  // An action went wrong, and no restart had an effect since.
  function Broken(valid: Validator, s: State, actions: seq<Action>, before: bool): bool
    decreases |actions|
  {
    if actions == [] then before
    else
      var now := if Errs(valid, s, actions[0]) then true
                 else if Restarts(valid, s, actions[0]) then false
                 else before;
      Broken(valid, Exec(valid, s, actions[0]), actions[1..], now)
  }

  predicate Recording(s: State) { s.workers != [] && s.workers[0].Failing? }

  lemma {:induction false} ExecFails(valid: Validator, s: State, a: Action, broken: bool)
    requires Serial(s) && (Restarts(valid, s, a) ==> s.workers == [])
    requires s.failed <==> s.failMode && broken && !Recording(s)
    requires Recording(s) ==> broken
    ensures var t := Exec(valid, s, a);
            var now := if Errs(valid, s, a) then true else if Restarts(valid, s, a) then false else broken;
            && t.failMode == s.failMode
            && (t.failed <==> t.failMode && now && !Recording(t)) && (Recording(t) ==> now)
  {
    if a.Step? && a.worker < |s.workers| {
      StepFails(valid, s, a, broken);
    }
  }

  lemma {:induction false} StepFails(valid: Validator, s: State, a: Action, broken: bool)
    requires Serial(s) && a.Step? && a.worker < |s.workers|
    requires s.failed <==> s.failMode && broken && !Recording(s)
    requires Recording(s) ==> broken
    ensures var t := Exec(valid, s, a);
            var now := Errs(valid, s, a) || broken;
            && t.failMode == s.failMode
            && (t.failed <==> t.failMode && now && !Recording(t)) && (Recording(t) ==> now)
  {
    assert s.workers == [s.workers[0]];
    if s.workers[0].Leaving? {
      var t := Shift(s, 0);
      assert t.workers == if s.failed || t.queue == [] then [] else [Posted];
    }
  }

  lemma {:induction false} RunFails(valid: Validator, s: State, actions: seq<Action>, broken: bool)
    requires Inv(valid, s) && Patient(valid, s, actions)
    requires s.failed <==> s.failMode && broken && !Recording(s)
    requires Recording(s) ==> broken
    ensures var t := Run(valid, s, actions);
            && t.failMode == s.failMode
            && (t.failed <==> t.failMode && Broken(valid, s, actions, broken) && !Recording(t))
    decreases |actions|
  {
    if actions == [] {
    } else {
      var a := actions[0];
      var now := if Errs(valid, s, a) then true else if Restarts(valid, s, a) then false else broken;
      ExecFails(valid, s, a, broken);
      ExecKeepsInv(valid, s, a);
      RunFails(valid, Exec(valid, s, a), actions[1..], now);
    }
  }

  // An agent is failed if and only if its mode is to fail, one of its actions went wrong
  // since the last effective restart, and that has been recorded.
  lemma {:induction false} FailsIff(valid: Validator, initial: int, failMode: bool, actions: seq<Action>)
    requires Patient(valid, Init(initial, failMode), actions)
    ensures var s := Run(valid, Init(initial, failMode), actions);
            s.failed <==> failMode && Broken(valid, Init(initial, failMode), actions, false) && !Recording(s)
  {
    RunFails(valid, Init(initial, failMode), actions, false);
  }

  // --- The dispatches -------------------------------------------------------------

  // A failed agent refuses actions, never awaits.
  predicate Dispatches(s: State, a: Action) { a.Await? || (a.Send? && !s.failed) }

  function Dispatched(valid: Validator, s: State, actions: seq<Action>): nat
    decreases |actions|
  {
    if actions == [] then 0
    else (if Dispatches(s, actions[0]) then 1 else 0) + Dispatched(valid, Exec(valid, s, actions[0]), actions[1..])
  }

  lemma {:induction false} RunDispatches(valid: Validator, s: State, actions: seq<Action>)
    ensures Run(valid, s, actions).next == s.next + Dispatched(valid, s, actions)
    decreases |actions|
  {
    if actions == [] {
    } else {
      RunDispatches(valid, Exec(valid, s, actions[0]), actions[1..]);
    }
  }

  // Every dispatch counts: unless a restart clears the queue, there is one job called, one
  // latch opened or one job pending for each, bearing its number.
  lemma {:induction false} EveryDispatchCounts(
      valid: Validator, initial: int, failMode: bool, actions: seq<Action>, id: nat)
    requires Patient(valid, Init(initial, failMode), actions) && Keeping(valid, Init(initial, failMode), actions)
    ensures var s := Run(valid, Init(initial, failMode), actions);
            && s.next == Dispatched(valid, Init(initial, failMode), actions)
            && (id < s.next ==> Somewhere(s, id))
  {
    RunDispatches(valid, Init(initial, failMode), actions);
    if id < Run(valid, Init(initial, failMode), actions).next {
      NoJobIsLost(valid, initial, failMode, actions, id);
    }
  }
}
