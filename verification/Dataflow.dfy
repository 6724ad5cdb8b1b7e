/**
`dataflow`: one counter, registered as an observer with every input, runs the block
when it has counted them all. The inputs are single-assignment cells, of which only
their promise is used: an observer in the set when a cell completes is told once, one
added later is told directly, and the set holds an observer at most once.
 */
module Dataflow {
  // `registered` inputs have been visited by the registering loop; `observing` cells
  // hold the counter in their observer set; `due` notifications are on their way;
  // `told` have been counted down; `runs` counts the block's executions.
  datatype State = State(
    inputs: seq<nat>, registered: nat, complete: set<nat>, observing: set<nat>,
    due: nat, told: nat, counter: int, runs: nat)

  datatype Action = Register | Complete(cell: nat) | Deliver

  // With no inputs the block is executed right away.
  function Init(inputs: seq<nat>, complete: set<nat>): State {
    State(inputs, 0, complete, {}, 0, 0, |inputs|, if inputs == [] then 1 else 0)
  }

  function Exec(s: State, a: Action): State {
    match a
    case Register =>
      if s.registered >= |s.inputs| then s
      else
        var cell, next := s.inputs[s.registered], s.(registered := s.registered + 1);
        if cell in s.complete then next.(due := s.due + 1) else next.(observing := s.observing + {cell})
    case Complete(cell) =>
      if cell in s.complete then s
      else
        s.(complete := s.complete + {cell}, observing := s.observing - {cell},
           due := s.due + if cell in s.observing then 1 else 0)
    case Deliver =>
      if s.due == 0 then s
      else
        s.(due := s.due - 1, told := s.told + 1, counter := s.counter - 1,
           runs := s.runs + if s.counter - 1 == 0 then 1 else 0)
  }

  function Run(s: State, actions: seq<Action>): State
    decreases |actions|
  {
    if actions == [] then s else Run(Exec(s, actions[0]), actions[1..])
  }

  predicate Distinct(inputs: seq<nat>) { forall i, j | 0 <= i < j < |inputs| :: inputs[i] != inputs[j] }

  // Everything has happened: all inputs are complete, the loop is through, nothing is
  // on its way.
  predicate Settled(s: State) {
    s.registered == |s.inputs| && s.due == 0 && forall x | x in s.inputs :: x in s.complete
  }

  // --- The invariant ------------------------------------------------------------

  // Where the counter is registered: with inputs the loop has visited, and with all of
  // them that are not complete.
  ghost predicate Places(s: State) {
    && s.registered <= |s.inputs|
    && s.observing !! s.complete
    && (forall x | x in s.observing :: x in s.inputs[..s.registered])
    && (forall k | 0 <= k < s.registered && s.inputs[k] !in s.complete :: s.inputs[k] in s.observing)
  }

  // Notifications never exceed registrations; among distinct inputs none is lost.
  ghost predicate Counted(s: State) {
    && s.counter == |s.inputs| - s.told
    && Count(s) <= s.registered
    && (Distinct(s.inputs) ==> Count(s) == s.registered)
    && s.runs == if s.counter == 0 then 1 else 0
  }

  ghost predicate Inv(s: State) { Places(s) && Counted(s) }

  // The notifications given, on their way, or still owed by a cell.
  function Count(s: State): nat { s.told + s.due + |s.observing| }

  // A repeated input adds nothing to a set that holds it already.
  lemma {:induction false} RegisterCounts(s: State)
    requires Inv(s) && s.registered < |s.inputs|
    ensures var n := Count(Exec(s, Register)); n <= Count(s) + 1 && (Distinct(s.inputs) ==> n == Count(s) + 1)
  {
  }

  lemma {:induction false} RegisterKeepsPlaces(s: State)
    requires Places(s) && s.registered < |s.inputs|
    ensures Places(Exec(s, Register))
  {
  }

  lemma {:induction false} RegisterKeepsInv(s: State)
    requires Inv(s) && s.registered < |s.inputs|
    ensures Inv(Exec(s, Register))
  {
    RegisterKeepsPlaces(s);
    RegisterCounts(s);
  }

  lemma {:induction false} ExecKeepsInv(s: State, a: Action)
    requires Inv(s)
    ensures Inv(Exec(s, a)) && Exec(s, a).inputs == s.inputs
    ensures !a.Register? ==> Count(Exec(s, a)) == Count(s)
  {
    match a
    case Register => if s.registered < |s.inputs| { RegisterKeepsInv(s); }
    case Complete(cell) =>
    case Deliver =>
  }

  lemma {:induction false} RunKeepsInv(s: State, actions: seq<Action>)
    requires Inv(s)
    ensures Inv(Run(s, actions)) && Run(s, actions).inputs == s.inputs
    ensures Register !in actions ==> Count(Run(s, actions)) == Count(s) && Run(s, actions).registered == s.registered
    decreases |actions|
  {
    if actions == [] {
    } else {
      ExecKeepsInv(s, actions[0]);
      RunKeepsInv(Exec(s, actions[0]), actions[1..]);
    }
  }

  // In any schedule, over any inputs, the block runs at most once, and only when the
  // loop is through and every input is complete.
  lemma {:induction false} BlockWaitsForAll(inputs: seq<nat>, complete: set<nat>, actions: seq<Action>)
    ensures var s := Run(Init(inputs, complete), actions);
            s.runs <= 1 && (s.runs == 1 ==> Settled(s))
  {
    RunKeepsInv(Init(inputs, complete), actions);
  }

  lemma {:induction false} SettledOwesNothing(s: State)
    requires Inv(s) && Settled(s)
    ensures s.observing == {} && s.told == Count(s)
  {
  }

  // Distinct inputs: once everything has happened, the block has run exactly once.
  lemma {:induction false} DistinctInputsRunOnce(inputs: seq<nat>, complete: set<nat>, actions: seq<Action>)
    requires Distinct(inputs) && Settled(Run(Init(inputs, complete), actions))
    ensures Run(Init(inputs, complete), actions).runs == 1
  {
    RunKeepsInv(Init(inputs, complete), actions);
    SettledOwesNothing(Run(Init(inputs, complete), actions));
  }

  // --- Repeated inputs ------------------------------------------------------------

  function Elements(xs: seq<nat>): set<nat> {
    if xs == [] then {} else Elements(xs[..|xs| - 1]) + {xs[|xs| - 1]}
  }

  lemma {:induction false} ElementsAre(xs: seq<nat>)
    ensures forall x :: x in Elements(xs) <==> x in xs
  {
    if xs == [] {
    } else {
      ElementsAre(xs[..|xs| - 1]);
      assert xs == xs[..|xs| - 1] + [xs[|xs| - 1]];
    }
  }

  lemma {:induction false} RepeatsAreFewer(xs: seq<nat>)
    ensures |Elements(xs)| <= |xs|
    ensures !Distinct(xs) ==> |Elements(xs)| < |xs|
  {
    if xs == [] {
    } else {
      var init, last := xs[..|xs| - 1], xs[|xs| - 1];
      RepeatsAreFewer(init);
      ElementsAre(init);
      if last in init {
        assert Elements(init) + {last} == Elements(init);
      } else if i, j :| 0 <= i < j < |xs| && xs[i] == xs[j] {
        assert xs[i] == init[i];
        assert j < |init|;
        assert init[i] == init[j];
      }
    }
  }

  // The schedule that loses a repeated input: the loop goes through before any cell is
  // complete.
  function Registers(n: nat): seq<Action> { seq(n, _ => Register) }

  function Completes(cells: seq<nat>): seq<Action> {
    seq(|cells|, i requires 0 <= i < |cells| => Complete(cells[i]))
  }

  function Delivers(n: nat): seq<Action> { seq(n, _ => Deliver) }

  function Registered(inputs: seq<nat>, k: nat): State
    requires k <= |inputs|
  {
    Init(inputs, {}).(registered := k, observing := Elements(inputs[..k]))
  }

  lemma {:induction false} RegisterAll(inputs: seq<nat>, k: nat)
    requires k <= |inputs|
    ensures Run(Registered(inputs, k), Registers(|inputs| - k)) == Registered(inputs, |inputs|)
    decreases |inputs| - k
  {
    if k < |inputs| {
      assert Registers(|inputs| - k)[1..] == Registers(|inputs| - k - 1);
      assert inputs[..k + 1][..k] == inputs[..k];
      RegisterAll(inputs, k + 1);
    }
  }

  lemma {:induction false} CompleteAll(s: State, cells: seq<nat>)
    ensures var t := Run(s, Completes(cells)); s.complete <= t.complete && forall x | x in cells :: x in t.complete
    decreases |cells|
  {
    if cells == [] {
    } else {
      assert Completes(cells)[1..] == Completes(cells[1..]);
      CompleteAll(Exec(s, Complete(cells[0])), cells[1..]);
    }
  }

  lemma {:induction false} DeliverAll(s: State, n: nat)
    requires n == s.due
    ensures var t := Run(s, Delivers(n)); t.due == 0 && t.complete == s.complete
    decreases n
  {
    if n > 0 {
      assert Delivers(n)[1..] == Delivers(n - 1);
      DeliverAll(Exec(s, Deliver), n - 1);
    }
  }

  lemma {:induction false} RegisteredKeepsInv(inputs: seq<nat>)
    ensures Registered(inputs, 0) == Init(inputs, {})
    ensures var s := Registered(inputs, |inputs|); Inv(s) && s.counter == |inputs|
  {
    RegisterAll(inputs, 0);
    RunKeepsInv(Init(inputs, {}), Registers(|inputs|));
  }

  // From there the cells complete and all notifications arrive.
  function Rest(s: State): seq<Action> {
    Completes(s.inputs) + Delivers(Run(s, Completes(s.inputs)).due)
  }

  lemma {:induction false} RestSettles(s: State)
    requires Inv(s) && s.registered == |s.inputs|
    ensures Register !in Rest(s)
    ensures var t := Run(s, Rest(s)); Settled(t) && Inv(t) && t.inputs == s.inputs && Count(t) == Count(s)
  {
    var completed := Run(s, Completes(s.inputs));
    CompleteAll(s, s.inputs);
    RunSplits(s, Completes(s.inputs), Delivers(completed.due));
    RunKeepsInv(s, Rest(s));
    DeliverAll(completed, completed.due);
  }

  // So distinctness is exactly what a caller must see to: with a repeated input there
  // is a schedule in which everything happens and the block never runs.
  lemma {:induction false} RepeatedInputCanHang(inputs: seq<nat>) returns (registering: seq<Action>, rest: seq<Action>)
    requires !Distinct(inputs)
    ensures var s := Run(Run(Init(inputs, {}), registering), rest); Settled(s) && s.runs == 0
  {
    var all := Registered(inputs, |inputs|);
    registering, rest := Registers(|inputs|), Rest(all);
    RegisteredKeepsInv(inputs);
    RegisterAll(inputs, 0);
    RestSettles(all);
    SettledOwesNothing(Run(all, rest));
    assert inputs[..|inputs|] == inputs;
    RepeatsAreFewer(inputs);
  }

  lemma {:induction false} RunSplits(s: State, first: seq<Action>, more: seq<Action>)
    ensures Run(s, first + more) == Run(Run(s, first), more)
    decreases |first|
  {
    if first == [] {
      assert first + more == more;
    } else {
      assert (first + more)[1..] == first[1..] + more;
      RunSplits(Exec(s, first[0]), first[1..], more);
    }
  }
}
