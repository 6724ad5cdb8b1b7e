/**
The mailbox behind `async`: calls are queued, and the one that finds the queue empty
posts a loop which performs calls until the queue is empty again. Each synchronized
block, each call of the wrapped object and each completion of a result is a step.
 */
module Async {
  import opened Wrappers

  datatype Outcome = Fulfilled(value: int) | Rejected

  // A loop that drains the queue.
  datatype Drainer =
    | Posted                                      // about to read the head of the queue
    | Calling(call: nat)                          // about to call the wrapped object
    | Completing(call: nat, outcome: Outcome)     // about to complete the call's result
    | Shifting                                    // about to take the head off the queue

  // No outcome: the call left the loop, by an exception that is no StandardError.
  datatype Performed = Performed(call: nat, outcome: Option<Outcome>)

  // A call bears the number of its arrival. `results` holds the completed results,
  // `performed` what the wrapped object did, which is history.
  datatype State = State(
    queue: seq<nat>, drainers: seq<Drainer>, arrived: nat,
    results: map<nat, Outcome>, performed: seq<Performed>)

  datatype Action =
    | Call
    | Step(drainer: nat, outcome: Outcome)
    | Abort(drainer: nat)
    | Meddle(call: nat, outcome: Outcome)

  function Init(): State { State([], [], 0, map[], []) }

  // `method_missing`.
  function Push(s: State): State {
    var queue := s.queue + [s.arrived];
    s.(queue := queue, arrived := s.arrived + 1, drainers := if |queue| == 1 then s.drainers + [Posted] else s.drainers)
  }

  function Goto(s: State, i: nat, d: Drainer): State
    requires i < |s.drainers|
  {
    s.(drainers := s.drainers[i := d])
  }

  function Drop(s: State, i: nat): State
    requires i < |s.drainers|
  {
    s.(drainers := s.drainers[..i] + s.drainers[i + 1..])
  }

  // A result completed before makes `set` raise, then `fail` within the rescue, and the
  // second error leaves the loop.
  function Complete(s: State, i: nat, call: nat, outcome: Outcome): State
    requires i < |s.drainers|
  {
    if call in s.results then Drop(s, i) else Goto(s.(results := s.results[call := outcome]), i, Shifting)
  }

  function Shift(s: State, i: nat): State
    requires i < |s.drainers|
  {
    var t := s.(queue := if s.queue == [] then [] else s.queue[1..]);
    if t.queue == [] then Drop(t, i) else Goto(t, i, Posted)
  }

  // `perform`.
  function Advance(s: State, i: nat, outcome: Outcome): State
    requires i < |s.drainers|
  {
    match s.drainers[i]
    case Posted => if s.queue == [] then Drop(s, i) else Goto(s, i, Calling(s.queue[0]))
    case Calling(call) =>
      Goto(s.(performed := s.performed + [Performed(call, Some(outcome))]), i, Completing(call, outcome))
    case Completing(call, o) => Complete(s, i, call, o)
    case Shifting => Shift(s, i)
  }

  // The called method raises what neither rescue takes: the loop ends there and then.
  function DoAbort(s: State, i: nat): State
    requires i < |s.drainers|
  {
    if s.drainers[i].Calling? then Drop(s.(performed := s.performed + [Performed(s.drainers[i].call, None)]), i) else s
  }

  function Exec(s: State, a: Action): State {
    match a
    case Abort(i) => if i < |s.drainers| then DoAbort(s, i) else s
    case Call => Push(s)
    case Step(i, outcome) => if i < |s.drainers| then Advance(s, i, outcome) else s
    case Meddle(call, outcome) =>
      if call < s.arrived && call !in s.results then
        s.(results := s.results[call := outcome])
      else s
  }

  function Run(s: State, actions: seq<Action>): State
    decreases |actions|
  {
    if actions == [] then s else Run(Exec(s, actions[0]), actions[1..])
  }

  // No client completes a result that is still due (trying to complete another only
  // raises in the client), and no called method raises other than StandardErrors.
  predicate Smooth(s: State, actions: seq<Action>)
    decreases |actions|
  {
    actions == [] ||
    ((match actions[0]
      case Meddle(call, _) => call in s.results || call >= s.arrived
      case Abort(i) => i >= |s.drainers| || !s.drainers[i].Calling?
      case _ => true)
     && Smooth(Exec(s, actions[0]), actions[1..]))
  }

  // --- The invariant ------------------------------------------------------------

  predicate PastCall(d: Drainer) { d.Completing? || d.Shifting? }

  // How many calls have left the queue.
  function Gone(s: State): int { s.arrived - |s.queue| }

  // The calls performed so far are the first ones, in order; the queue holds the rest,
  // and its head while that is being completed.
  ghost predicate InOrder(s: State) {
    && 0 <= Gone(s) <= |s.performed| <= Gone(s) + 1 && |s.performed| <= s.arrived
    && (forall k | 0 <= k < |s.performed| :: s.performed[k].call == k)
    && (forall k | 0 <= k < |s.queue| :: s.queue[k] == Gone(s) + k)
  }

  ghost predicate DrainerOk(s: State, d: Drainer) {
    && s.queue != []
    && (d.Calling? || d.Completing? ==> d.call == s.queue[0])
    && (d.Completing? ==> s.performed != [] && s.performed[|s.performed| - 1] == Performed(d.call, Some(d.outcome)))
    && (d.Shifting? ==> s.queue[0] in s.results)
    && |s.performed| == (if PastCall(d) then Gone(s) + 1 else Gone(s))
  }

  // Whatever clients do.
  ghost predicate Inv(s: State) {
    && |s.drainers| <= 1
    && (s.drainers != [] ==> DrainerOk(s, s.drainers[0]))
    && InOrder(s)
    && (forall c | c in s.results :: c < s.arrived)
  }

  // In smooth runs: a loop exactly while there are calls, and exactly the calls whose
  // completion step is over have their result, which is what the call gave.
  ghost predicate Sound(s: State) {
    var completed := if s.drainers != [] && s.drainers[0].Completing? then |s.performed| - 1 else |s.performed|;
    && |s.drainers| == (if s.queue == [] then 0 else 1)
    && (s.queue == [] ==> |s.performed| == s.arrived)
    && (forall c | c in s.results :: c < completed)
    && (forall c: nat | c < completed :: c in s.results && Some(s.results[c]) == s.performed[c].outcome)
  }

  lemma {:induction false} StepKeepsInv(s: State, outcome: Outcome)
    requires Inv(s) && s.drainers != []
    ensures Inv(Exec(s, Step(0, outcome)))
  {
    var d := s.drainers[0];
    if d.Calling? {
      CallingKeepsInv(s, outcome);
    } else if d.Shifting? {
      ShiftKeepsInv(s);
    }
  }

  lemma {:induction false} CallingKeepsInv(s: State, outcome: Outcome)
    requires Inv(s) && s.drainers != [] && s.drainers[0].Calling?
    ensures Inv(Exec(s, Step(0, outcome)))
  {
    var t := Exec(s, Step(0, outcome));
    assert forall k | 0 <= k < |s.performed| :: t.performed[k] == s.performed[k];
  }

  lemma {:induction false} ShiftKeepsInv(s: State)
    requires Inv(s) && s.drainers != [] && s.drainers[0].Shifting?
    ensures Inv(Shift(s, 0))
  {
    var t := Shift(s, 0);
    assert forall k | 0 <= k < |t.queue| :: t.queue[k] == s.queue[k + 1];
    assert |t.drainers| <= 1;
  }

  lemma {:induction false} AbortKeepsInv(s: State)
    requires Inv(s) && s.drainers != []
    ensures Inv(DoAbort(s, 0))
  {
    var t := DoAbort(s, 0);
    assert forall k | 0 <= k < |s.performed| :: t.performed[k] == s.performed[k];
  }

  lemma {:induction false} PushKeepsInv(s: State)
    requires Inv(s)
    ensures Inv(Push(s))
  {
    assert Push(s).queue[..|s.queue|] == s.queue;
  }

  lemma {:induction false} ExecKeepsInv(s: State, a: Action)
    requires Inv(s)
    ensures Inv(Exec(s, a))
  {
    if a.Call? {
      PushKeepsInv(s);
    } else if a.Step? && a.drainer < |s.drainers| {
      StepKeepsInv(s, a.outcome);
    } else if a.Abort? && a.drainer < |s.drainers| {
      AbortKeepsInv(s);
    }
  }

  lemma {:induction false} RunKeepsInv(s: State, actions: seq<Action>)
    requires Inv(s)
    ensures Inv(Run(s, actions))
    decreases |actions|
  {
    if actions == [] {
    } else {
      ExecKeepsInv(s, actions[0]);
      RunKeepsInv(Exec(s, actions[0]), actions[1..]);
    }
  }

  lemma {:induction false} StepKeepsSound(s: State, outcome: Outcome)
    requires Inv(s) && Sound(s) && s.drainers != []
    ensures Sound(Exec(s, Step(0, outcome)))
  {
    var d := s.drainers[0];
    var t := Exec(s, Step(0, outcome));
    if d.Calling? {
      assert t.performed[..|s.performed|] == s.performed;
    }
  }

  lemma {:induction false} RunKeepsSound(s: State, actions: seq<Action>)
    requires Inv(s) && Sound(s) && Smooth(s, actions)
    ensures Inv(Run(s, actions)) && Sound(Run(s, actions))
    decreases |actions|
  {
    if actions == [] {
    } else {
      ExecKeepsInv(s, actions[0]);
      if actions[0].Step? && actions[0].drainer < |s.drainers| {
        StepKeepsSound(s, actions[0].outcome);
      }
      RunKeepsSound(Exec(s, actions[0]), actions[1..]);
    }
  }

  // --- What callers are promised ------------------------------------------------

  // A loop is posted or running exactly while there are calls, and never two.
  lemma {:induction false} OneLoopWhileThereAreCalls(actions: seq<Action>)
    requires Smooth(Init(), actions)
    ensures var s := Run(Init(), actions); |s.drainers| == if s.queue == [] then 0 else 1
  {
    RunKeepsSound(Init(), actions);
  }

  function Calls(actions: seq<Action>): nat {
    if actions == [] then 0 else (if actions[0].Call? then 1 else 0) + Calls(actions[1..])
  }

  predicate AtCall(s: State, i: nat) { i < |s.drainers| && s.drainers[i].Calling? }

  // What the wrapped object did, call by call: how each returned or raised, or None where
  // the call left the loop.
  function Deeds(s: State, actions: seq<Action>): seq<Option<Outcome>>
    decreases |actions|
  {
    if actions == [] then [] else Deed(s, actions[0]) + Deeds(Exec(s, actions[0]), actions[1..])
  }

  function Deed(s: State, a: Action): seq<Option<Outcome>> {
    match a
    case Step(i, outcome) => if AtCall(s, i) then [Some(outcome)] else []
    case Abort(i) => if AtCall(s, i) then [None] else []
    case _ => []
  }

  function Outcomes(performed: seq<Performed>): seq<Option<Outcome>> {
    seq(|performed|, k requires 0 <= k < |performed| => performed[k].outcome)
  }

  lemma {:induction false} RunPerforms(s: State, actions: seq<Action>)
    ensures Run(s, actions).arrived == s.arrived + Calls(actions)
    ensures Outcomes(Run(s, actions).performed) == Outcomes(s.performed) + Deeds(s, actions)
    decreases |actions|
  {
    if actions == [] {
    } else {
      ExecPerforms(s, actions[0]);
      RunPerforms(Exec(s, actions[0]), actions[1..]);
    }
  }

  lemma {:induction false} ExecPerforms(s: State, a: Action)
    ensures Exec(s, a).arrived == s.arrived + if a.Call? then 1 else 0
    ensures Outcomes(Exec(s, a).performed) == Outcomes(s.performed) + Deed(s, a)
  {
  }

  // Whatever clients do: calls are performed in the order of arrival, each at most once,
  // with the outcome its method had, and the queue holds the later ones.
  lemma {:induction false} CallsArePerformedInOrder(actions: seq<Action>)
    ensures var s := Run(Init(), actions);
            && |s.drainers| <= 1
            && (forall k | 0 <= k < |s.performed| :: s.performed[k].call == k < s.arrived)
            && (forall k | 0 <= k < |s.queue| :: s.queue[k] == s.arrived - |s.queue| + k)
            && s.arrived - |s.queue| <= |s.performed| <= s.arrived - |s.queue| + 1
            && s.arrived == Calls(actions) && Outcomes(s.performed) == Deeds(Init(), actions)
  {
    RunKeepsInv(Init(), actions);
    RunPerforms(Init(), actions);
  }

  // A result present is what its call gave, and with an empty queue every call that has
  // arrived has one.
  lemma {:induction false} EveryCallIsAnswered(actions: seq<Action>)
    requires Smooth(Init(), actions)
    ensures var s := Run(Init(), actions);
            && (forall c | c in s.results :: c < |s.performed| && Some(s.results[c]) == s.performed[c].outcome)
            && (s.queue == [] ==> |s.performed| == s.arrived && forall c: nat | c < s.arrived :: c in s.results)
  {
    RunKeepsSound(Init(), actions);
  }

  // A result never changes, whatever clients and methods do.
  lemma {:induction false} ResultsAreFinal(s: State, actions: seq<Action>, call: nat)
    requires call in s.results
    ensures var t := Run(s, actions); call in t.results && t.results[call] == s.results[call]
    decreases |actions|
  {
    if actions == [] {
    } else {
      ResultsAreFinal(Exec(s, actions[0]), actions[1..], call);
    }
  }

  // --- What stops the mailbox ---------------------------------------------------------

  // Call c has its result and has not left the queue, nor is it about to.
  ghost predicate Blocked(s: State, c: nat) {
    && Inv(s) && c in s.results && Gone(s) <= c
    && (s.drainers != [] && s.drainers[0].Shifting? ==> s.queue[0] < c)
  }

  lemma {:induction false} BlockedForever(s: State, c: nat, actions: seq<Action>)
    requires Blocked(s, c)
    ensures Blocked(Run(s, actions), c)
    decreases |actions|
  {
    if actions == [] {
    } else {
      ExecKeepsInv(s, actions[0]);
      BlockedForever(Exec(s, actions[0]), c, actions[1..]);
    }
  }

  // Completing the result of a call still due stops the mailbox at that call for good:
  // in no schedule is a later call ever performed. The loop dies on the call without
  // taking it off the queue, which therefore never becomes empty again.
  lemma {:induction false} MeddlingStopsTheMailbox(actions: seq<Action>, c: nat, outcome: Outcome, later: seq<Action>)
    requires c in Run(Init(), actions).queue && c !in Run(Init(), actions).results
    ensures var t := Run(Exec(Run(Init(), actions), Meddle(c, outcome)), later);
            t.queue != [] && forall k | 0 <= k < |t.performed| :: t.performed[k].call <= c
  {
    var s := Run(Init(), actions);
    RunKeepsInv(Init(), actions);
    var m := Exec(s, Meddle(c, outcome));
    ExecKeepsInv(s, Meddle(c, outcome));
    assert s.drainers != [] && s.drainers[0].Shifting? ==> s.queue[0] != c;
    BlockedForever(m, c, later);
  }

  // No loop, and none will be posted, for the queue never becomes empty again.
  predicate Dead(s: State) { s.drainers == [] && s.queue != [] }

  lemma {:induction false} DeadForever(s: State, actions: seq<Action>)
    requires Dead(s)
    ensures var t := Run(s, actions); Dead(t) && t.performed == s.performed && s.queue <= t.queue
    decreases |actions|
  {
    if actions == [] {
    } else {
      DeadForever(Exec(s, actions[0]), actions[1..]);
    }
  }

  // A method that raises other than a StandardError stops it at once, without any client's
  // doing: the call stays at the head of the queue, and in no schedule is another performed.
  lemma {:induction false} AbortStopsTheMailbox(actions: seq<Action>, later: seq<Action>)
    requires var s := Run(Init(), actions); s.drainers != [] && s.drainers[0].Calling?
    ensures var s := Run(Init(), actions);
            var t := Exec(s, Abort(0));
            var u := Run(t, later);
            && u.drainers == [] && s.queue <= u.queue
            && s.queue != [] && u.performed == s.performed + [Performed(s.queue[0], None)]
  {
    var s := Run(Init(), actions);
    RunKeepsInv(Init(), actions);
    DeadForever(Exec(s, Abort(0)), later);
  }

  // Calls still to be completed by the loop, that have no result yet.
  predicate Drainable(s: State) {
    s.queue == [] ||
    (s.drainers != [] &&
     forall k | 0 <= k < |s.queue| && (k > 0 || !s.drainers[0].Shifting?) :: s.queue[k] !in s.results)
  }

  function Rank(d: Drainer): nat {
    match d
    case Posted => 3
    case Calling(_) => 2
    case Completing(_, _) => 1
    case Shifting => 0
  }

  lemma {:induction false} DrainStep(s: State)
    requires Inv(s) && Drainable(s) && s.queue != []
    ensures var t := Exec(s, Step(0, Rejected));
            && Inv(t) && Drainable(t) && |t.queue| <= |s.queue|
            && (t.queue != [] ==> |t.queue| < |s.queue| || Rank(t.drainers[0]) < Rank(s.drainers[0]))
  {
    ExecKeepsInv(s, Step(0, Rejected));
    if s.drainers[0].Shifting? {
      var t := Exec(s, Step(0, Rejected));
      assert forall k | 0 <= k < |t.queue| :: t.queue[k] == s.queue[k + 1];
    }
  }

  lemma {:induction false} Drain(s: State) returns (actions: seq<Action>)
    requires Inv(s) && Drainable(s)
    ensures Run(s, actions).queue == []
    decreases |s.queue|, if s.drainers == [] then 0 else Rank(s.drainers[0])
  {
    if s.queue == [] {
      actions := [];
    } else {
      DrainStep(s);
      var t := Exec(s, Step(0, Rejected));
      var more := Drain(t);
      actions := [Step(0, Rejected)] + more;
      assert actions[1..] == more;
    }
  }

  // So these are the only two ways to lose it: in every reachable state the queue can still
  // be emptied if and only if it is empty already, or there is a loop and no call still to
  // be completed has its result.
  lemma {:induction false} MailboxDrainsIff(before: seq<Action>)
    ensures (exists actions :: Run(Run(Init(), before), actions).queue == []) <==> Drainable(Run(Init(), before))
  {
    var s := Run(Init(), before);
    RunKeepsInv(Init(), before);
    if Drainable(s) {
      var actions := Drain(s);
    } else {
      forall actions ensures Run(s, actions).queue != [] {
        if s.drainers == [] {
          DeadForever(s, actions);
        } else {
          var k :| 0 <= k < |s.queue| && (k > 0 || !s.drainers[0].Shifting?) && s.queue[k] in s.results;
          BlockedForever(s, s.queue[k], actions);
        }
      }
    }
  }
}
