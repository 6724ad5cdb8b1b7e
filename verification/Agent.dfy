/**
An agent: a value changed by a queue of jobs, one worker at a time. `send` appends an
action, `await` inserts a latch right behind its caller's last job, and a failed agent
stands still until `restart`. Every synchronized block, every read of the value and
every write of the error is a step of its own. Whose job it is, an agent learns from a
thread-local variable, which is part of the state.
 */
module Agent {
  import opened Wrappers

  // The id is the position in the order of dispatch. `caller` is the thread the job is
  // filed under. `origin`, which is history, is the thread that dispatched it, or for a
  // job dispatched by a running action the origin of that action.
  datatype Job = Job(id: nat, origin: nat, caller: nat, await: bool)

  datatype Worker =
    | Posted                                    // waits in an executor
    | Fetched(job: Job, thread: nat)            // holds the head of the queue
    | Called(job: Job, seen: int, thread: nat)  // has read the value and set the thread's caller, about to call
    | Failing                                   // about to record the error
    | Handling                                  // recorded it, in the error handler
    | Leaving                                   // about to take the head off the queue

  datatype Update = Update(before: int, after: int)

  // `callers` is the thread-local `@caller`, for the threads where it is set. `ran` holds
  // the jobs whose action was called, `latches` maps each opened latch to the thread that
  // awaits it, `log` holds the updates of the value. The last three are history.
  datatype State = State(
    initial: int, failMode: bool,
    queue: seq<Job>, value: int, failed: bool, workers: seq<Worker>, next: nat, callers: map<nat, nat>,
    ran: seq<Job>, latches: map<nat, nat>, log: seq<Update>)

  // What an action does: raise a StandardError, leave by another exception, which nothing
  // rescues but the `ensure` block sees, or return a value, after which an observer may raise.
  datatype Outcome = Raises | Aborts | Returns(value: int, observerRaises: bool)

  // `on` is the thread that picks a posted job up.
  datatype Action =
    | Send(thread: nat)
    | Await(thread: nat)
    | Step(worker: nat, on: nat, outcome: Outcome)
    | Restart(value: int, clear: bool)

  type Validator = int -> bool

  function Init(initial: int, failMode: bool): State {
    State(initial, failMode, [], initial, false, [], 0, map[], [], map[], [])
  }

  // `ns_find_last_job_for_thread`; -1 when there is none.
  function LastOf(queue: seq<Job>, caller: nat): (k: int)
    ensures -1 <= k < |queue|
    ensures k >= 0 ==> queue[k].caller == caller
    ensures forall j | k < j < |queue| :: queue[j].caller != caller
  {
    if queue == [] then -1
    else if queue[|queue| - 1].caller == caller then |queue| - 1
    else LastOf(queue[..|queue| - 1], caller)
  }

  // `ns_enqueue_job`: the only job of the queue is posted at once.
  function Enqueue(s: State, job: Job, k: nat): State
    requires k <= |s.queue|
  {
    var queue := s.queue[..k] + [job] + s.queue[k..];
    s.(queue := queue, next := s.next + 1, workers := if |queue| == 1 then s.workers + [Posted] else s.workers)
  }

  // The job whose action this thread is running.
  function Running(s: State, thread: nat): Option<Job> {
    if s.workers != [] && s.workers[0].Called? && s.workers[0].thread == thread then Some(s.workers[0].job) else None
  }

  // Whom a job that this thread dispatches is filed under: `@caller.value || Thread.current.object_id`.
  function Filing(s: State, thread: nat): nat { if thread in s.callers then s.callers[thread] else thread }

  function Origin(s: State, thread: nat): nat {
    if Running(s, thread).Some? then Running(s, thread).value.origin else thread
  }

  function DoSend(s: State, thread: nat): State {
    if s.failed then s
    else Enqueue(s, Job(s.next, Origin(s, thread), Filing(s, thread), false), |s.queue|)
  }

  function DoAwait(s: State, thread: nat): State {
    var k := LastOf(s.queue, thread);
    if k >= 0 then Enqueue(s, Job(s.next, thread, thread, true), k + 1)
    else s.(next := s.next + 1, latches := s.latches[s.next := thread])
  }

  function SetValue(s: State, value: int): State {
    s.(value := value, log := s.log + [Update(s.value, value)])
  }

  function DoRestart(valid: Validator, s: State, value: int, clear: bool): State {
    if !s.failed || !valid(value) then s
    else
      var queue := if clear then [] else s.queue;
      SetValue(s, value).(failed := false, queue := queue,
                          workers := if queue == [] then s.workers else s.workers + [Posted])
  }

  function Goto(s: State, i: nat, w: Worker): State
    requires i < |s.workers|
  {
    s.(workers := s.workers[i := w])
  }

  // The call of the action, and the store of what it returns. An action that does not
  // return leaves the thread's caller set.
  function CallAction(valid: Validator, s: State, i: nat, job: Job, thread: nat, outcome: Outcome): State
    requires i < |s.workers|
  {
    var t := s.(ran := s.ran + [job],
                callers := if !job.await && !outcome.Returns? then s.callers else s.callers - {thread});
    if job.await then Goto(t.(latches := t.latches[job.id := job.caller]), i, Leaving)
    else if outcome.Aborts? then Goto(t, i, Leaving)
    else if outcome.Raises? || !valid(outcome.value) then Goto(t, i, Failing)
    else Goto(SetValue(t, outcome.value), i, if outcome.observerRaises then Failing else Leaving)
  }

  // The `ensure` block.
  function Shift(s: State, i: nat): State
    requires i < |s.workers|
  {
    var queue := if s.queue == [] then [] else s.queue[1..];
    var others := s.workers[..i] + s.workers[i + 1..];
    s.(queue := queue, workers := if s.failed || queue == [] then others else others + [Posted])
  }

  // `execute_next_job`. A worker that finds no job fails at once.
  function Advance(valid: Validator, s: State, i: nat, on: nat, outcome: Outcome): State
    requires i < |s.workers|
  {
    match s.workers[i]
    case Posted => Goto(s, i, if s.queue == [] then Failing else Fetched(s.queue[0], on))
    case Fetched(job, thread) => Goto(s.(callers := s.callers[thread := job.caller]), i, Called(job, s.value, thread))
    case Called(job, _, thread) => CallAction(valid, s, i, job, thread, outcome)
    case Failing => Goto(s.(failed := s.failed || s.failMode), i, Handling)
    case Handling => Goto(s, i, Leaving)
    case Leaving => Shift(s, i)
  }

  function Exec(valid: Validator, s: State, a: Action): State {
    match a
    case Send(thread) => DoSend(s, thread)
    case Await(thread) => DoAwait(s, thread)
    case Step(i, on, outcome) => if i < |s.workers| then Advance(valid, s, i, on, outcome) else s
    case Restart(value, clear) => DoRestart(valid, s, value, clear)
  }

  function Run(valid: Validator, s: State, actions: seq<Action>): State
    decreases |actions|
  {
    if actions == [] then s else Run(valid, Exec(valid, s, actions[0]), actions[1..])
  }

  // A restart that has an effect: another only raises.
  predicate Restarts(valid: Validator, s: State, a: Action) { a.Restart? && s.failed && valid(a.value) }

  // The run restarts the failed agent only while no worker is about.
  predicate Patient(valid: Validator, s: State, actions: seq<Action>)
    decreases |actions|
  {
    actions == [] ||
    ((Restarts(valid, s, actions[0]) ==> s.workers == []) && Patient(valid, Exec(valid, s, actions[0]), actions[1..]))
  }

  // --- The invariant ------------------------------------------------------------

  predicate PastCall(w: Worker) { w.Failing? || w.Handling? || w.Leaving? }

  // The jobs not called yet.
  function Pending(s: State): seq<Job> {
    if s.workers != [] && PastCall(s.workers[0]) && s.queue != [] then s.queue[1..] else s.queue
  }

  // Two actions, or two jobs of one caller.
  predicate Ordered(a: Job, b: Job) { a.caller == b.caller || (!a.await && !b.await) }

  predicate Before(a: Job, b: Job) { a.id != b.id && (Ordered(a, b) ==> a.id < b.id) }

  // No job twice, and ordered ones in the order of dispatch.
  ghost predicate InOrder(line: seq<Job>) {
    forall i, j {:trigger Before(line[i], line[j])} | 0 <= i < j < |line| :: Before(line[i], line[j])
  }

  // Those called come before those pending, and all are older than the next one.
  ghost predicate JobsOk(ran: seq<Job>, pending: seq<Job>, next: nat) {
    && InOrder(ran) && InOrder(pending)
    && (forall a, b {:trigger Before(a, b)} | a in ran && b in pending :: Before(a, b))
    && (forall a | a in ran :: a.id < next)
    && (forall b | b in pending :: b.id < next)
  }

  ghost predicate WorkerOk(s: State, w: Worker) {
    && s.queue != []
    && (!w.Handling? && !w.Leaving? ==> !s.failed)
    && (w.Fetched? || w.Called? ==> w.job == s.queue[0])
    && (w.Called? ==> w.seen == s.value && w.thread in s.callers && s.callers[w.thread] == w.job.caller)
    && (PastCall(w) ==> s.ran != [] && s.ran[|s.ran| - 1] == s.queue[0])
  }

  ghost predicate LatchesOk(s: State) {
    forall a | a in s.latches ::
      a < s.next && forall i | 0 <= i < |s.queue| && s.queue[i].caller == s.latches[a] :: s.queue[i].id >= a
  }

  // Every update starts from the value the one before it left.
  ghost predicate Chain(valid: Validator, initial: int, log: seq<Update>, value: int)
    decreases |log|
  {
    if log == [] then value == initial
    else
      var last := log[|log| - 1];
      last.after == value && valid(value) && Chain(valid, initial, log[..|log| - 1], last.before)
  }

  ghost predicate Serial(s: State) {
    && |s.workers| <= 1
    && (s.workers == [] ==> s.queue == [] || s.failed)
    && (s.workers != [] ==> WorkerOk(s, s.workers[0]))
    && (s.failed ==> s.failMode)
  }

  ghost predicate Inv(valid: Validator, s: State) {
    && Serial(s)
    && JobsOk(s.ran, Pending(s), s.next)
    && LatchesOk(s)
    && Chain(valid, s.initial, s.log, s.value)
  }

  lemma {:induction false} InsertKeepsOrder(line: seq<Job>, next: nat, job: Job, p: nat)
    requires InOrder(line) && p <= |line| && job.id == next && forall b | b in line :: b.id < next
    requires forall j | p <= j < |line| :: !Ordered(job, line[j])
    ensures InOrder(line[..p] + [job] + line[p..])
  {
    var longer := line[..p] + [job] + line[p..];
    forall i, j | 0 <= i < j < |longer| ensures Before(longer[i], longer[j]) {
      var k, l := if i < p then i else i - 1, if j < p then j else j - 1;
      assert i != p ==> longer[i] == line[k];
      assert j != p ==> longer[j] == line[l];
      assert i != p && j != p ==> Before(line[k], line[l]);
    }
  }

  lemma {:induction false} InsertKeepsJobs(ran: seq<Job>, pending: seq<Job>, next: nat, job: Job, p: nat)
    requires JobsOk(ran, pending, next) && p <= |pending| && job.id == next
    requires forall j | p <= j < |pending| :: !Ordered(job, pending[j])
    ensures JobsOk(ran, pending[..p] + [job] + pending[p..], next + 1)
  {
    InsertKeepsOrder(pending, next, job, p);
    var longer := pending[..p] + [job] + pending[p..];
    assert forall b | b in longer :: b in pending || b == job;
  }

  lemma {:induction false} TakeKeepsJobs(ran: seq<Job>, pending: seq<Job>, next: nat)
    requires JobsOk(ran, pending, next) && pending != []
    ensures JobsOk(ran + [pending[0]], pending[1..], next)
  {
    var longer, rest := ran + [pending[0]], pending[1..];
    assert forall a | a in longer :: a in ran || a == pending[0];
    forall b | b in rest ensures b in pending && Before(pending[0], b) {
      var k :| 0 <= k < |rest| && rest[k] == b;
      assert Before(pending[0], pending[k + 1]);
    }
    assert pending[0] in pending;
    forall i, j | 0 <= i < j < |longer| ensures Before(longer[i], longer[j]) {
      assert j < |ran| ==> Before(ran[i], ran[j]);
      assert ran[i] in ran;
    }
    forall i, j | 0 <= i < j < |rest| ensures Before(rest[i], rest[j]) {
      assert Before(pending[i + 1], pending[j + 1]);
    }
  }

  lemma {:induction false} PendingAfterEnqueue(s: State, job: Job, k: nat) returns (p: nat)
    requires k <= |s.queue| && (s.queue != [] ==> k > 0)
    requires s.workers == [] || (s.queue != [] && |s.workers| == 1)
    ensures p <= |Pending(s)| && Pending(Enqueue(s, job, k)) == Pending(s)[..p] + [job] + Pending(s)[p..]
    ensures Pending(s)[p..] == s.queue[k..]
  {
    var called := s.workers != [] && PastCall(s.workers[0]) && s.queue != [];
    p := if called then k - 1 else k;
    if called {
      InsertBehind(s.queue, job, k);
    }
  }

  lemma {:induction false} InsertBehind(queue: seq<Job>, job: Job, k: nat)
    requires 0 < k <= |queue|
    ensures (queue[..k] + [job] + queue[k..])[1..] == queue[1..][..k - 1] + [job] + queue[1..][k - 1..]
  {
  }

  lemma {:induction false} EnqueueKeepsJobs(s: State, job: Job, k: nat)
    requires JobsOk(s.ran, Pending(s), s.next) && k <= |s.queue| && job.id == s.next
    requires s.queue != [] ==> k > 0
    requires s.workers == [] || (s.queue != [] && |s.workers| == 1)
    requires forall j | k <= j < |s.queue| :: !Ordered(job, s.queue[j])
    ensures var t := Enqueue(s, job, k); JobsOk(t.ran, Pending(t), t.next)
  {
    var p := PendingAfterEnqueue(s, job, k);
    var pending := Pending(s);
    forall j | p <= j < |pending| ensures !Ordered(job, pending[j]) {
      assert pending[j] == pending[p..][j - p] == s.queue[k..][j - p];
    }
    InsertKeepsJobs(s.ran, pending, s.next, job, p);
  }

  // Whatever is inserted behind the head leaves the worker its job.
  lemma {:induction false} EnqueueKeepsRest(valid: Validator, s: State, job: Job, k: nat)
    requires Inv(valid, s) && k <= |s.queue| && job.id == s.next
    requires (s.queue != [] ==> k > 0) && (s.queue == [] ==> !s.failed)
    ensures var t := Enqueue(s, job, k); Serial(t) && LatchesOk(t)
  {
    var t := Enqueue(s, job, k);
    assert s.queue != [] ==> t.queue[0] == s.queue[0];
    assert forall i | 0 <= i < |t.queue| :: t.queue[i] == job || t.queue[i] in s.queue;
  }

  lemma {:induction false} InsertKeepsInv(valid: Validator, s: State, job: Job, k: nat)
    requires Inv(valid, s) && k <= |s.queue| && job.id == s.next
    requires (s.queue != [] ==> k > 0) && (s.queue == [] ==> !s.failed)
    requires forall j | k <= j < |s.queue| :: !Ordered(job, s.queue[j])
    ensures Inv(valid, Enqueue(s, job, k))
  {
    EnqueueKeepsJobs(s, job, k);
    EnqueueKeepsRest(valid, s, job, k);
  }

  lemma {:induction false} SendKeepsInv(valid: Validator, s: State, thread: nat)
    requires Inv(valid, s)
    ensures Inv(valid, DoSend(s, thread))
  {
    if !s.failed {
      InsertKeepsInv(valid, s, Job(s.next, Origin(s, thread), Filing(s, thread), false), |s.queue|);
    }
  }

  lemma {:induction false} LatchOpensAtOnce(valid: Validator, s: State, caller: nat)
    requires Inv(valid, s) && LastOf(s.queue, caller) < 0
    ensures Inv(valid, DoAwait(s, caller))
  {
    var t := DoAwait(s, caller);
    assert t.queue == s.queue && t.workers == s.workers && t.ran == s.ran && Pending(t) == Pending(s);
    assert forall i | 0 <= i < |s.queue| :: s.queue[i].caller != caller;
    assert LatchesOk(t);
  }

  lemma {:induction false} AwaitKeepsInv(valid: Validator, s: State, thread: nat)
    requires Inv(valid, s)
    ensures Inv(valid, DoAwait(s, thread))
  {
    var k := LastOf(s.queue, thread);
    if k >= 0 {
      AwaitInserts(valid, s, thread, k);
    } else {
      LatchOpensAtOnce(valid, s, thread);
    }
  }

  lemma {:induction false} AwaitInserts(valid: Validator, s: State, thread: nat, k: nat)
    requires Inv(valid, s) && k == LastOf(s.queue, thread)
    ensures Inv(valid, DoAwait(s, thread))
  {
    var job := Job(s.next, thread, thread, true);
    forall j | k < j < |s.queue| ensures !Ordered(job, s.queue[j]) {
    }
    InsertKeepsInv(valid, s, job, k + 1);
  }

  lemma {:induction false} RestartKeepsInv(valid: Validator, s: State, value: int, clear: bool)
    requires Inv(valid, s) && (s.failed && valid(value) ==> s.workers == [])
    ensures Inv(valid, Exec(valid, s, Restart(value, clear)))
  {
    var t := Exec(valid, s, Restart(value, clear));
    if s.failed && valid(value) {
    }
  }

  lemma {:induction false} CallKeepsLatches(valid: Validator, s: State, thread: nat, outcome: Outcome)
    requires LatchesOk(s) && JobsOk(s.ran, s.queue, s.next) && s.workers != [] && s.queue != []
    ensures LatchesOk(CallAction(valid, s, 0, s.queue[0], thread, outcome))
  {
    var head := s.queue[0];
    assert head in s.queue;
    forall i | 0 <= i < |s.queue| && s.queue[i].caller == head.caller ensures s.queue[i].id >= head.id {
      assert i > 0 ==> Before(head, s.queue[i]);
    }
  }

  lemma {:induction false} CallKeepsChain(valid: Validator, s: State, job: Job, thread: nat, outcome: Outcome)
    requires Chain(valid, s.initial, s.log, s.value) && s.workers != []
    ensures var t := CallAction(valid, s, 0, job, thread, outcome); Chain(valid, t.initial, t.log, t.value)
  {
    if !job.await && outcome.Returns? && valid(outcome.value) {
    }
  }

  lemma {:induction false} CallKeepsSerial(valid: Validator, s: State, on: nat, outcome: Outcome)
    requires Serial(s) && s.workers != [] && s.workers[0].Called?
    ensures var t := Exec(valid, s, Step(0, on, outcome));
            && Serial(t) && t == CallAction(valid, s, 0, s.queue[0], s.workers[0].thread, outcome)
            && Pending(s) == s.queue && Pending(t) == s.queue[1..]
            && t.ran == s.ran + [s.queue[0]] && t.queue == s.queue && t.next == s.next
  {
    var t := CallAction(valid, s, 0, s.queue[0], s.workers[0].thread, outcome);
    assert PastCall(t.workers[0]);
  }

  lemma {:induction false} CallKeepsInv(valid: Validator, s: State, on: nat, outcome: Outcome)
    requires Inv(valid, s) && s.workers != [] && s.workers[0].Called?
    ensures Inv(valid, Exec(valid, s, Step(0, on, outcome)))
  {
    var head := s.queue[0];
    CallKeepsSerial(valid, s, on, outcome);
    CallKeepsChain(valid, s, head, s.workers[0].thread, outcome);
    CallKeepsLatches(valid, s, s.workers[0].thread, outcome);
    TakeKeepsJobs(s.ran, s.queue, s.next);
  }

  // All but the call and the last step leave the jobs alone.
  lemma {:induction false} QuietStepIsQuiet(valid: Validator, s: State, on: nat, outcome: Outcome)
    requires Serial(s) && s.workers != [] && !s.workers[0].Called? && !s.workers[0].Leaving?
    ensures var t := Exec(valid, s, Step(0, on, outcome));
            && Serial(t) && Pending(t) == Pending(s)
            && t == s.(workers := t.workers, failed := t.failed, callers := t.callers)
  {
  }

  lemma {:induction false} QuietStepKeepsInv(valid: Validator, s: State, on: nat, outcome: Outcome)
    requires Inv(valid, s) && s.workers != [] && !s.workers[0].Called? && !s.workers[0].Leaving?
    ensures Inv(valid, Exec(valid, s, Step(0, on, outcome)))
  {
    QuietStepIsQuiet(valid, s, on, outcome);
  }

  lemma {:induction false} ShiftKeepsLatches(s: State)
    requires LatchesOk(s) && s.queue != [] && s.workers != []
    ensures LatchesOk(Shift(s, 0))
  {
    var t := Shift(s, 0);
    assert forall i | 0 <= i < |t.queue| :: t.queue[i] == s.queue[i + 1];
  }

  lemma {:induction false} ShiftKeepsSerial(s: State)
    requires Serial(s) && s.workers == [Leaving]
    ensures var t := Shift(s, 0);
            Serial(t) && Pending(t) == Pending(s) && t == s.(queue := s.queue[1..], workers := t.workers)
  {
    var t := Shift(s, 0);
    assert t.workers == if s.failed || t.queue == [] then [] else [Posted];
  }

  lemma {:induction false} ShiftKeepsInv(valid: Validator, s: State)
    requires Inv(valid, s) && s.workers == [Leaving]
    ensures Inv(valid, Shift(s, 0))
  {
    ShiftKeepsSerial(s);
    ShiftKeepsLatches(s);
  }

  lemma {:induction false} StepKeepsInv(valid: Validator, s: State, i: nat, on: nat, outcome: Outcome)
    requires Inv(valid, s)
    ensures Inv(valid, Exec(valid, s, Step(i, on, outcome)))
  {
    if i < |s.workers| {
      assert s.workers == [s.workers[0]];
      if s.workers[0].Called? {
        CallKeepsInv(valid, s, on, outcome);
      } else if s.workers[0].Leaving? {
        ShiftKeepsInv(valid, s);
      } else {
        QuietStepKeepsInv(valid, s, on, outcome);
      }
    }
  }

  lemma {:induction false} ExecKeepsInv(valid: Validator, s: State, a: Action)
    requires Inv(valid, s) && (Restarts(valid, s, a) ==> s.workers == [])
    ensures Inv(valid, Exec(valid, s, a))
  {
    match a
    case Send(thread) => SendKeepsInv(valid, s, thread);
    case Await(thread) => AwaitKeepsInv(valid, s, thread);
    case Step(i, on, outcome) => StepKeepsInv(valid, s, i, on, outcome);
    case Restart(value, clear) => RestartKeepsInv(valid, s, value, clear);
  }

  lemma {:induction false} RunKeepsInv(valid: Validator, s: State, actions: seq<Action>)
    requires Inv(valid, s) && Patient(valid, s, actions)
    ensures Inv(valid, Run(valid, s, actions))
    decreases |actions|
  {
    if actions == [] {
    } else {
      ExecKeepsInv(valid, s, actions[0]);
      RunKeepsInv(valid, Exec(valid, s, actions[0]), actions[1..]);
    }
  }

  // --- What callers are promised ------------------------------------------------

  // Jobs are serial: at most one worker, always at the head of the queue, and one
  // exactly as long as there is work and no failure.
  lemma {:induction false} JobsAreSerial(valid: Validator, initial: int, failMode: bool, actions: seq<Action>)
    requires Patient(valid, Init(initial, failMode), actions)
    ensures var s := Run(valid, Init(initial, failMode), actions);
            && |s.workers| <= 1
            && (!s.failed ==> |s.workers| == (if s.queue == [] then 0 else 1))
            && forall i | 0 <= i < |s.workers| && (s.workers[i].Fetched? || s.workers[i].Called?) ::
                 s.queue != [] && s.workers[i].job == s.queue[0]
  {
    RunKeepsInv(valid, Init(initial, failMode), actions);
  }

  // No job runs twice, actions run in the order they were sent whoever sent them, and the
  // actions and awaits filed under one thread run in that order too.
  lemma {:induction false} JobsRunInOrder(valid: Validator, initial: int, failMode: bool, actions: seq<Action>)
    requires Patient(valid, Init(initial, failMode), actions)
    ensures InOrder(Run(valid, Init(initial, failMode), actions).ran)
  {
    RunKeepsInv(valid, Init(initial, failMode), actions);
  }

  // A latch that is open means that no job filed earlier under the thread that awaits it
  // is still in the queue.
  lemma {:induction false} AwaitMeansFiledIsDone(
      valid: Validator, initial: int, failMode: bool, actions: seq<Action>, latch: nat)
    requires Patient(valid, Init(initial, failMode), actions)
    requires latch in Run(valid, Init(initial, failMode), actions).latches
    ensures var s := Run(valid, Init(initial, failMode), actions);
            forall job | job in s.queue && job.caller == s.latches[latch] :: job.id >= latch
  {
    RunKeepsInv(valid, Init(initial, failMode), actions);
  }

  // No update is lost: the value is the initial one carried through a chain of updates,
  // each computed from the value the one before it left and each accepted by the validator.
  lemma {:induction false} NoUpdateIsLost(valid: Validator, initial: int, failMode: bool, actions: seq<Action>)
    requires Patient(valid, Init(initial, failMode), actions)
    ensures var s := Run(valid, Init(initial, failMode), actions);
            && Chain(valid, initial, s.log, s.value)
            && (s.value == initial || valid(s.value))
            && (s.workers != [] && s.workers[0].Called? ==> s.workers[0].seen == s.value)
  {
    RunKeepsInv(valid, Init(initial, failMode), actions);
    InitialStays(valid, Init(initial, failMode), actions);
  }

  lemma {:induction false} InitialStays(valid: Validator, s: State, actions: seq<Action>)
    ensures Run(valid, s, actions).initial == s.initial
    decreases |actions|
  {
    if actions == [] {
    } else {
      InitialStays(valid, Exec(valid, s, actions[0]), actions[1..]);
    }
  }

  // Sending and awaiting put one job in and leave the others in their order.
  lemma {:induction false} InsertionNeverReorders(valid: Validator, s: State, a: Action)
    requires a.Send? || a.Await?
    ensures var queue := Exec(valid, s, a).queue;
            queue == s.queue || exists k :: 0 <= k < |queue| && queue[..k] + queue[k + 1..] == s.queue
  {
    var k := if a.Send? then |s.queue| else LastOf(s.queue, a.thread) + 1;
    EnqueueInserts(s, if a.Send? then Job(s.next, Origin(s, a.thread), Filing(s, a.thread), false)
                      else Job(s.next, a.thread, a.thread, true), k);
  }

  lemma {:induction false} EnqueueInserts(s: State, job: Job, k: nat)
    requires k <= |s.queue|
    ensures var queue := Enqueue(s, job, k).queue; |queue| == |s.queue| + 1 && queue[..k] + queue[k + 1..] == s.queue
  {
  }

  // --- No job is lost -------------------------------------------------------------

  // No restart clears the queue.
  predicate Keeping(valid: Validator, s: State, actions: seq<Action>)
    decreases |actions|
  {
    actions == [] ||
    ((Restarts(valid, s, actions[0]) ==> !actions[0].clear) && Keeping(valid, Exec(valid, s, actions[0]), actions[1..]))
  }

  ghost predicate Somewhere(s: State, id: nat) {
    id in s.latches || (exists job :: job in s.ran && job.id == id) || (exists job :: job in Pending(s) && job.id == id)
  }

  // Of the jobs dispatched since number n.
  ghost predicate NoneLost(s: State, n: nat) {
    forall id: nat {:trigger Somewhere(s, id)} | n <= id < s.next :: Somewhere(s, id)
  }

  lemma {:induction false} EnqueueLosesNone(s: State, job: Job, k: nat, n: nat)
    requires NoneLost(s, n) && job.id == s.next && k <= |s.queue| && (s.queue != [] ==> k > 0)
    requires s.workers == [] || (s.queue != [] && |s.workers| == 1)
    ensures NoneLost(Enqueue(s, job, k), n)
  {
    var t := Enqueue(s, job, k);
    var p := PendingAfterEnqueue(s, job, k);
    var pending := Pending(s);
    assert pending == pending[..p] + pending[p..];
    assert job in Pending(t) && forall j | j in pending :: j in Pending(t);
    forall id: nat | n <= id < t.next ensures Somewhere(t, id) {
      assert id < s.next ==> Somewhere(s, id);
    }
  }

  lemma {:induction false} CallLosesNone(valid: Validator, s: State, on: nat, outcome: Outcome, n: nat)
    requires Serial(s) && NoneLost(s, n) && s.workers != [] && s.workers[0].Called?
    ensures NoneLost(Exec(valid, s, Step(0, on, outcome)), n)
  {
    var t := Exec(valid, s, Step(0, on, outcome));
    CallKeepsSerial(valid, s, on, outcome);
    assert s.queue == [s.queue[0]] + s.queue[1..] && s.queue[0] in t.ran;
    assert forall j | j in s.ran :: j in t.ran;
    forall id: nat | n <= id < t.next ensures Somewhere(t, id) {
      assert Somewhere(s, id);
    }
  }

  lemma {:induction false} StillSomewhere(s: State, t: State, n: nat)
    requires NoneLost(s, n) && t.ran == s.ran && Pending(t) == Pending(s) && t.latches == s.latches && t.next == s.next
    ensures NoneLost(t, n)
  {
    forall id: nat | n <= id < t.next ensures Somewhere(t, id) {
      assert Somewhere(s, id);
    }
  }

  lemma {:induction false} AwaitLosesNone(s: State, thread: nat, n: nat)
    requires Serial(s) && NoneLost(s, n)
    ensures NoneLost(DoAwait(s, thread), n)
  {
    var k, t := LastOf(s.queue, thread), DoAwait(s, thread);
    if k >= 0 {
      EnqueueLosesNone(s, Job(s.next, thread, thread, true), k + 1, n);
    } else {
      assert Pending(t) == Pending(s);
      forall id: nat | n <= id < t.next ensures Somewhere(t, id) {
        assert id < s.next ==> Somewhere(s, id);
      }
    }
  }

  lemma {:induction false} StepLosesNone(valid: Validator, s: State, on: nat, outcome: Outcome, n: nat)
    requires Serial(s) && NoneLost(s, n) && s.workers != []
    ensures NoneLost(Exec(valid, s, Step(0, on, outcome)), n)
  {
    if s.workers[0].Called? {
      CallLosesNone(valid, s, on, outcome, n);
    } else if s.workers[0].Leaving? {
      var t := Shift(s, 0);
      assert t.workers == if s.failed || t.queue == [] then [] else [Posted];
      StillSomewhere(s, t, n);
    } else {
      QuietStepIsQuiet(valid, s, on, outcome);
      StillSomewhere(s, Exec(valid, s, Step(0, on, outcome)), n);
    }
  }

  lemma {:induction false} ExecLosesNone(valid: Validator, s: State, a: Action, n: nat)
    requires Serial(s) && NoneLost(s, n) && (Restarts(valid, s, a) ==> s.workers == [] && !a.clear)
    ensures NoneLost(Exec(valid, s, a), n)
  {
    match a
    case Send(thread) =>
      if !s.failed {
        EnqueueLosesNone(s, Job(s.next, Origin(s, thread), Filing(s, thread), false), |s.queue|, n);
      }
    case Await(thread) => AwaitLosesNone(s, thread, n);
    case Step(i, on, outcome) => if i < |s.workers| { StepLosesNone(valid, s, on, outcome, n); }
    case Restart(_, _) => StillSomewhere(s, Exec(valid, s, a), n);
  }

  lemma {:induction false} RunLosesNone(valid: Validator, s: State, actions: seq<Action>, n: nat)
    requires Inv(valid, s) && NoneLost(s, n) && Patient(valid, s, actions) && Keeping(valid, s, actions)
    ensures NoneLost(Run(valid, s, actions), n)
    decreases |actions|
  {
    if actions == [] {
    } else {
      ExecKeepsInv(valid, s, actions[0]);
      ExecLosesNone(valid, s, actions[0], n);
      RunLosesNone(valid, Exec(valid, s, actions[0]), actions[1..], n);
    }
  }

  // Unless a restart clears the queue, every job dispatched has been called, has opened
  // its latch or is still pending.
  lemma {:induction false} NoJobIsLost(valid: Validator, initial: int, failMode: bool, actions: seq<Action>, id: nat)
    requires Patient(valid, Init(initial, failMode), actions) && Keeping(valid, Init(initial, failMode), actions)
    requires id < Run(valid, Init(initial, failMode), actions).next
    ensures Somewhere(Run(valid, Init(initial, failMode), actions), id)
  {
    RunLosesNone(valid, Init(initial, failMode), actions, 0);
  }

  // --- Whose jobs an await waits for ------------------------------------------------

  // No thread dispatches with the caller an action left behind that raised on it.
  predicate Tidy(valid: Validator, s: State, actions: seq<Action>)
    decreases |actions|
  {
    actions == [] ||
    ((actions[0].Send? && Running(s, actions[0].thread).None? ==> Filing(s, actions[0].thread) == actions[0].thread)
     && Tidy(valid, Exec(valid, s, actions[0]), actions[1..]))
  }

  predicate Honest(queue: seq<Job>) { forall job | job in queue :: job.caller == job.origin }

  lemma {:induction false} SendKeepsHonest(s: State, thread: nat)
    requires Serial(s) && Honest(s.queue)
    requires Running(s, thread).None? ==> Filing(s, thread) == thread
    ensures Honest(DoSend(s, thread).queue)
  {
  }

  lemma {:induction false} AwaitKeepsHonest(s: State, thread: nat)
    requires Honest(s.queue)
    ensures Honest(DoAwait(s, thread).queue)
  {
  }

  lemma {:induction false} StepKeepsHonest(valid: Validator, s: State, i: nat, on: nat, outcome: Outcome)
    requires Honest(s.queue) && i < |s.workers|
    ensures Honest(Advance(valid, s, i, on, outcome).queue)
  {
    assert s.queue != [] ==> forall j | j in s.queue[1..] :: j in s.queue;
  }

  lemma {:induction false} ExecKeepsHonest(valid: Validator, s: State, a: Action)
    requires Serial(s) && Honest(s.queue)
    requires a.Send? && Running(s, a.thread).None? ==> Filing(s, a.thread) == a.thread
    ensures Honest(Exec(valid, s, a).queue)
  {
    match a
    case Send(thread) => SendKeepsHonest(s, thread);
    case Await(thread) => AwaitKeepsHonest(s, thread);
    case Step(i, on, outcome) => if i < |s.workers| { StepKeepsHonest(valid, s, i, on, outcome); }
    case Restart(_, _) =>
  }

  lemma {:induction false} RunKeepsHonest(valid: Validator, s: State, actions: seq<Action>)
    requires Inv(valid, s) && Honest(s.queue) && Patient(valid, s, actions) && Tidy(valid, s, actions)
    ensures Honest(Run(valid, s, actions).queue)
    decreases |actions|
  {
    if actions == [] {
    } else {
      ExecKeepsInv(valid, s, actions[0]);
      ExecKeepsHonest(valid, s, actions[0]);
      RunKeepsHonest(valid, Exec(valid, s, actions[0]), actions[1..]);
    }
  }

  // In tidy runs an open latch means that none of the actions the awaiting thread had
  // dispatched before, itself or from within an action of its own, is still in the queue.
  lemma {:induction false} AwaitMeansDone(
      valid: Validator, initial: int, failMode: bool, actions: seq<Action>, latch: nat)
    requires Patient(valid, Init(initial, failMode), actions) && Tidy(valid, Init(initial, failMode), actions)
    requires latch in Run(valid, Init(initial, failMode), actions).latches
    ensures var s := Run(valid, Init(initial, failMode), actions);
            forall job | job in s.queue && job.origin == s.latches[latch] :: job.id >= latch
  {
    AwaitMeansFiledIsDone(valid, initial, failMode, actions, latch);
    RunKeepsHonest(valid, Init(initial, failMode), actions);
  }

  // Job `id`, awaited by the one after it.
  predicate Waited(s: State, id: nat) { id + 1 in s.latches ==> forall job | job in s.queue :: job.id != id }

  // A thread sends an action and awaits it.
  function SentAndAwaited(s: State, thread: nat): State { DoAwait(DoSend(s, thread), thread) }

  ghost predicate OpenedBy(s: State, t: State, a: nat)
    requires a in t.latches
  {
    (a in s.latches && s.latches[a] == t.latches[a])
    || exists job :: job in s.queue && job.id == a && job.caller == t.latches[a]
  }

  // No job of old appears out of nowhere, and a latch of old is opened by its own job.
  ghost predicate Descends(s: State, t: State, n: nat) {
    && (forall job | job in t.queue && job.id < n :: job in s.queue)
    && (forall a {:trigger OpenedBy(s, t, a)} | a in t.latches && a < n :: OpenedBy(s, t, a))
  }

  lemma {:induction false} EnqueueDescends(s: State, job: Job, k: nat, n: nat)
    requires k <= |s.queue| && n <= job.id
    ensures Descends(s, Enqueue(s, job, k), n)
  {
    assert forall j | j in Enqueue(s, job, k).queue :: j in s.queue || j == job;
  }

  lemma {:induction false} CallDescends(valid: Validator, s: State, on: nat, outcome: Outcome, n: nat)
    requires Serial(s) && s.workers != [] && s.workers[0].Called?
    ensures var t := Exec(valid, s, Step(0, on, outcome)); Descends(s, t, n) && s.next == t.next
  {
    var t := CallAction(valid, s, 0, s.queue[0], s.workers[0].thread, outcome);
    assert s.queue[0] in s.queue;
    forall a | a in t.latches ensures OpenedBy(s, t, a) {
    }
  }

  lemma {:induction false} StepDescends(valid: Validator, s: State, on: nat, outcome: Outcome, n: nat)
    requires Serial(s) && s.workers != []
    ensures var t := Exec(valid, s, Step(0, on, outcome)); Descends(s, t, n) && s.next == t.next
  {
    if s.workers[0].Called? {
      CallDescends(valid, s, on, outcome, n);
    } else {
      var t := Exec(valid, s, Step(0, on, outcome));
      assert t.queue == s.queue || t.queue == s.queue[1..];
      assert forall j | j in s.queue[1..] :: j in s.queue;
      assert t.latches == s.latches;
      forall a | a in t.latches ensures OpenedBy(s, t, a) {
      }
    }
  }

  lemma {:induction false} SendDescends(s: State, thread: nat, n: nat)
    requires n <= s.next
    ensures Descends(s, DoSend(s, thread), n) && s.next <= DoSend(s, thread).next
  {
  }

  lemma {:induction false} AwaitDescends(s: State, thread: nat, n: nat)
    requires n <= s.next
    ensures Descends(s, DoAwait(s, thread), n) && s.next <= DoAwait(s, thread).next
  {
    var k := LastOf(s.queue, thread);
    if k >= 0 {
      EnqueueDescends(s, Job(s.next, thread, thread, true), k + 1, n);
    } else {
      var t := DoAwait(s, thread);
      forall a | a in t.latches && a < n ensures OpenedBy(s, t, a) {
      }
    }
  }

  lemma {:induction false} RestartDescends(valid: Validator, s: State, value: int, clear: bool, n: nat)
    ensures var t := DoRestart(valid, s, value, clear); Descends(s, t, n) && s.next == t.next
  {
  }

  lemma {:induction false} ExecDescends(valid: Validator, s: State, a: Action, n: nat)
    requires Serial(s) && n <= s.next
    ensures Descends(s, Exec(valid, s, a), n) && s.next <= Exec(valid, s, a).next
  {
    match a
    case Send(thread) => SendDescends(s, thread, n);
    case Await(thread) => AwaitDescends(s, thread, n);
    case Step(i, on, outcome) =>
      if i < |s.workers| {
        StepDescends(valid, s, on, outcome, n);
      } else {
      }
    case Restart(value, clear) => RestartDescends(valid, s, value, clear, n);
  }

  lemma {:induction false} RunDescends(valid: Validator, s: State, actions: seq<Action>, n: nat)
    requires Inv(valid, s) && n <= s.next && Patient(valid, s, actions)
    ensures Descends(s, Run(valid, s, actions), n)
    decreases |actions|
  {
    if actions == [] {
    } else {
      var t := Exec(valid, s, actions[0]);
      ExecKeepsInv(valid, s, actions[0]);
      ExecDescends(valid, s, actions[0], n);
      RunDescends(valid, t, actions[1..], n);
      DescentGoesOn(s, t, Run(valid, s, actions), n);
    }
  }

  lemma {:induction false} DescentGoesOn(s: State, t: State, u: State, n: nat)
    requires Descends(s, t, n) && Descends(t, u, n)
    ensures Descends(s, u, n)
  {
    forall a | a in u.latches && a < n ensures OpenedBy(s, u, a) {
      assert OpenedBy(t, u, a);
      if a in t.latches && t.latches[a] == u.latches[a] {
        assert OpenedBy(s, t, a);
      } else {
        var job :| job in t.queue && job.id == a && job.caller == u.latches[a];
        assert job in s.queue;
      }
    }
  }

  lemma {:induction false} RunSplits(valid: Validator, s: State, first: seq<Action>, more: seq<Action>)
    ensures Run(valid, s, first + more) == Run(valid, Run(valid, s, first), more)
    ensures Patient(valid, s, first + more) <==> Patient(valid, s, first) && Patient(valid, Run(valid, s, first), more)
    decreases |first|
  {
    if first == [] {
      assert first + more == more;
    } else {
      assert (first + more)[0] == first[0] && (first + more)[1..] == first[1..] + more;
      RunSplits(valid, Exec(valid, s, first[0]), first[1..], more);
    }
  }

  function Rank(w: Worker): nat {
    match w
    case Posted => 5
    case Fetched(_, _) => 4
    case Called(_, _, _) => 3
    case Failing => 2
    case Handling => 1
    case Leaving => 0
  }

  // One step towards the end of the head of the queue.
  lemma {:induction false} DriveStep(valid: Validator, s: State, value: int)
    requires Serial(s) && valid(value) && s.workers != [] && !s.workers[0].Leaving?
    ensures var t := Exec(valid, s, Step(0, 0, Returns(value, false)));
            && t.workers != [] && Rank(t.workers[0]) < Rank(s.workers[0]) && t.queue == s.queue
            && (PastCall(s.workers[0]) ==> PastCall(t.workers[0]))
            && (forall a | a in s.latches :: a in t.latches)
            && (s.queue[0].await && !PastCall(s.workers[0]) && PastCall(t.workers[0]) ==> s.queue[0].id in t.latches)
  {
  }

  // The head of the queue can always be brought to its end, with a restart if it failed.
  lemma {:induction false} DriveHead(valid: Validator, s: State, value: int) returns (more: seq<Action>)
    requires Inv(valid, s) && valid(value) && s.workers != []
    ensures Patient(valid, s, more)
    ensures var u := Run(valid, s, more);
            && Inv(valid, u) && !u.failed && u.queue == s.queue[1..]
            && (u.workers != [] ==> !PastCall(u.workers[0]))
            && (forall a | a in s.latches :: a in u.latches)
            && (s.queue[0].await && !PastCall(s.workers[0]) ==> s.queue[0].id in u.latches)
    decreases Rank(s.workers[0])
  {
    var a := Step(0, 0, Returns(value, false));
    if s.workers[0].Leaving? {
      more := if s.failed then [a, Restart(value, false)] else [a];
      LeaveAndRestart(valid, s, value);
    } else {
      var t := Exec(valid, s, a);
      StepKeepsInv(valid, s, 0, 0, Returns(value, false));
      DriveStep(valid, s, value);
      var rest := DriveHead(valid, t, value);
      more := [a] + rest;
      assert more[0] == a && more[1..] == rest;
      assert Run(valid, s, more) == Run(valid, t, rest);
    }
  }

  lemma {:induction false} LeaveAndRestart(valid: Validator, s: State, value: int)
    requires Inv(valid, s) && valid(value) && s.workers != [] && s.workers[0].Leaving?
    ensures var a := Step(0, 0, Returns(value, false));
            var more := if s.failed then [a, Restart(value, false)] else [a];
            var u := Run(valid, s, more);
            && Patient(valid, s, more) && Inv(valid, u) && !u.failed && u.queue == s.queue[1..]
            && (u.workers != [] ==> u.workers[0].Posted?) && u.latches == s.latches
  {
    var a := Step(0, 0, Returns(value, false));
    var t := Exec(valid, s, a);
    ExecKeepsInv(valid, s, a);
    assert s.workers == [Leaving];
    if s.failed {
      RestartNow(valid, t, value);
      assert [a, Restart(value, false)][1..] == [Restart(value, false)];
    } else {
      assert [a][1..] == [];
    }
  }

  lemma {:induction false} RestartNow(valid: Validator, s: State, value: int)
    requires Inv(valid, s) && valid(value) && s.failed && s.workers == []
    ensures var more := [Restart(value, false)];
            var u := Run(valid, s, more);
            && Patient(valid, s, more) && Inv(valid, u) && !u.failed && u.queue == s.queue
            && (u.workers != [] ==> u.workers[0].Posted?) && u.latches == s.latches
  {
    var more := [Restart(value, false)];
    ExecKeepsInv(valid, s, more[0]);
    assert more[1..] == [];
    assert Run(valid, s, more) == Exec(valid, s, more[0]);
  }

  lemma {:induction false} Busy(s: State)
    requires Serial(s) && !s.failed && s.queue != []
    ensures s.workers != []
  {
  }

  // So can the head of any part of the queue.
  lemma {:induction false} DriveTo(valid: Validator, s: State, k: nat, value: int) returns (more: seq<Action>)
    requires Inv(valid, s) && !s.failed && valid(value) && k < |s.queue| && s.queue[k].await
    requires k == 0 && s.workers != [] ==> !PastCall(s.workers[0])
    ensures Patient(valid, s, more)
    ensures var u := Run(valid, s, more); s.queue[k].id in u.latches && u.queue == s.queue[k + 1..]
    decreases k
  {
    Busy(s);
    var first := DriveHead(valid, s, value);
    if k == 0 {
      more := first;
    } else {
      var t, tail := Run(valid, s, first), s.queue[1..];
      assert tail[k - 1] == s.queue[k] && tail[k..] == s.queue[k + 1..];
      var rest := DriveTo(valid, t, k - 1, value);
      more := first + rest;
      RunSplits(valid, s, first, rest);
    }
  }

  lemma {:induction false} SentInOrder(s: State, thread: nat)
    requires !s.failed && Filing(s, thread) == thread
    ensures var t := SentAndAwaited(s, thread);
            && t.next == s.next + 2 && t.latches == s.latches
            && t.queue == s.queue + [Job(s.next, Origin(s, thread), thread, false),
                                     Job(s.next + 1, thread, thread, true)]
  {
    var sent := DoSend(s, thread);
    assert LastOf(sent.queue, thread) == |s.queue|;
  }

  lemma {:induction false} FiledIsWaitedFor(valid: Validator, s: State, thread: nat, more: seq<Action>)
    requires Inv(valid, s) && !s.failed && Filing(s, thread) == thread
    requires Patient(valid, SentAndAwaited(s, thread), more)
    ensures Waited(Run(valid, SentAndAwaited(s, thread), more), s.next)
  {
    var t := SentAndAwaited(s, thread);
    SendKeepsInv(valid, s, thread);
    AwaitKeepsInv(valid, DoSend(s, thread), thread);
    RunKeepsInv(valid, t, more);
    RunDescends(valid, t, more, t.next);
    SentInOrder(s, thread);
    QueueIsOld(valid, s);
    OwnJobIsOver(s, t, Run(valid, t, more), thread);
  }

  lemma {:induction false} OwnJobIsOver(s: State, t: State, u: State, thread: nat)
    requires t.next == s.next + 2 && t.latches == s.latches
    requires t.queue == s.queue + [Job(s.next, Origin(s, thread), thread, false),
                                   Job(s.next + 1, thread, thread, true)]
    requires (forall job | job in s.queue :: job.id < s.next) && (forall a | a in s.latches :: a < s.next)
    requires Descends(t, u, t.next) && LatchesOk(u)
    ensures Waited(u, s.next)
  {
    if s.next + 1 in u.latches {
      assert OpenedBy(t, u, s.next + 1);
      forall job | job in u.queue ensures job.id != s.next {
        assert job.id < t.next ==> job in t.queue;
      }
    }
  }

  lemma {:induction false} QueueIsOld(valid: Validator, s: State)
    requires Inv(valid, s)
    ensures forall job | job in s.queue :: job.id < s.next
    ensures forall a | a in s.latches :: a < s.next
    ensures forall job | job in s.ran :: job.id < s.next
  {
  }

  // An await of a thread overtakes a last job that is not filed under it.
  lemma {:induction false} AwaitOvertakes(sent: State, job: Job, thread: nat) returns (k: int)
    requires !sent.failed && sent.queue != [] && sent.queue[|sent.queue| - 1] == job && job.caller != thread
    ensures var t := DoAwait(sent, thread);
            && k < |sent.queue| - 1
            && (k < 0 ==> job in t.queue && sent.next in t.latches)
            && (k >= 0 ==> |t.queue| == |sent.queue| + 1 && !t.failed
                           && t.queue[k + 1] == Job(sent.next, thread, thread, true) && job in t.queue[k + 2..])
  {
    k := LastOf(sent.queue, thread);
    if k >= 0 {
      assert sent.queue[k + 1..][|sent.queue| - k - 2] == job;
    }
  }

  lemma {:induction false} SentOutOfOrder(s: State, thread: nat) returns (job: Job, k: int)
    requires !s.failed && Filing(s, thread) != thread
    ensures var t := SentAndAwaited(s, thread);
            && job.id == s.next && k < |s.queue|
            && (k < 0 ==> job in t.queue && s.next + 1 in t.latches)
            && (k >= 0 ==> |t.queue| == |s.queue| + 2 && !t.failed
                           && t.queue[k + 1] == Job(s.next + 1, thread, thread, true) && job in t.queue[k + 2..])
  {
    job := Job(s.next, Origin(s, thread), Filing(s, thread), false);
    k := AwaitOvertakes(DoSend(s, thread), job, thread);
  }

  lemma {:induction false} MisfiledIsNotWaitedFor(valid: Validator, s: State, thread: nat, value: int)
    returns (more: seq<Action>)
    requires Inv(valid, s) && !s.failed && valid(value) && Filing(s, thread) != thread
    ensures Patient(valid, SentAndAwaited(s, thread), more)
    ensures !Waited(Run(valid, SentAndAwaited(s, thread), more), s.next)
  {
    var job, k := SentOutOfOrder(s, thread);
    if k < 0 {
      more := [];
    } else {
      SendKeepsInv(valid, s, thread);
      AwaitKeepsInv(valid, DoSend(s, thread), thread);
      more := OpensTooEarly(valid, SentAndAwaited(s, thread), k + 1, job, value);
    }
  }

  // A latch opens when its own job is called, whatever still stands behind that.
  lemma {:induction false} OpensTooEarly(valid: Validator, t: State, k: nat, job: Job, value: int)
    returns (more: seq<Action>)
    requires Inv(valid, t) && !t.failed && valid(value) && 0 < k < |t.queue|
    requires t.queue[k].await && t.queue[k].id == job.id + 1 && job in t.queue[k + 1..]
    ensures Patient(valid, t, more) && !Waited(Run(valid, t, more), job.id)
  {
    more := DriveTo(valid, t, k, value);
    StillThere(Run(valid, t, more), t.queue[k + 1..], job);
  }

  lemma {:induction false} StillThere(u: State, behind: seq<Job>, job: Job)
    requires u.queue == behind && job in behind && job.id + 1 in u.latches
    ensures !Waited(u, job.id)
  {
  }

  // Exactly when does a thread that sends an action and awaits it know, once the latch
  // is open, that the action is over? If and only if no caller was left behind on it:
  // the thread-local was unset, or its own. A value has to pass the validator, or else a
  // failed agent could never be restarted and nothing awaited.
  lemma {:induction false} AwaitWaitsIff(valid: Validator, s: State, thread: nat, value: int)
    requires Inv(valid, s) && !s.failed && valid(value)
    ensures Filing(s, thread) == thread <==>
            forall more | Patient(valid, SentAndAwaited(s, thread), more) ::
              Waited(Run(valid, SentAndAwaited(s, thread), more), s.next)
  {
    if Filing(s, thread) == thread {
      forall more | Patient(valid, SentAndAwaited(s, thread), more)
        ensures Waited(Run(valid, SentAndAwaited(s, thread), more), s.next)
      {
        FiledIsWaitedFor(valid, s, thread, more);
      }
    } else {
      var more := MisfiledIsNotWaitedFor(valid, s, thread, value);
    }
  }

  // --- Failing and restarting ---------------------------------------------------------

  lemma {:induction false} RunOfThree(valid: Validator, s: State, a: Action, b: Action, c: Action)
    ensures Run(valid, s, [a, b, c]) == Exec(valid, Exec(valid, Exec(valid, s, a), b), c)
    ensures !a.Restart? && !b.Restart? && !c.Restart? ==> Patient(valid, s, [a, b, c])
  {
    assert [a, b, c][1..] == [b, c] && [b, c][1..] == [c] && [c][1..] == [];
    var t := Exec(valid, s, a);
    var u := Exec(valid, t, b);
    assert Run(valid, u, [c]) == Run(valid, Exec(valid, u, c), []);
    assert Run(valid, t, [b, c]) == Run(valid, u, [c]);
    assert Patient(valid, Exec(valid, u, c), []);
    assert !c.Restart? ==> Patient(valid, u, [c]);
    assert !b.Restart? && !c.Restart? ==> Patient(valid, t, [b, c]);
  }

  // The first job's action raises on a pool thread.
  function FirstJobRaises(sender: nat, pool: nat): seq<Action> {
    [Send(sender), Step(0, pool, Raises), Step(0, pool, Raises)] + [Step(0, pool, Raises), Step(0, pool, Raises)]
  }

  // What the conditions below speak of does happen: the failed agent's worker is in its
  // error handler, and the pool thread is left with the sender's number.
  lemma {:induction false} FailureIsReachable(valid: Validator, initial: int, failMode: bool, sender: nat, pool: nat)
    ensures Patient(valid, Init(initial, failMode), FirstJobRaises(sender, pool))
    ensures var s := Run(valid, Init(initial, failMode), FirstJobRaises(sender, pool));
            && s.failed == failMode && s.workers == [Handling] && s.queue != []
            && Running(s, pool).None? && Filing(s, pool) == sender
  {
    var s0 := Init(initial, failMode);
    var first := [Send(sender), Step(0, pool, Raises), Step(0, pool, Raises)];
    var last := [Step(0, pool, Raises), Step(0, pool, Raises)];
    RunOfThree(valid, s0, first[0], first[1], first[2]);
    RunSplits(valid, s0, first, last);
    var job := Job(0, sender, sender, false);
    var s1 := Exec(valid, s0, first[0]);
    assert s1.queue == [job] && s1.workers == [Posted];
    var s2 := Exec(valid, s1, first[1]);
    assert s2.workers == [Fetched(job, pool)];
    var s3 := Exec(valid, s2, first[2]);
    assert s3.workers == [Called(job, initial, pool)] && s3.callers == map[pool := sender];
    var s4 := Exec(valid, s3, last[0]);
    assert s4.workers == [Failing] && last[1..] == [last[1]] && last[1..][1..] == [];
    assert Run(valid, s4, [last[1]]) == Exec(valid, s4, last[1]);
    assert Patient(valid, s4, [last[1]]);
  }

  predicate RunsOnce(s: State) { forall i, j | 0 <= i < j < |s.ran| :: s.ran[i].id != s.ran[j].id }

  // The failing job is still the head of the queue, so a restart by the error handler
  // posts it again.
  lemma {:induction false} EarlyRestartRunsTwice(valid: Validator, s: State, value: int, more: seq<Action>)
    requires Inv(valid, s) && s.failed && s.workers != [] && valid(value)
    requires more == [Step(1, 0, Raises), Step(1, 0, Raises), Step(1, 0, Raises)]
    ensures var t := Exec(valid, s, Restart(value, false)); Patient(valid, t, more) && !RunsOnce(Run(valid, t, more))
  {
    var head := s.queue[0];
    var t := Exec(valid, s, Restart(value, false));
    assert t.workers == [s.workers[0], Posted];
    RunOfThree(valid, t, more[0], more[1], more[2]);
    var t1 := Exec(valid, t, more[0]);
    assert t1.workers == [s.workers[0], Fetched(head, 0)];
    var t2 := Exec(valid, t1, more[1]);
    assert t2.workers == [s.workers[0], Called(head, value, 0)];
    var t3 := Exec(valid, t2, more[2]);
    assert t3.ran[|s.ran| - 1] == head && t3.ran[|s.ran|] == head;
  }

  // So this is what a caller of `restart` has to see to, the error handler included:
  // that the failing worker is gone. Otherwise some schedule runs a job twice.
  lemma {:induction false} RestartIsSafeIff(valid: Validator, s: State, value: int)
    requires Inv(valid, s) && s.failed && valid(value)
    ensures s.workers == [] <==>
            forall more | Patient(valid, Exec(valid, s, Restart(value, false)), more) ::
              RunsOnce(Run(valid, Exec(valid, s, Restart(value, false)), more))
  {
    var t := Exec(valid, s, Restart(value, false));
    if s.workers == [] {
      forall more | Patient(valid, t, more) ensures RunsOnce(Run(valid, t, more)) {
        RestartKeepsInv(valid, s, value, false);
        RunKeepsInv(valid, t, more);
        var u := Run(valid, t, more);
        assert forall i, j | 0 <= i < j < |u.ran| :: Before(u.ran[i], u.ran[j]);
      }
    } else {
      EarlyRestartRunsTwice(valid, s, value, [Step(1, 0, Raises), Step(1, 0, Raises), Step(1, 0, Raises)]);
    }
  }

  // A job of old that nobody holds, neither the queue nor a worker.
  ghost predicate Gone(s: State, id: nat) {
    && id < s.next
    && (forall job | job in s.queue || job in s.ran :: job.id != id)
    && (forall w | w in s.workers && (w.Fetched? || w.Called?) :: w.job.id != id)
  }

  lemma {:induction false} EnqueueKeepsGone(s: State, job: Job, k: nat, id: nat)
    requires Gone(s, id) && k <= |s.queue| && job.id == s.next
    ensures Gone(Enqueue(s, job, k), id)
  {
    var t := Enqueue(s, job, k);
    assert forall j | j in t.queue :: j in s.queue || j == job;
    assert forall w | w in t.workers :: w in s.workers || w == Posted;
    assert t.ran == s.ran && t.next == s.next + 1;
  }

  lemma {:induction false} ShiftKeepsGone(s: State, i: nat, id: nat)
    requires Gone(s, id) && i < |s.workers|
    ensures Gone(Shift(s, i), id)
  {
    var t := Shift(s, i);
    assert forall w | w in t.workers :: w in s.workers || w == Posted;
    assert forall j | j in t.queue :: j in s.queue;
  }

  lemma {:induction false} CallKeepsGone(valid: Validator, s: State, i: nat, outcome: Outcome, id: nat)
    requires Gone(s, id) && i < |s.workers| && s.workers[i].Called?
    ensures var w := s.workers[i]; Gone(CallAction(valid, s, i, w.job, w.thread, outcome), id)
  {
    var w := s.workers[i];
    var t := CallAction(valid, s, i, w.job, w.thread, outcome);
    assert w in s.workers && t.workers == s.workers[i := t.workers[i]];
    assert forall v | v in t.workers :: v in s.workers || v == t.workers[i];
    assert forall j | j in t.ran :: j in s.ran || j == w.job;
  }

  lemma {:induction false} StepKeepsGone(valid: Validator, s: State, i: nat, on: nat, outcome: Outcome, id: nat)
    requires Gone(s, id) && i < |s.workers| && !s.workers[i].Called? && !s.workers[i].Leaving?
    ensures Gone(Advance(valid, s, i, on, outcome), id)
  {
    var t := Advance(valid, s, i, on, outcome);
    assert s.workers[i] in s.workers && t.workers == s.workers[i := t.workers[i]];
    assert forall w | w in t.workers :: w in s.workers || w == t.workers[i];
    assert s.workers[i].Posted? && s.queue != [] ==> s.queue[0] in s.queue;
  }

  lemma {:induction false} SendKeepsGone(s: State, thread: nat, id: nat)
    requires Gone(s, id)
    ensures Gone(DoSend(s, thread), id)
  {
  }

  lemma {:induction false} AwaitKeepsGone(s: State, thread: nat, id: nat)
    requires Gone(s, id)
    ensures Gone(DoAwait(s, thread), id)
  {
    var k := LastOf(s.queue, thread);
    if k >= 0 {
      EnqueueKeepsGone(s, Job(s.next, thread, thread, true), k + 1, id);
    } else {
      var t := DoAwait(s, thread);
      assert t.queue == s.queue && t.ran == s.ran && t.workers == s.workers;
    }
  }

  lemma {:induction false} ExecKeepsGone(valid: Validator, s: State, a: Action, id: nat)
    requires Gone(s, id)
    ensures Gone(Exec(valid, s, a), id)
  {
    match a
    case Send(thread) => SendKeepsGone(s, thread, id);
    case Await(thread) => AwaitKeepsGone(s, thread, id);
    case Step(i, on, outcome) =>
      if i < |s.workers| {
        match s.workers[i]
        case Leaving => ShiftKeepsGone(s, i, id);
        case Called(_, _, _) => CallKeepsGone(valid, s, i, outcome, id);
        case _ => StepKeepsGone(valid, s, i, on, outcome, id);
      }
    case Restart(_, _) =>
  }

  lemma {:induction false} GoneForever(valid: Validator, s: State, actions: seq<Action>, id: nat)
    requires Gone(s, id)
    ensures Gone(Run(valid, s, actions), id)
    decreases |actions|
  {
    if actions == [] {
    } else {
      ExecKeepsGone(valid, s, actions[0], id);
      GoneForever(valid, Exec(valid, s, actions[0]), actions[1..], id);
    }
  }

  // The failing worker of an agent restarted with `clear_actions` takes off the next job
  // that is sent.
  lemma {:induction false} NextJobIsLost(valid: Validator, t: State)
    requires !t.failed && t.queue == [] && t.workers == [Leaving]
    requires t.next !in t.latches && forall job | job in t.ran :: job.id != t.next
    ensures var more := [Send(0), Step(0, 0, Raises)];
            Patient(valid, t, more) && Keeping(valid, t, more) && !Somewhere(Run(valid, t, more), t.next)
            && Run(valid, t, more).next == t.next + 1
  {
    var more := [Send(0), Step(0, 0, Raises)];
    var t1 := Exec(valid, t, more[0]);
    var t2 := Exec(valid, t1, more[1]);
    assert t1.workers == [Leaving, Posted] && |t1.queue| == 1;
    assert t2.workers == [Posted] && t2.queue == [];
    assert more[1..] == [more[1]] && more[1..][1..] == [];
    assert Run(valid, t1, [more[1]]) == t2;
    assert Patient(valid, t1, [more[1]]) && Keeping(valid, t1, [more[1]]);
  }

  lemma {:induction false} EarlyClearLosesSome(valid: Validator, s: State, value: int) returns (more: seq<Action>)
    requires Inv(valid, s) && s.failed && s.workers != [] && valid(value)
    ensures var t := Exec(valid, s, Restart(value, true));
            Patient(valid, t, more) && Keeping(valid, t, more) && !NoneLost(Run(valid, t, more), s.next)
  {
    var t := Exec(valid, s, Restart(value, true));
    QueueIsOld(valid, s);
    more := [Send(0), Step(0, 0, Raises)];
    if s.workers[0].Leaving? {
      assert t.workers == [Leaving];
      NextJobIsLost(valid, t);
    } else {
      assert t.workers == [Handling];
      var u := Exec(valid, t, Step(0, 0, Raises));
      assert u.workers == [Leaving];
      NextJobIsLost(valid, u);
      var all := [Step(0, 0, Raises)] + more;
      assert all[0] == Step(0, 0, Raises) && all[1..] == more;
      more := all;
    }
  }

  // So for a clearing restart too: no later job is lost or run twice, in any schedule, if
  // and only if the failing worker is gone.
  lemma {:induction false} ClearingRestartIsSafeIff(valid: Validator, s: State, value: int)
    requires Inv(valid, s) && s.failed && valid(value)
    ensures var t := Exec(valid, s, Restart(value, true));
            s.workers == [] <==>
            forall more | Patient(valid, t, more) && Keeping(valid, t, more) ::
              RunsOnce(Run(valid, t, more)) && NoneLost(Run(valid, t, more), s.next)
  {
    var t := Exec(valid, s, Restart(value, true));
    if s.workers == [] {
      RestartKeepsInv(valid, s, value, true);
      forall more | Patient(valid, t, more) && Keeping(valid, t, more)
        ensures RunsOnce(Run(valid, t, more)) && NoneLost(Run(valid, t, more), s.next)
      {
        RunKeepsInv(valid, t, more);
        RunLosesNone(valid, t, more, s.next);
        var u := Run(valid, t, more);
        assert forall i, j | 0 <= i < j < |u.ran| :: Before(u.ran[i], u.ran[j]);
      }
    } else {
      var more := EarlyClearLosesSome(valid, s, value);
    }
  }

  // The same moment with `clear_actions`: the failing worker then removes the next job
  // that is sent, which never runs, whatever happens later.
  lemma {:induction false} EarlyClearLosesAJob(
      valid: Validator, s: State, value: int, thread: nat, on: nat, later: seq<Action>)
    requires Inv(valid, s) && s.failed && s.workers == [Leaving] && valid(value)
    ensures var t := Run(valid, s, [Restart(value, true), Send(thread), Step(0, on, Raises)]);
            && t.next == s.next + 1
            && forall job | job in Run(valid, t, later).ran :: job.id != s.next
  {
    RunOfThree(valid, s, Restart(value, true), Send(thread), Step(0, on, Raises));
    var t1 := Exec(valid, s, Restart(value, true));
    var t2 := Exec(valid, t1, Send(thread));
    var t3 := Exec(valid, t2, Step(0, on, Raises));
    assert t2.workers == [Leaving, Posted] && |t2.queue| == 1;
    assert t3.workers == [Posted] && t3.queue == [];
    GoneForever(valid, t3, later, s.next);
  }
}
