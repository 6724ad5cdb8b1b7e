/**
The callback chain as the library keeps and runs it: objects changed in place, a
compiled sequence cached in the chain, and one loop with a stack of skipped
levels that re-enters itself through the block handed to an around callback.
 */
module Callbacks {
  import opened Wrappers
  import opened CallbackMeaning
  import opened CallbackLaw

  class CallbackSequence {
    const nested: CallbackSequence?
    const around: Option<Callback>
    var before: seq<Callback>
    var after: seq<Callback>
    ghost const Repr: set<CallbackSequence>

    ghost predicate Valid()
      reads this, Repr
      decreases Repr
    {
      && this in Repr
      && (around.None? <==> nested == null)
      && (nested != null ==>
            nested in Repr && nested.Repr <= Repr && this !in nested.Repr && nested.Valid())
    }

    // The value this object stands for.
    ghost function Model(): Nest
      requires Valid()
      reads this, Repr
      decreases Repr
    {
      if nested == null then Innermost(before, after) else Level(before, around.value, nested.Model(), after)
    }

    constructor ()
      ensures Valid() && fresh(Repr) && Model() == Innermost([], [])
    {
      nested, around, before, after := null, None, [], [];
      Repr := {this};
    }

    constructor Around(inner: CallbackSequence, cb: Callback)
      requires inner.Valid()
      ensures Valid() && Repr == inner.Repr + {this} && Model() == Level([], cb, inner.Model(), [])
    {
      nested, around, before, after := inner, Some(cb), [], [];
      Repr := {this} + inner.Repr;
    }

    // `Callback#apply` to this sequence: the sequence to go on with.
    method Apply(cb: Callback) returns (r: CallbackSequence)
      requires Valid()
      modifies this
      ensures r.Valid() && Repr <= r.Repr && fresh(r.Repr - Repr)
      ensures r.Model() == CallbackMeaning.Apply(cb, old(Model()))
    {
      if cb.kind.Before? {
        before := [cb] + before;
        r := this;
      } else if cb.kind.After? {
        after := after + [cb];
        r := this;
      } else {
        r := new CallbackSequence.Around(this, cb);
      }
    }
  }

  // The closure state of one `run_callbacks`: what comes next, and the environment.
  class Run {
    const ctx: Context
    var next: CallbackSequence
    var env: Env

    constructor (ctx: Context, first: CallbackSequence, trace: Trace)
      ensures this.ctx == ctx && next == first && env == Env(false, Nothing, trace)
    {
      this.ctx, next, env := ctx, first, Env(false, Nothing, trace);
    }

    method InvokeBefore(current: CallbackSequence)
      modifies this`env
      ensures env == RunBefores(ctx, current.before, old(env))
    {
      var i := 0;
      while i < |current.before|
        invariant 0 <= i <= |current.before|
        invariant RunBefores(ctx, current.before[i..], env) == RunBefores(ctx, current.before, old(env))
      {
        env := RunBefore(ctx, current.before[i], env);
        i := i + 1;
      }
    }

    method InvokeAfter(current: CallbackSequence)
      modifies this`env
      ensures env == RunAfters(ctx, current.after, old(env))
    {
      var i := 0;
      while i < |current.after|
        invariant 0 <= i <= |current.after|
        invariant RunAfters(ctx, current.after[i..], env) == RunAfters(ctx, current.after, old(env))
      {
        env := RunAfter(ctx, current.after[i], env);
        i := i + 1;
      }
    }

    // `skipped.pop.invoke_after(env) while ...`
    method PopSkipped(stack: seq<CallbackSequence>)
      modifies this`env
      ensures env == Unwind(ctx, stack, old(env))
    {
      var skipped := stack;
      while skipped != []
        invariant Unwind(ctx, skipped, env) == Unwind(ctx, stack, old(env))
      {
        InvokeAfter(skipped[|skipped| - 1]);
        skipped := skipped[..|skipped| - 1];
      }
    }

    // The way out of a level: its afters, then those of the levels skipped above it.
    method Leave(current: CallbackSequence, skipped: seq<CallbackSequence>)
      modifies this`env
      ensures env == Unwind(ctx, skipped, RunAfters(ctx, current.after, old(env)))
    {
      InvokeAfter(current);
      PopSkipped(skipped);
    }

    // Calls an around callback with this very loop as its block, and puts `next`
    // back whatever the inner run left there.
    method CallAround(current: CallbackSequence)
      requires current.Valid() && current.around.Some? && next == current.nested
      modifies this
      ensures env == (var started := Start(current.around.value, old(env));
                      End(current.around.value, if ctx.user.says(started.trace)
                                                then EvalNest(ctx, old(current.nested.Model()), started) else started))
      ensures next == current
      decreases current.Repr, 0
    {
      env := Start(current.around.value, env);
      if ctx.user.says(env.trace) {
        InvokeSequence();
      }
      env := End(current.around.value, env);
      next := current;
    }

    // The way into a level: its befores, then the block of the innermost one, the
    // question whether to skip this one, or the call of its around callback.
    method Enter(current: CallbackSequence) returns (skips: bool)
      requires current.Valid() && next == current
      modifies this
      ensures skips ==> current.around.Some? && next == current.nested
      ensures EvalNest(ctx, current.Model(), old(env)) ==
              RunAfters(ctx, current.after, if skips then EvalNest(ctx, current.nested.Model(), env) else env)
      decreases current.Repr, 1
    {
      LevelMeans(ctx, current, env);
      InvokeBefore(current);
      if current.around.None? {
        env := Final(ctx, env);
        return false;
      }
      var (asked, answer) := Skips(ctx, current.around.value, env);
      env, skips := asked, answer;
      next := current.nested;
      if !skips {
        CallAround(current);
      }
    }

    // `invoke_sequence`: the loop. Whatever it leaves in `next`, its caller resets.
    method InvokeSequence()
      requires next.Valid()
      modifies this
      ensures env == EvalNest(ctx, old(next.Model()), old(env))
      decreases next.Repr, 2
    {
      ghost var goal := EvalNest(ctx, next.Model(), env);
      ghost var bound := next.Repr;
      var skipped: seq<CallbackSequence> := [];
      while true
        invariant next.Valid() && next.Repr <= bound
        invariant Unwind(ctx, skipped, EvalNest(ctx, next.Model(), env)) == goal
        decreases next.Repr
      {
        var current := next;
        var skips := Enter(current);
        if skips {
          ghost var below := EvalNest(ctx, next.Model(), env);
          assert Unwind(ctx, skipped, RunAfters(ctx, current.after, below)) == goal;
          UnwindOne(ctx, skipped, current, below);
          skipped := skipped + [current];
          continue;
        }
        Leave(current, skipped);
        return;
      }
    }
  }

  // Running the afters of the skipped levels, last skipped first.
  ghost function Unwind(ctx: Context, skipped: seq<CallbackSequence>, env: Env): Env
    reads skipped
    decreases |skipped|
  {
    if skipped == [] then env
    else Unwind(ctx, skipped[..|skipped| - 1], RunAfters(ctx, skipped[|skipped| - 1].after, env))
  }

  lemma {:induction false} UnwindOne(ctx: Context, skipped: seq<CallbackSequence>, current: CallbackSequence, env: Env)
    ensures Unwind(ctx, skipped + [current], env) == Unwind(ctx, skipped, RunAfters(ctx, current.after, env))
  {
    assert (skipped + [current])[..|skipped|] == skipped;
  }

  // One level of the nested form.
  lemma {:induction false} LevelMeans(ctx: Context, current: CallbackSequence, env: Env)
    requires current.Valid()
    ensures var ready := RunBefores(ctx, current.before, env);
            EvalNest(ctx, current.Model(), env) ==
              if current.around.None? then RunAfters(ctx, current.after, Final(ctx, ready))
              else
                var cb := current.around.value;
                var (asked, skips) := Skips(ctx, cb, ready);
                if skips then RunAfters(ctx, current.after, EvalNest(ctx, current.nested.Model(), asked))
                else
                  var started := Start(cb, asked);
                  RunAfters(ctx, current.after,
                            End(cb, if ctx.user.says(started.trace)
                                    then EvalNest(ctx, current.nested.Model(), started) else started))
  {
  }

  // --- Registration ---------------------------------------------------------

  predicate Duplicates(cb: Callback, other: Callback) {
    cb.filter.Symbol? && cb.kind == other.kind && cb.filter == other.filter
  }

  function WithoutDuplicates(chain: seq<Callback>, cb: Callback): seq<Callback> {
    if chain == [] then []
    else (if Duplicates(cb, chain[0]) then [] else [chain[0]]) + WithoutDuplicates(chain[1..], cb)
  }

  function WithoutId(chain: seq<Callback>, id: nat): seq<Callback> {
    if chain == [] then [] else (if chain[0].id == id then [] else [chain[0]]) + WithoutId(chain[1..], id)
  }

  function Appended(chain: seq<Callback>, cbs: seq<Callback>): seq<Callback>
    decreases |cbs|
  {
    if cbs == [] then chain else Appended(WithoutDuplicates(chain, cbs[0]) + [cbs[0]], cbs[1..])
  }

  function Prepended(chain: seq<Callback>, cbs: seq<Callback>): seq<Callback>
    decreases |cbs|
  {
    if cbs == [] then chain else Prepended([cbs[0]] + WithoutDuplicates(chain, cbs[0]), cbs[1..])
  }

  // `matches?`. A callback is keyed by its filter, but by the number of a proc, which no
  // proc equals.
  predicate Matches(cb: Callback, kind: Kind, filter: Filter) {
    cb.kind == kind && cb.filter == filter && !filter.Proc?
  }

  // The first callback of this kind and filter, or the length of the chain.
  function Find(chain: seq<Callback>, kind: Kind, filter: Filter): (i: nat)
    ensures i <= |chain|
    ensures i < |chain| ==> Matches(chain[i], kind, filter)
    ensures forall j | 0 <= j < i :: !Matches(chain[j], kind, filter)
  {
    if chain == [] then 0
    else if Matches(chain[0], kind, filter) then 0
    else 1 + Find(chain[1..], kind, filter)
  }

  // What `skip_callback` is asked: conditional when an :if or :unless is given.
  datatype Skip = Skip(kind: Kind, filter: Filter, conditional: bool, ifs: seq<nat>, unlesses: seq<nat>, raises: bool)

  // The skipping :if makes the callback run only unless it holds, and conversely.
  function Merged(cb: Callback, s: Skip, id: nat): Callback {
    cb.(id := id, ifs := cb.ifs + s.unlesses, unlesses := cb.unlesses + s.ifs)
  }

  // What stands before the callback to be deleted, its replacement included.
  function Kept(chain: seq<Callback>, s: Skip, id: nat, i: nat): seq<Callback>
    requires i < |chain|
  {
    if s.conditional then chain[..i] + [Merged(chain[i], s, id)] else chain[..i]
  }

  // The chain after one filter was skipped: as it was when nothing matches.
  function Skipped(chain: seq<Callback>, s: Skip, id: nat): seq<Callback> {
    var i := Find(chain, s.kind, s.filter);
    if i == |chain| then chain else WithoutId(Kept(chain, s, id, i) + chain[i..], chain[i].id)
  }

  class CallbackChain {
    var chain: seq<Callback>
    var callbacks: CallbackSequence?

    // The cache is empty or stands for the current chain.
    ghost predicate Valid()
      reads this, callbacks, if callbacks == null then {} else callbacks.Repr
    {
      callbacks != null ==> callbacks.Valid() && callbacks.Model() == Compiled(chain)
    }

    constructor (chain: seq<Callback>)
      ensures Valid() && this.chain == chain
    {
      this.chain, callbacks := chain, null;
    }

    method Compile() returns (s: CallbackSequence)
      requires Valid()
      modifies this`callbacks
      ensures Valid() && callbacks == s && s.Valid() && s.Model() == Compiled(chain)
    {
      if callbacks == null {
        s := new CallbackSequence();
        var i := |chain|;
        while i > 0
          invariant 0 <= i <= |chain| && s.Valid() && fresh(s.Repr)
          invariant s.Model() == Compiled(chain[i..])
        {
          i := i - 1;
          assert chain[i..][0] == chain[i] && chain[i..][1..] == chain[i + 1..];
          s := s.Apply(chain[i]);
        }
        callbacks := s;
      }
      s := callbacks;
    }

    method RemoveDuplicates(cb: Callback)
      modifies this
      ensures Valid() && callbacks == null && chain == WithoutDuplicates(old(chain), cb)
    {
      callbacks := null;
      var i, kept := 0, [];
      ghost var goal := WithoutDuplicates(chain, cb);
      while i < |chain|
        invariant 0 <= i <= |chain|
        invariant kept + WithoutDuplicates(chain[i..], cb) == goal
      {
        assert chain[i..][1..] == chain[i + 1..];
        if !Duplicates(cb, chain[i]) {
          kept := kept + [chain[i]];
        }
        i := i + 1;
      }
      chain := kept;
    }

    method Append(cbs: seq<Callback>)
      modifies this
      requires Valid()
      ensures Valid() && chain == Appended(old(chain), cbs)
    {
      var i := 0;
      while i < |cbs|
        invariant 0 <= i <= |cbs| && Valid()
        invariant Appended(chain, cbs[i..]) == Appended(old(chain), cbs)
      {
        RemoveDuplicates(cbs[i]);
        chain := chain + [cbs[i]];
        i := i + 1;
      }
    }

    method Prepend(cbs: seq<Callback>)
      modifies this
      requires Valid()
      ensures Valid() && chain == Prepended(old(chain), cbs)
    {
      var i := 0;
      while i < |cbs|
        invariant 0 <= i <= |cbs| && Valid()
        invariant Prepended(chain, cbs[i..]) == Prepended(old(chain), cbs)
      {
        RemoveDuplicates(cbs[i]);
        chain := [cbs[i]] + chain;
        i := i + 1;
      }
    }

    method Insert(index: nat, cb: Callback)
      requires index <= |chain|
      modifies this
      ensures Valid() && callbacks == null && chain == old(chain)[..index] + [cb] + old(chain)[index..]
    {
      callbacks := null;
      chain := chain[..index] + [cb] + chain[index..];
    }

    method Delete(id: nat)
      modifies this
      ensures Valid() && callbacks == null && chain == WithoutId(old(chain), id)
    {
      callbacks := null;
      chain := WithoutId(chain, id);
    }

    // One filter of `skip_callback`; `id` is the identity of the merged callback.
    method SkipOne(s: Skip, id: nat) returns (raised: bool)
      requires Valid()
      modifies this
      ensures Valid()
      ensures raised <==> s.raises && Find(old(chain), s.kind, s.filter) == |old(chain)|
      ensures chain == Skipped(old(chain), s, id)
    {
      var i := Find(chain, s.kind, s.filter);
      if i == |chain| {
        return s.raises;
      }
      var callback := chain[i];
      if s.conditional {
        Insert(i, Merged(callback, s, id));
      }
      Delete(callback.id);
      assert old(chain)[..i] + old(chain)[i..] == old(chain);
      raised := false;
    }
  }

  // A symbol occurs at most once per kind.
  ghost predicate NoDuplicates(chain: seq<Callback>) {
    forall i, j | 0 <= i < j < |chain| :: !Duplicates(chain[i], chain[j])
  }

  // Callback objects are distinct.
  ghost predicate DistinctIds(chain: seq<Callback>) {
    forall i, j | 0 <= i < j < |chain| :: chain[i].id != chain[j].id
  }

  // --- What registration promises -------------------------------------------

  datatype Update = Set(callbacks: seq<Callback>, prepend: bool) | Unset(skip: Skip, id: nat)

  // A raising skip leaves the chain of the class as it was.
  function Updated(chain: seq<Callback>, u: Update): seq<Callback> {
    match u
    case Set(cbs, prepend) => if prepend then Prepended(chain, cbs) else Appended(chain, cbs)
    case Unset(s, id) => Skipped(chain, s, id)
  }

  function UpdatedAll(chain: seq<Callback>, us: seq<Update>): seq<Callback>
    decreases |us|
  {
    if us == [] then chain else UpdatedAll(Updated(chain, us[0]), us[1..])
  }

  lemma {:induction false} WithoutDuplicatesKeeps(chain: seq<Callback>, cb: Callback)
    requires NoDuplicates(chain)
    ensures NoDuplicates(WithoutDuplicates(chain, cb))
    ensures forall c | c in WithoutDuplicates(chain, cb) :: c in chain && !Duplicates(cb, c)
    ensures forall c | c in chain && !Duplicates(cb, c) :: c in WithoutDuplicates(chain, cb)
  {
    if chain == [] {
    } else {
      WithoutDuplicatesKeeps(chain[1..], cb);
      assert forall c | c in chain[1..] :: !Duplicates(chain[0], c);
    }
  }

  lemma {:induction false} WithoutIdKeeps(chain: seq<Callback>, id: nat)
    requires NoDuplicates(chain)
    ensures forall c | c in WithoutId(chain, id) :: c in chain && c.id != id
    ensures NoDuplicates(WithoutId(chain, id))
  {
    if chain == [] {
    } else {
      WithoutIdKeeps(chain[1..], id);
      assert forall c | c in chain[1..] :: !Duplicates(chain[0], c);
    }
  }

  // Registering leaves no symbol twice, and the last one registered stands at the
  // end that was asked for.
  lemma {:induction false} SetKeepsUnique(chain: seq<Callback>, cbs: seq<Callback>)
    requires NoDuplicates(chain)
    ensures NoDuplicates(Appended(chain, cbs)) && NoDuplicates(Prepended(chain, cbs))
    ensures cbs != [] ==>
              Appended(chain, cbs) != [] && Appended(chain, cbs)[|Appended(chain, cbs)| - 1] == cbs[|cbs| - 1]
    ensures cbs != [] ==> Prepended(chain, cbs) != [] && Prepended(chain, cbs)[0] == cbs[|cbs| - 1]
    decreases |cbs|
  {
    if cbs == [] {
    } else {
      var rest := WithoutDuplicates(chain, cbs[0]);
      WithoutDuplicatesKeeps(chain, cbs[0]);
      assert forall c | c in rest :: !Duplicates(c, cbs[0]);
      SetKeepsUnique(rest + [cbs[0]], cbs[1..]);
      SetKeepsUnique([cbs[0]] + rest, cbs[1..]);
    }
  }

  predicate DuplicatedBy(c: Callback, cbs: seq<Callback>) { exists cb :: cb in cbs && Duplicates(cb, c) }

  lemma {:induction false} DuplicatedByFirst(c: Callback, cbs: seq<Callback>)
    requires cbs != []
    ensures DuplicatedBy(c, cbs) <==> Duplicates(cbs[0], c) || DuplicatedBy(c, cbs[1..])
  {
    assert cbs == [cbs[0]] + cbs[1..];
    if cb :| cb in cbs[1..] && Duplicates(cb, c) {
      assert cb in cbs;
    }
  }

  // What registering leaves of the chain, in its order.
  function Remaining(chain: seq<Callback>, cbs: seq<Callback>): seq<Callback> {
    if chain == [] then []
    else (if DuplicatedBy(chain[0], cbs) then [] else [chain[0]]) + Remaining(chain[1..], cbs)
  }

  function Reversed(cbs: seq<Callback>): seq<Callback> {
    if cbs == [] then [] else Reversed(cbs[1..]) + [cbs[0]]
  }

  lemma {:induction false} RemainingSplits(left: seq<Callback>, right: seq<Callback>, cbs: seq<Callback>)
    ensures Remaining(left + right, cbs) == Remaining(left, cbs) + Remaining(right, cbs)
  {
    if left == [] {
      assert left + right == right;
    } else {
      assert (left + right)[1..] == left[1..] + right;
      RemainingSplits(left[1..], right, cbs);
    }
  }

  lemma {:induction false} RemainingAfterOne(chain: seq<Callback>, cbs: seq<Callback>)
    requires cbs != []
    ensures Remaining(WithoutDuplicates(chain, cbs[0]), cbs[1..]) == Remaining(chain, cbs)
  {
    if chain == [] {
    } else {
      RemainingAfterOne(chain[1..], cbs);
      var rest := WithoutDuplicates(chain[1..], cbs[0]);
      DuplicatedByFirst(chain[0], cbs);
      assert ([chain[0]] + rest)[1..] == rest && [] + rest == rest;
    }
  }

  lemma {:induction false} NoneLeftOut(cb: Callback, cbs: seq<Callback>)
    requires forall other | other in cbs :: !Duplicates(other, cb)
    ensures Remaining([cb], cbs) == [cb]
  {
  }

  lemma {:induction false} FirstIsKept(chain: seq<Callback>, cbs: seq<Callback>)
    requires cbs != [] && NoDuplicates(cbs)
    ensures NoDuplicates(cbs[1..]) && Remaining([cbs[0]], cbs[1..]) == [cbs[0]]
    ensures Remaining(WithoutDuplicates(chain, cbs[0]), cbs[1..]) == Remaining(chain, cbs)
  {
    forall other | other in cbs[1..] ensures !Duplicates(other, cbs[0]) {
      var k :| 0 <= k < |cbs[1..]| && cbs[1..][k] == other;
      assert !Duplicates(cbs[0], cbs[k + 1]);
    }
    NoneLeftOut(cbs[0], cbs[1..]);
    RemainingAfterOne(chain, cbs);
  }

  lemma {:induction false} AppendKeepsOrder(chain: seq<Callback>, cbs: seq<Callback>)
    requires NoDuplicates(cbs)
    ensures Appended(chain, cbs) == Remaining(chain, cbs) + cbs
    decreases |cbs|
  {
    if cbs == [] {
      NothingRegistered(chain);
    } else {
      var rest := WithoutDuplicates(chain, cbs[0]);
      FirstIsKept(chain, cbs);
      AppendKeepsOrder(rest + [cbs[0]], cbs[1..]);
      RemainingSplits(rest, [cbs[0]], cbs[1..]);
      assert cbs == [cbs[0]] + cbs[1..];
    }
  }

  lemma {:induction false} PrependKeepsOrder(chain: seq<Callback>, cbs: seq<Callback>)
    requires NoDuplicates(cbs)
    ensures Prepended(chain, cbs) == Reversed(cbs) + Remaining(chain, cbs)
    decreases |cbs|
  {
    if cbs == [] {
      NothingRegistered(chain);
    } else {
      var rest := WithoutDuplicates(chain, cbs[0]);
      FirstIsKept(chain, cbs);
      PrependKeepsOrder([cbs[0]] + rest, cbs[1..]);
      RemainingSplits([cbs[0]], rest, cbs[1..]);
    }
  }

  // Registering callbacks that do not duplicate one another puts all of them at the end
  // asked for, in the order given or reversed, and leaves the others in theirs: all but
  // those of the same kind that name the same method as one of them.
  lemma {:induction false} SetKeepsOrder(chain: seq<Callback>, cbs: seq<Callback>)
    requires NoDuplicates(cbs)
    ensures Appended(chain, cbs) == Remaining(chain, cbs) + cbs
    ensures Prepended(chain, cbs) == Reversed(cbs) + Remaining(chain, cbs)
    ensures forall c :: c in Remaining(chain, cbs) <==>
              c in chain && !(c.filter.Symbol? && exists d :: d in cbs && d.kind == c.kind && d.filter == c.filter)
  {
    AppendKeepsOrder(chain, cbs);
    PrependKeepsOrder(chain, cbs);
    RemainingMembers(chain, cbs);
  }

  lemma {:induction false} RemainingMembers(chain: seq<Callback>, cbs: seq<Callback>)
    ensures forall c :: c in Remaining(chain, cbs) <==>
              c in chain && !(c.filter.Symbol? && exists d :: d in cbs && d.kind == c.kind && d.filter == c.filter)
  {
    if chain == [] {
    } else {
      RemainingMembers(chain[1..], cbs);
      assert chain == [chain[0]] + chain[1..];
    }
  }

  lemma {:induction false} NothingRegistered(chain: seq<Callback>)
    ensures Remaining(chain, []) == chain
  {
    if chain == [] {
    } else {
      NothingRegistered(chain[1..]);
    }
  }

  lemma {:induction false} WithoutIdSplits(left: seq<Callback>, right: seq<Callback>, id: nat)
    ensures WithoutId(left + right, id) == WithoutId(left, id) + WithoutId(right, id)
  {
    if left == [] {
      assert left + right == right;
    } else {
      assert (left + right)[1..] == left[1..] + right;
      WithoutIdSplits(left[1..], right, id);
    }
  }

  lemma {:induction false} NothingWithId(chain: seq<Callback>, id: nat)
    requires forall i | 0 <= i < |chain| :: chain[i].id != id
    ensures WithoutId(chain, id) == chain
  {
    if chain == [] {
    } else {
      NothingWithId(chain[1..], id);
    }
  }

  // Deleting c from where it stands.
  lemma {:induction false} WithoutIdAt(left: seq<Callback>, c: Callback, right: seq<Callback>)
    ensures WithoutId(left + [c] + right, c.id) == WithoutId(left, c.id) + WithoutId(right, c.id)
  {
    WithoutIdSplits(left + [c], right, c.id);
    WithoutIdSplits(left, [c], c.id);
    assert WithoutId([c], c.id) == [] + WithoutId([c][1..], c.id);
  }

  // `delete` takes off exactly the one callback.
  lemma {:induction false} DeleteRemovesOne(chain: seq<Callback>, i: nat)
    requires DistinctIds(chain) && i < |chain|
    ensures WithoutId(chain, chain[i].id) == chain[..i] + chain[i + 1..]
  {
    assert chain == chain[..i] + [chain[i]] + chain[i + 1..];
    WithoutIdAt(chain[..i], chain[i], chain[i + 1..]);
    NothingWithId(chain[..i], chain[i].id);
    NothingWithId(chain[i + 1..], chain[i].id);
  }

  // And it undoes `insert`, wherever that was.
  lemma {:induction false} DeleteUndoesInsert(chain: seq<Callback>, index: nat, cb: Callback)
    requires index <= |chain| && forall c | c in chain :: c.id != cb.id
    ensures WithoutId(chain[..index] + [cb] + chain[index..], cb.id) == chain
  {
    var left, right := chain[..index], chain[index..];
    assert left + right == chain;
    assert forall c | c in left || c in right :: c in chain;
    WithoutIdAt(left, cb, right);
    NothingWithId(left, cb.id);
    NothingWithId(right, cb.id);
  }

  lemma {:induction false} SkippedAt(chain: seq<Callback>, s: Skip, id: nat)
    requires Find(chain, s.kind, s.filter) < |chain|
    ensures var i := Find(chain, s.kind, s.filter);
            Skipped(chain, s, id) ==
              WithoutId(Kept(chain, s, id, i), chain[i].id) + WithoutId(chain[i + 1..], chain[i].id)
  {
    var i := Find(chain, s.kind, s.filter);
    var left, right := Kept(chain, s, id, i), chain[i + 1..];
    WithoutIdAt(left, chain[i], right);
    assert left + chain[i..] == left + [chain[i]] + right;
  }

  // With conditions that do not look at what happened before: the callback skipped on
  // conditions runs if and only if it would have, and it is to be skipped neither by an `if`
  // that holds nor by an `unless` that does not.
  lemma {:induction false} MergedRunsUnlessSkipped(
      ctx: Context, yes: nat -> bool, cb: Callback, s: Skip, id: nat, env: Env)
    requires Steady(ctx, yes)
    ensures AllHold(ctx, Tests(Merged(cb, s, id)), env).1 <==>
              && AllHold(ctx, Tests(cb), env).1
              && (forall c | c in s.ifs :: !yes(c)) && (forall c | c in s.unlesses :: yes(c))
    ensures Merged(cb, s, id).id == id && Merged(cb, s, id).kind == cb.kind && Merged(cb, s, id).filter == cb.filter
  {
    SteadyConditions(ctx, yes, cb, env);
    SteadyConditions(ctx, yes, Merged(cb, s, id), env);
  }

  // Skipping touches one callback only: without options it goes, with options it
  // is replaced where it stood.
  lemma {:induction false} SkipTouchesOne(chain: seq<Callback>, s: Skip, id: nat)
    requires DistinctIds(chain) && forall c | c in chain :: c.id != id
    ensures var i := Find(chain, s.kind, s.filter);
            Skipped(chain, s, id) ==
              if i == |chain| then chain
              else chain[..i] + (if s.conditional then [Merged(chain[i], s, id)] else []) + chain[i + 1..]
  {
    var i := Find(chain, s.kind, s.filter);
    if i < |chain| {
      SkippedAt(chain, s, id);
      var c, kept := chain[i], Kept(chain, s, id, i);
      assert forall j | 0 <= j < |kept| :: kept[j].id != c.id;
      NothingWithId(kept, c.id);
      NothingWithId(chain[i + 1..], c.id);
    }
  }

  // A proc given to `skip_callback` is never found: the call raises if it may, and changes
  // nothing.
  lemma {:induction false} ProcsAreNeverSkipped(chain: seq<Callback>, s: Skip, id: nat)
    requires s.filter.Proc?
    ensures Find(chain, s.kind, s.filter) == |chain| && Skipped(chain, s, id) == chain
  {
  }

  lemma {:induction false} SkipKeepsUnique(chain: seq<Callback>, s: Skip, id: nat)
    requires NoDuplicates(chain)
    ensures NoDuplicates(Skipped(chain, s, id))
  {
    var i := Find(chain, s.kind, s.filter);
    if i < |chain| {
      SkippedAt(chain, s, id);
      KeptIsUnique(chain, s, id, i);
      JoinWithoutId(Kept(chain, s, id, i), chain[i + 1..], chain[i].id);
    }
  }

  lemma {:induction false} JoinWithoutId(left: seq<Callback>, right: seq<Callback>, id: nat)
    requires NoDuplicates(left) && NoDuplicates(right)
    requires forall x, y | x in left && y in right :: !Duplicates(x, y)
    ensures NoDuplicates(WithoutId(left, id) + WithoutId(right, id))
  {
    WithoutIdKeeps(left, id);
    WithoutIdKeeps(right, id);
    JoinKeepsUnique(WithoutId(left, id), WithoutId(right, id));
  }

  lemma {:induction false} JoinKeepsUnique(left: seq<Callback>, right: seq<Callback>)
    requires NoDuplicates(left) && NoDuplicates(right)
    requires forall x, y | x in left && y in right :: !Duplicates(x, y)
    ensures NoDuplicates(left + right)
  {
  }

  // What a skip leaves before the rest differs from it as the callback skipped did.
  lemma {:induction false} KeptIsUnique(chain: seq<Callback>, s: Skip, id: nat, i: nat)
    requires NoDuplicates(chain) && i < |chain|
    ensures NoDuplicates(Kept(chain, s, id, i)) && NoDuplicates(chain[i + 1..])
    ensures forall x, y | x in Kept(chain, s, id, i) && y in chain[i + 1..] :: !Duplicates(x, y)
  {
    var right := chain[i + 1..];
    forall x, y | x in Kept(chain, s, id, i) && y in right ensures !Duplicates(x, y) {
      var j :| 0 <= j < |right| && right[j] == y;
      assert chain[i + 1 + j] == y;
    }
  }

  // After any registrations and skips, from an empty chain, a symbol filter occurs
  // at most once per kind.
  lemma {:induction false} UpdatesKeepUnique(chain: seq<Callback>, us: seq<Update>)
    requires NoDuplicates(chain)
    ensures NoDuplicates(UpdatedAll(chain, us))
    decreases |us|
  {
    if us == [] {
    } else {
      match us[0] {
        case Set(cbs, _) => SetKeepsUnique(chain, cbs);
        case Unset(s, id) => SkipKeepsUnique(chain, s, id);
      }
      UpdatesKeepUnique(Updated(chain, us[0]), us[1..]);
    }
  }

  // What `run_callbacks` computes.
  function Ran(ctx: Context, chain: seq<Callback>, trace: Trace): Env {
    var env := Env(false, Nothing, trace);
    if chain != [] then Eval(ctx, chain, env) else if ctx.blockGiven then Final(ctx, env) else env
  }

  // The law decides, but that an empty chain without a block does nothing.
  ghost predicate Promised(ctx: Context, chain: seq<Callback>, trace: Trace, out: Env) {
    var env := Env(false, Nothing, trace);
    if chain == [] && !ctx.blockGiven then out == env else IsRun(ctx, chain, env, out)
  }

  lemma {:induction false} RanIsPromised(ctx: Context, chain: seq<Callback>, trace: Trace)
    ensures Promised(ctx, chain, trace, Ran(ctx, chain, trace))
  {
    OnlyRunsAreLawful(ctx, chain, Env(false, Nothing, trace), Ran(ctx, chain, trace));
  }

  // `run_callbacks`: whatever is cached, the effect is the direct recursion over
  // the current chain, and so the one the law of the current chain allows.
  method RunCallbacks(callbacks: CallbackChain, ctx: Context, trace: Trace) returns (out: Env)
    requires callbacks.Valid()
    modifies callbacks`callbacks
    ensures callbacks.Valid()
    ensures out == Ran(ctx, callbacks.chain, trace)
    ensures Promised(ctx, callbacks.chain, trace, out)
  {
    if callbacks.chain == [] {
      RanIsPromised(ctx, [], trace);
      out := Env(false, Nothing, trace);
      if ctx.blockGiven {
        out := Final(ctx, out);
      }
      return;
    }
    var first := callbacks.Compile();
    CompileKeepsMeaning(ctx, callbacks.chain, Env(false, Nothing, trace));
    var run := new Run(ctx, first, trace);
    if first.around.None? {
      run.InvokeBefore(first);
      run.env := Final(ctx, run.env);
      run.InvokeAfter(first);
    } else {
      run.InvokeSequence();
    }
    out := run.env;
    RanIsPromised(ctx, callbacks.chain, trace);
  }
}
