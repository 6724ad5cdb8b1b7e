/**
What a run of a callback chain looks like from outside: the law its trace and its value
obey, stated callback by callback in terms of what the user's code answered. The law
determines the run, and every run obeys it.
 */
module CallbackLaw {
  import opened CallbackMeaning

  // One callback's part of a trace: the conditions asked, then its own events.
  datatype Visit = Visit(asked: Trace, own: Trace)

  const NO_VISIT := Visit([], [])

  // The visits on the way down, first callback first.
  function Down(visits: seq<Visit>): Trace {
    if visits == [] then [] else visits[0].asked + visits[0].own + Down(visits[1..])
  }

  // The visits on the way up, last callback first.
  function Up(visits: seq<Visit>): Trace {
    if visits == [] then [] else Up(visits[1..]) + (visits[0].asked + visits[0].own)
  }

  predicate Halts(v: Visit) { |v.own| == 2 }

  predicate Starts(v: Visit) { v.own != [] && v.own[0].AroundStart? }

  // --- The conditions ----------------------------------------------------------

  function Conditions(cb: Callback): nat { |cb.ifs| + |cb.unlesses| }

  function Condition(cb: Callback, k: nat): nat
    requires k < Conditions(cb)
  {
    if k < |cb.ifs| then cb.ifs[k] else cb.unlesses[k - |cb.ifs|]
  }

  // The k-th condition was answered as the callback wants it: an `if` with yes, an
  // `unless` with no.
  predicate Favours(ctx: Context, cb: Callback, here: Trace, asked: Trace, k: nat)
    requires k < |asked|
  {
    ctx.user.says(here + asked[..k + 1]) == (k < |cb.ifs|)
  }

  // The conditions are asked in turn, up to the first unfavourable answer.
  ghost predicate Asks(ctx: Context, cb: Callback, here: Trace, value: Value, asked: Trace) {
    && |asked| <= Conditions(cb)
    && (forall k | 0 <= k < |asked| :: asked[k] == Asked(Condition(cb, k), value))
    && (forall k | 0 <= k < |asked| - 1 :: Favours(ctx, cb, here, asked, k))
    && (|asked| < Conditions(cb) ==> asked != [] && !Favours(ctx, cb, here, asked, |asked| - 1))
  }

  ghost predicate Hold(ctx: Context, cb: Callback, here: Trace, asked: Trace) {
    |asked| == Conditions(cb) && forall k | 0 <= k < |asked| :: Favours(ctx, cb, here, asked, k)
  }

  // --- The law -------------------------------------------------------------------

  // The trace before callback i is visited on the way down, and on the way up.
  function Above(start: Trace, ins: seq<Visit>, i: nat): Trace
    requires i <= |ins|
  {
    start + Down(ins[..i])
  }

  function Below(start: Trace, ins: seq<Visit>, mid: Trace, outs: seq<Visit>, i: nat): Trace
    requires i < |outs|
  {
    start + Down(ins) + mid + Up(outs[i + 1..])
  }

  ghost predicate HaltedAt(halted: bool, ins: seq<Visit>, i: nat)
    requires i <= |ins|
  {
    halted || exists k | 0 <= k < i :: Halts(ins[k])
  }

  // An around callback that started yields or not: the user says after it.
  predicate Yields(ctx: Context, start: Trace, ins: seq<Visit>, k: nat)
    requires k < |ins|
  {
    Starts(ins[k]) ==> ctx.user.says(Above(start, ins, k + 1))
  }

  ghost predicate Reached(ctx: Context, start: Trace, ins: seq<Visit>, i: nat)
    requires i <= |ins|
  {
    forall k | 0 <= k < i :: Yields(ctx, start, ins, k)
  }

  // On the way down: a callback that is not passed over asks its conditions, and if they
  // hold, a before runs, and halts exactly if the user says so, and an around starts.
  ghost predicate Enters(ctx: Context, cb: Callback, here: Trace, passed: bool, value: Value, v: Visit) {
    if passed || cb.kind.After? then v == NO_VISIT
    else
      && Asks(ctx, cb, here, value, v.asked)
      && v.own ==
           if !Hold(ctx, cb, here, v.asked) then []
           else if cb.kind.Around? then [AroundStart(cb.id, value)]
           else if ctx.user.says(here + v.asked + [RanBefore(cb.id, value)])
           then [RanBefore(cb.id, value), HaltedBy(cb.id)]
           else [RanBefore(cb.id, value)]
  }

  // On the way up: exactly the arounds that started end; an after that is not passed over
  // asks its conditions, and if they hold, it runs.
  ghost predicate Leaves(
      ctx: Context, cb: Callback, here: Trace, passed: bool, started: bool, value: Value, v: Visit) {
    match cb.kind
    case Before => v == NO_VISIT
    case Around => v == Visit([], if started then [AroundEnd(cb.id, value)] else [])
    case After =>
      if passed then v == NO_VISIT
      else
        && Asks(ctx, cb, here, value, v.asked)
        && v.own == if Hold(ctx, cb, here, v.asked) then [RanAfter(cb.id, value)] else []
  }

  // In the middle: the block runs exactly if it is given, nothing halted and every around
  // that started yielded.
  ghost predicate Middle(ctx: Context, env: Env, out: Env, ins: seq<Visit>, mid: Trace) {
    && (out.halted <==> HaltedAt(env.halted, ins, |ins|))
    && if !Reached(ctx, env.trace, ins, |ins|) then mid == [] && out.value == env.value
       else if out.halted then mid == [] && out.value == False
       else if !ctx.blockGiven then mid == [] && out.value == True
       else mid == [Block] && out.value == ctx.user.produces(env.trace + Down(ins) + [Block])
  }

  ghost predicate Lawful(
      ctx: Context, chain: seq<Callback>, env: Env, out: Env, ins: seq<Visit>, mid: Trace, outs: seq<Visit>) {
    && |ins| == |outs| == |chain|
    && out.trace == env.trace + Down(ins) + mid + Up(outs)
    && Middle(ctx, env, out, ins, mid)
    && AllEnter(ctx, chain, env, ins) && AllLeave(ctx, chain, env, out, ins, mid, outs)
  }

  ghost predicate AllEnter(ctx: Context, chain: seq<Callback>, env: Env, ins: seq<Visit>)
    requires |ins| == |chain|
  {
    forall i | 0 <= i < |chain| :: EntersAt(ctx, chain, env, ins, i)
  }

  ghost predicate AllLeave(
      ctx: Context, chain: seq<Callback>, env: Env, out: Env, ins: seq<Visit>, mid: Trace, outs: seq<Visit>)
    requires |ins| == |outs| == |chain|
  {
    forall i | 0 <= i < |chain| :: LeavesAt(ctx, chain, env, out, ins, mid, outs, i)
  }

  ghost predicate EntersAt(ctx: Context, chain: seq<Callback>, env: Env, ins: seq<Visit>, i: nat)
    requires i < |chain| == |ins|
  {
    var passed := HaltedAt(env.halted, ins, i) || !Reached(ctx, env.trace, ins, i);
    Enters(ctx, chain[i], Above(env.trace, ins, i), passed, env.value, ins[i])
  }

  ghost predicate LeavesAt(
      ctx: Context, chain: seq<Callback>, env: Env, out: Env, ins: seq<Visit>, mid: Trace, outs: seq<Visit>, i: nat)
    requires i < |chain| == |ins| == |outs|
  {
    var passed := !Reached(ctx, env.trace, ins, i) || (ctx.skipAfterIfHalted && out.halted);
    Leaves(ctx, chain[i], Below(env.trace, ins, mid, outs, i), passed, Starts(ins[i]), out.value, outs[i])
  }

  // A trace and a value that the law explains.
  ghost predicate IsRun(ctx: Context, chain: seq<Callback>, env: Env, out: Env) {
    exists ins, mid, outs :: Lawful(ctx, chain, env, out, ins, mid, outs)
  }

  // --- Every run obeys it -----------------------------------------------------------

  // From condition |first| on, all those before having been answered favourably.
  lemma {:induction false} AskFrom(ctx: Context, cb: Callback, env: Env, first: Trace) returns (asked: Trace)
    requires |first| <= Conditions(cb)
    requires forall k | 0 <= k < |first| :: first[k] == Asked(Condition(cb, k), env.value)
    requires forall k | 0 <= k < |first| :: Favours(ctx, cb, env.trace, first, k)
    ensures Asks(ctx, cb, env.trace, env.value, asked)
    ensures AllHold(ctx, Tests(cb)[|first|..], env.(trace := env.trace + first)) ==
              (env.(trace := env.trace + asked), Hold(ctx, cb, env.trace, asked))
    decreases Conditions(cb) - |first|
  {
    var j := |first|;
    if j == Conditions(cb) {
      asked := first;
    } else {
      var one := first + [Asked(Condition(cb, j), env.value)];
      var tests := Tests(cb)[j..];
      assert tests[0] == Test(Condition(cb, j), j < |cb.ifs|) && tests[1..] == Tests(cb)[j + 1..];
      assert env.trace + one == (env.trace + first) + [one[j]];
      assert one[..j + 1] == one;
      forall k | 0 <= k < j ensures Favours(ctx, cb, env.trace, one, k) {
        assert one[..k + 1] == first[..k + 1] && Favours(ctx, cb, env.trace, first, k);
      }
      if Favours(ctx, cb, env.trace, one, j) {
        asked := AskFrom(ctx, cb, env, one);
      } else {
        asked := one;
      }
    }
  }

  lemma {:induction false} AllHoldAsks(ctx: Context, cb: Callback, env: Env) returns (asked: Trace)
    ensures Asks(ctx, cb, env.trace, env.value, asked)
    ensures AllHold(ctx, Tests(cb), env) == (env.(trace := env.trace + asked), Hold(ctx, cb, env.trace, asked))
  {
    asked := AskFrom(ctx, cb, env, []);
    assert Tests(cb)[0..] == Tests(cb) && env.trace + [] == env.trace;
  }

  // Conditions that do not look at what happened before.
  ghost predicate Steady(ctx: Context, yes: nat -> bool) {
    forall t: Trace, c, v {:trigger ctx.user.says(t + [Asked(c, v)])} :: ctx.user.says(t + [Asked(c, v)]) == yes(c)
  }

  // Such a callback runs if and only if all its `ifs` hold and none of its `unlesses`.
  lemma {:induction false} SteadyConditions(ctx: Context, yes: nat -> bool, cb: Callback, env: Env)
    requires Steady(ctx, yes)
    ensures AllHold(ctx, Tests(cb), env).1 <==>
              (forall c | c in cb.ifs :: yes(c)) && (forall c | c in cb.unlesses :: !yes(c))
  {
    var asked := AllHoldAsks(ctx, cb, env);
    forall k | 0 <= k < |asked|
      ensures Favours(ctx, cb, env.trace, asked, k) <==> yes(Condition(cb, k)) == (k < |cb.ifs|)
    {
      assert env.trace + asked[..k + 1] == env.trace + asked[..k] + [Asked(Condition(cb, k), env.value)];
    }
    if Hold(ctx, cb, env.trace, asked) {
      forall c | c in cb.ifs ensures yes(c) {
        var k :| 0 <= k < |cb.ifs| && cb.ifs[k] == c;
        assert Favours(ctx, cb, env.trace, asked, k) && Condition(cb, k) == c;
      }
      forall c | c in cb.unlesses ensures !yes(c) {
        var k :| 0 <= k < |cb.unlesses| && cb.unlesses[k] == c;
        assert Condition(cb, |cb.ifs| + k) == c && Favours(ctx, cb, env.trace, asked, |cb.ifs| + k);
      }
    } else {
      var k := FirstUnfavourable(ctx, cb, env.trace, env.value, asked);
      assert k < |cb.ifs| ==> Condition(cb, k) in cb.ifs;
      assert k >= |cb.ifs| ==> Condition(cb, k) in cb.unlesses;
    }
  }

  lemma {:induction false} FirstUnfavourable(ctx: Context, cb: Callback, here: Trace, value: Value, asked: Trace)
    returns (k: nat)
    requires Asks(ctx, cb, here, value, asked) && !Hold(ctx, cb, here, asked)
    ensures k < |asked| && !Favours(ctx, cb, here, asked, k)
  {
    k := |asked| - 1;
  }

  lemma {:induction false} DownOneMore(i: Visit, ins: seq<Visit>)
    ensures Down([i] + ins) == i.asked + i.own + Down(ins)
  {
    assert ([i] + ins)[1..] == ins;
  }

  lemma {:induction false} UpOneMore(o: Visit, outs: seq<Visit>)
    ensures Up([o] + outs) == Up(outs) + (o.asked + o.own)
  {
    assert ([o] + outs)[1..] == outs;
  }

  // What callback k sees of the rest of the chain, it sees as callback k + 1 of the whole.
  lemma {:induction false} SeenOneBelow(ctx: Context, env: Env, next: Env, i: Visit, ins: seq<Visit>, k: nat)
    requires k <= |ins|
    requires next.trace == env.trace + (i.asked + i.own) && (next.halted <==> env.halted || Halts(i))
    requires Starts(i) ==> ctx.user.says(next.trace)
    ensures Above(env.trace, [i] + ins, k + 1) == Above(next.trace, ins, k)
    ensures HaltedAt(env.halted, [i] + ins, k + 1) <==> HaltedAt(next.halted, ins, k)
    ensures Reached(ctx, env.trace, [i] + ins, k + 1) <==> Reached(ctx, next.trace, ins, k)
  {
    forall j | 0 <= j <= k ensures Above(env.trace, [i] + ins, j + 1) == Above(next.trace, ins, j) {
      assert ([i] + ins)[..j + 1] == [i] + ins[..j];
      DownOneMore(i, ins[..j]);
    }
    assert Above(next.trace, ins, 0) == next.trace;
    assert ([i] + ins)[0] == i && forall j | 0 <= j < |ins| :: ([i] + ins)[j + 1] == ins[j];
    HaltedOneBelow(env.halted, next.halted, i, ins, k);
    assert Yields(ctx, env.trace, [i] + ins, 0);
    forall j | 0 <= j < k
      ensures Yields(ctx, env.trace, [i] + ins, j + 1) <==> Yields(ctx, next.trace, ins, j)
    {
    }
    if Reached(ctx, env.trace, [i] + ins, k + 1) {
      forall j | 0 <= j < k ensures Yields(ctx, next.trace, ins, j) {
        assert Yields(ctx, env.trace, [i] + ins, j + 1);
      }
    }
    if Reached(ctx, next.trace, ins, k) {
      forall j | 0 <= j < k + 1 ensures Yields(ctx, env.trace, [i] + ins, j) {
        assert j > 0 ==> Yields(ctx, next.trace, ins, j - 1);
      }
    }
  }

  lemma {:induction false} HaltedOneBelow(before: bool, after: bool, i: Visit, ins: seq<Visit>, k: nat)
    requires k <= |ins| && (after <==> before || Halts(i))
    ensures HaltedAt(before, [i] + ins, k + 1) <==> HaltedAt(after, ins, k)
  {
    var all := [i] + ins;
    assert all[0] == i && forall j | 0 <= j < |ins| :: all[j + 1] == ins[j];
    if j :| 0 <= j < k && Halts(ins[j]) {
      assert Halts(all[j + 1]);
    }
    if j :| 0 <= j < k + 1 && Halts(all[j]) {
      assert j > 0 ==> Halts(ins[j - 1]);
    }
  }

  // One callback's two visits around a lawful run of the rest of the chain.
  lemma {:induction false} VisitAround(
      ctx: Context, cb: Callback, rest: seq<Callback>, env: Env, next: Env, inner: Env, out: Env,
      i: Visit, o: Visit, ins: seq<Visit>, mid: Trace, outs: seq<Visit>)
    requires Lawful(ctx, rest, next, inner, ins, mid, outs)
    requires next.trace == env.trace + (i.asked + i.own) && (next.halted <==> env.halted || Halts(i))
    requires next.value == env.value && out == inner.(trace := inner.trace + (o.asked + o.own))
    requires Starts(i) ==> ctx.user.says(next.trace)
    requires Enters(ctx, cb, env.trace, env.halted, env.value, i)
    requires Leaves(ctx, cb, inner.trace, ctx.skipAfterIfHalted && out.halted, Starts(i), out.value, o)
    ensures Lawful(ctx, [cb] + rest, env, out, [i] + ins, mid, [o] + outs)
  {
    MiddleAround(ctx, env, next, inner, out, i, ins, mid);
    TraceAround(env.trace, i, ins, mid, outs, o);
    AllEnterAround(ctx, cb, rest, env, next, i, ins);
    AllLeaveAround(ctx, cb, rest, env, next, inner, out, i, o, ins, mid, outs);
  }

  lemma {:induction false} TraceAround(
      start: Trace, i: Visit, ins: seq<Visit>, mid: Trace, outs: seq<Visit>, o: Visit)
    ensures start + (i.asked + i.own) + Down(ins) + mid + Up(outs) + (o.asked + o.own) ==
              start + Down([i] + ins) + mid + Up([o] + outs)
  {
    DownOneMore(i, ins);
    UpOneMore(o, outs);
    JoinTraces(start, i.asked + i.own, Down(ins), mid, Up(outs), o.asked + o.own);
  }

  lemma {:induction false} JoinTraces(start: Trace, enter: Trace, down: Trace, mid: Trace, up: Trace, leave: Trace)
    ensures start + enter + down + mid + up + leave == start + (enter + down) + mid + (up + leave)
  {
  }

  lemma {:induction false} MiddleAround(
      ctx: Context, env: Env, next: Env, inner: Env, out: Env, i: Visit, ins: seq<Visit>, mid: Trace)
    requires Middle(ctx, next, inner, ins, mid)
    requires next.trace == env.trace + (i.asked + i.own) && (next.halted <==> env.halted || Halts(i))
    requires next.value == env.value && (Starts(i) ==> ctx.user.says(next.trace))
    requires out.value == inner.value && out.halted == inner.halted
    ensures Middle(ctx, env, out, [i] + ins, mid)
  {
    DownOneMore(i, ins);
    assert env.trace + Down([i] + ins) == next.trace + Down(ins);
    SeenOneBelow(ctx, env, next, i, ins, |ins|);
  }

  lemma {:induction false} AllEnterAround(
      ctx: Context, cb: Callback, rest: seq<Callback>, env: Env, next: Env, i: Visit, ins: seq<Visit>)
    requires |ins| == |rest| && AllEnter(ctx, rest, next, ins)
    requires next.trace == env.trace + (i.asked + i.own) && (next.halted <==> env.halted || Halts(i))
    requires next.value == env.value && (Starts(i) ==> ctx.user.says(next.trace))
    requires Enters(ctx, cb, env.trace, env.halted, env.value, i)
    ensures AllEnter(ctx, [cb] + rest, env, [i] + ins)
  {
    var chain, ins' := [cb] + rest, [i] + ins;
    forall k | 0 <= k < |chain| ensures EntersAt(ctx, chain, env, ins', k) {
      if k == 0 {
        assert Above(env.trace, ins', 0) == env.trace;
      } else {
        SeenOneBelow(ctx, env, next, i, ins, k - 1);
        assert ins'[k] == ins[k - 1] && chain[k] == rest[k - 1];
        assert EntersAt(ctx, rest, next, ins, k - 1);
      }
    }
  }

  lemma {:induction false} AllLeaveAround(
      ctx: Context, cb: Callback, rest: seq<Callback>, env: Env, next: Env, inner: Env, out: Env,
      i: Visit, o: Visit, ins: seq<Visit>, mid: Trace, outs: seq<Visit>)
    requires |ins| == |outs| == |rest| && AllLeave(ctx, rest, next, inner, ins, mid, outs)
    requires inner.trace == next.trace + Down(ins) + mid + Up(outs)
    requires next.trace == env.trace + (i.asked + i.own) && (next.halted <==> env.halted || Halts(i))
    requires Starts(i) ==> ctx.user.says(next.trace)
    requires out.value == inner.value && out.halted == inner.halted
    requires Leaves(ctx, cb, inner.trace, ctx.skipAfterIfHalted && out.halted, Starts(i), out.value, o)
    ensures AllLeave(ctx, [cb] + rest, env, out, [i] + ins, mid, [o] + outs)
  {
    var chain, ins', outs' := [cb] + rest, [i] + ins, [o] + outs;
    DownOneMore(i, ins);
    assert env.trace + Down(ins') == next.trace + Down(ins);
    forall k | 0 <= k < |chain| ensures LeavesAt(ctx, chain, env, out, ins', mid, outs', k) {
      assert outs'[k + 1..] == outs[k..];
      if k == 0 {
        assert outs[0..] == outs && Below(env.trace, ins', mid, outs', 0) == inner.trace;
      } else {
        SeenOneBelow(ctx, env, next, i, ins, k - 1);
        assert outs'[k] == outs[k - 1] && ins'[k] == ins[k - 1] && chain[k] == rest[k - 1];
        assert LeavesAt(ctx, rest, next, inner, ins, mid, outs, k - 1);
      }
    }
  }

  // An around callback that does not yield: nothing of the rest is visited.
  lemma {:induction false} Withheld(ctx: Context, cb: Callback, rest: seq<Callback>, env: Env, asked: Trace)
    returns (ins: seq<Visit>, mid: Trace, outs: seq<Visit>)
    requires cb.kind.Around? && !env.halted
    requires Asks(ctx, cb, env.trace, env.value, asked) && Hold(ctx, cb, env.trace, asked)
    requires !ctx.user.says(env.trace + asked + [AroundStart(cb.id, env.value)])
    ensures var start, end := AroundStart(cb.id, env.value), AroundEnd(cb.id, env.value);
            var out := env.(trace := env.trace + asked + [start] + [end]);
            Lawful(ctx, [cb] + rest, env, out, ins, mid, outs)
  {
    var i, o := Visit(asked, [AroundStart(cb.id, env.value)]), Visit([], [AroundEnd(cb.id, env.value)]);
    var out := env.(trace := env.trace + asked + i.own + o.own);
    var none := seq(|rest|, _ => NO_VISIT);
    ins, mid, outs := [i] + none, [], [o] + none;
    NoVisits(|rest|);
    DownOneMore(i, none);
    UpOneMore(o, none);
    assert out.trace == env.trace + Down(ins) + mid + Up(outs);
    Unreached(ctx, env.trace, i, none);
    assert forall k | 0 < k < |ins| :: ins[k] == NO_VISIT && outs[k] == NO_VISIT;
    assert forall k | 0 <= k < |ins| :: !Halts(ins[k]);
    assert Above(env.trace, ins, 0) == env.trace;
  }

  // Whatever comes after an around callback that started and did not yield.
  lemma {:induction false} Unreached(ctx: Context, start: Trace, i: Visit, rest: seq<Visit>)
    requires Starts(i) && !ctx.user.says(start + i.asked + i.own)
    ensures forall k | 0 < k <= |rest| + 1 :: !Reached(ctx, start, [i] + rest, k)
  {
    var ins := [i] + rest;
    assert ins[..1] == [i] + [];
    DownOneMore(i, []);
    assert start + (i.asked + i.own + []) == start + i.asked + i.own;
    assert !Yields(ctx, start, ins, 0);
  }

  lemma {:induction false} NoVisits(n: nat)
    ensures Down(seq(n, _ => NO_VISIT)) == [] && Up(seq(n, _ => NO_VISIT)) == []
  {
    if n > 0 {
      assert seq(n, _ => NO_VISIT)[1..] == seq(n - 1, _ => NO_VISIT);
      NoVisits(n - 1);
    }
  }

  // Every run obeys the law.
  lemma {:induction false} RunsAreLawful(ctx: Context, chain: seq<Callback>, env: Env)
    returns (ins: seq<Visit>, mid: Trace, outs: seq<Visit>)
    ensures Lawful(ctx, chain, env, Eval(ctx, chain, env), ins, mid, outs)
    decreases |chain|, 1
  {
    if chain == [] {
      ins, mid, outs := [], Final(ctx, env).trace[|env.trace|..], [];
      assert env.trace + Down([]) == env.trace;
    } else {
      assert [chain[0]] + chain[1..] == chain;
      match chain[0].kind {
        case Before => ins, mid, outs := BeforeIsLawful(ctx, chain[0], chain[1..], env);
        case After => ins, mid, outs := AfterIsLawful(ctx, chain[0], chain[1..], env);
        case Around => ins, mid, outs := AroundIsLawful(ctx, chain[0], chain[1..], env);
      }
    }
  }

  lemma {:induction false} BeforeIsLawful(ctx: Context, cb: Callback, rest: seq<Callback>, env: Env)
    returns (ins: seq<Visit>, mid: Trace, outs: seq<Visit>)
    requires cb.kind.Before?
    ensures Lawful(ctx, [cb] + rest, env, Eval(ctx, rest, RunBefore(ctx, cb, env)), ins, mid, outs)
    decreases |rest| + 1, 0
  {
    var asked := AllHoldAsks(ctx, cb, env);
    var next := RunBefore(ctx, cb, env);
    var i := if env.halted then NO_VISIT else Visit(asked, next.trace[|env.trace| + |asked|..]);
    assert next.trace == env.trace + (i.asked + i.own);
    assert Enters(ctx, cb, env.trace, env.halted, env.value, i);
    ins, mid, outs := RunsAreLawful(ctx, rest, next);
    var inner := Eval(ctx, rest, next);
    assert inner.trace + ([] + []) == inner.trace;
    VisitAround(ctx, cb, rest, env, next, inner, inner, i, NO_VISIT, ins, mid, outs);
    ins, outs := [i] + ins, [NO_VISIT] + outs;
  }

  lemma {:induction false} AfterIsLawful(ctx: Context, cb: Callback, rest: seq<Callback>, env: Env)
    returns (ins: seq<Visit>, mid: Trace, outs: seq<Visit>)
    requires cb.kind.After?
    ensures Lawful(ctx, [cb] + rest, env, RunAfter(ctx, cb, Eval(ctx, rest, env)), ins, mid, outs)
    decreases |rest| + 1, 0
  {
    var inner := Eval(ctx, rest, env);
    var asked := AllHoldAsks(ctx, cb, inner);
    var out := RunAfter(ctx, cb, inner);
    var o := if ctx.skipAfterIfHalted && inner.halted then NO_VISIT
             else Visit(asked, out.trace[|inner.trace| + |asked|..]);
    assert out.trace == inner.trace + (o.asked + o.own);
    assert Leaves(ctx, cb, inner.trace, ctx.skipAfterIfHalted && out.halted, false, out.value, o);
    ins, mid, outs := RunsAreLawful(ctx, rest, env);
    assert env.trace == env.trace + ([] + []);
    VisitAround(ctx, cb, rest, env, env, inner, out, NO_VISIT, o, ins, mid, outs);
    ins, outs := [NO_VISIT] + ins, [o] + outs;
  }

  lemma {:induction false} AroundIsLawful(ctx: Context, cb: Callback, rest: seq<Callback>, env: Env)
    returns (ins: seq<Visit>, mid: Trace, outs: seq<Visit>)
    requires cb.kind.Around?
    ensures Lawful(ctx, [cb] + rest, env, Eval(ctx, [cb] + rest, env), ins, mid, outs)
    decreases |rest| + 1, 0
  {
    assert ([cb] + rest)[1..] == rest;
    var asked := AllHoldAsks(ctx, cb, env);
    var (next, skipped) := Skips(ctx, cb, env);
    if !skipped && !ctx.user.says(Start(cb, next).trace) {
      ins, mid, outs := Withheld(ctx, cb, rest, env, asked);
      return;
    }
    var i := if env.halted then NO_VISIT else Visit(asked, if skipped then [] else [AroundStart(cb.id, env.value)]);
    var o := Visit([], []);
    next := if skipped then next else Start(cb, next);
    assert next.trace == env.trace + (i.asked + i.own);
    ins, mid, outs := RunsAreLawful(ctx, rest, next);
    var inner := Eval(ctx, rest, next);
    o := if skipped then NO_VISIT else Visit([], [AroundEnd(cb.id, inner.value)]);
    var out := Eval(ctx, [cb] + rest, env);
    assert inner.trace + (o.asked + o.own) == out.trace;
    VisitAround(ctx, cb, rest, env, next, inner, out, i, o, ins, mid, outs);
    ins, outs := [i] + ins, [o] + outs;
  }

  // In particular: after a halt nothing is entered, no condition asked and the block not
  // run, the value is false, and exactly the arounds that started end.
  lemma {:induction false} RunsInOrder(
      ctx: Context, chain: seq<Callback>, env: Env, out: Env, ins: seq<Visit>, mid: Trace, outs: seq<Visit>)
    requires Lawful(ctx, chain, env, out, ins, mid, outs)
    ensures forall i, j | 0 <= i < j < |chain| && Halts(ins[i]) :: ins[j] == NO_VISIT
    ensures forall i | 0 <= i < |chain| :: Starts(ins[i]) <==> outs[i].own != [] && outs[i].own[0].AroundEnd?
    ensures out.halted ==> out.value == False && mid == []
    ensures mid == [] || mid == [Block]
  {
    forall i, j | 0 <= i < j < |chain| && Halts(ins[i]) ensures ins[j] == NO_VISIT {
      assert EntersAt(ctx, chain, env, ins, j);
    }
    forall i | 0 <= i < |chain|
      ensures Starts(ins[i]) <==> outs[i].own != [] && outs[i].own[0].AroundEnd?
    {
      assert EntersAt(ctx, chain, env, ins, i) && LeavesAt(ctx, chain, env, out, ins, mid, outs, i);
    }
    if out.halted && !Reached(ctx, env.trace, ins, |ins|) {
      var k :| 0 <= k < |ins| && !Yields(ctx, env.trace, ins, k);
      assert EntersAt(ctx, chain, env, ins, k);
      var j :| 0 <= j < |ins| && Halts(ins[j]);
      assert EntersAt(ctx, chain, env, ins, j);
    }
  }

  // --- And the law determines the run -----------------------------------------------------

  lemma {:induction false} AskingIsDetermined(
      ctx: Context, cb: Callback, here: Trace, value: Value, asked: Trace, other: Trace)
    requires Asks(ctx, cb, here, value, asked) && Asks(ctx, cb, here, value, other)
    ensures asked == other
  {
    AsksAsFar(ctx, cb, here, value, asked, other);
    AsksAsFar(ctx, cb, here, value, other, asked);
  }

  // Neither asks further than the other.
  lemma {:induction false} AsksAsFar(
      ctx: Context, cb: Callback, here: Trace, value: Value, asked: Trace, other: Trace)
    requires Asks(ctx, cb, here, value, asked) && Asks(ctx, cb, here, value, other)
    ensures |asked| >= |other|
  {
    var n := if |asked| <= |other| then |asked| else |other|;
    assert forall k | 0 <= k < n :: asked[k] == other[k];
    SameAnswers(ctx, cb, here, asked, other, n);
  }

  lemma {:induction false} SameAnswers(
      ctx: Context, cb: Callback, here: Trace, asked: Trace, other: Trace, n: nat)
    requires n <= |asked| && n <= |other| && forall k | 0 <= k < n :: asked[k] == other[k]
    ensures forall k | 0 <= k < n :: Favours(ctx, cb, here, asked, k) <==> Favours(ctx, cb, here, other, k)
  {
    forall k | 0 <= k < n ensures Favours(ctx, cb, here, asked, k) <==> Favours(ctx, cb, here, other, k) {
      assert asked[..k + 1] == other[..k + 1];
    }
  }

  lemma {:induction false} DescentIsDetermined(
      ctx: Context, chain: seq<Callback>, env: Env, ins: seq<Visit>, other: seq<Visit>, n: nat)
    requires |ins| == |other| == |chain| && n <= |chain|
    requires AllEnter(ctx, chain, env, ins) && AllEnter(ctx, chain, env, other)
    ensures ins[..n] == other[..n]
  {
    if n > 0 {
      DescentIsDetermined(ctx, chain, env, ins, other, n - 1);
      SamePrefix(ctx, env, ins, other, n - 1);
      assert EntersAt(ctx, chain, env, ins, n - 1) && EntersAt(ctx, chain, env, other, n - 1);
      var cb, here := chain[n - 1], Above(env.trace, ins, n - 1);
      if ins[n - 1] != NO_VISIT || other[n - 1] != NO_VISIT {
        AskingIsDetermined(ctx, cb, here, env.value, ins[n - 1].asked, other[n - 1].asked);
      }
      assert ins[n - 1] == other[n - 1];
      assert ins[..n] == ins[..n - 1] + [ins[n - 1]] && other[..n] == other[..n - 1] + [other[n - 1]];
    }
  }

  lemma {:induction false} SamePrefix(ctx: Context, env: Env, ins: seq<Visit>, other: seq<Visit>, n: nat)
    requires n <= |ins| == |other| && ins[..n] == other[..n]
    ensures Above(env.trace, ins, n) == Above(env.trace, other, n)
    ensures HaltedAt(env.halted, ins, n) <==> HaltedAt(env.halted, other, n)
    ensures Reached(ctx, env.trace, ins, n) <==> Reached(ctx, env.trace, other, n)
  {
    forall k | 0 <= k < n
      ensures ins[k] == other[k] && (Yields(ctx, env.trace, ins, k) <==> Yields(ctx, env.trace, other, k))
    {
      assert ins[k] == ins[..n][k] && other[k] == other[..n][k];
      assert ins[..k + 1] == ins[..n][..k + 1] && other[..k + 1] == other[..n][..k + 1];
    }
  }

  lemma {:induction false} AscentIsDetermined(
      ctx: Context, chain: seq<Callback>, env: Env, out: Env, out': Env, ins: seq<Visit>, mid: Trace,
      outs: seq<Visit>, other: seq<Visit>, n: nat)
    requires |ins| == |outs| == |other| == |chain| && n <= |chain|
    requires out.halted == out'.halted && out.value == out'.value
    requires AllLeave(ctx, chain, env, out, ins, mid, outs) && AllLeave(ctx, chain, env, out', ins, mid, other)
    ensures outs[n..] == other[n..]
    decreases |chain| - n
  {
    if n < |chain| {
      AscentIsDetermined(ctx, chain, env, out, out', ins, mid, outs, other, n + 1);
      assert LeavesAt(ctx, chain, env, out, ins, mid, outs, n) && LeavesAt(ctx, chain, env, out', ins, mid, other, n);
      var cb, here := chain[n], Below(env.trace, ins, mid, outs, n);
      if cb.kind.After? && outs[n] != other[n] {
        AskingIsDetermined(ctx, cb, here, out.value, outs[n].asked, other[n].asked);
      }
      assert outs[n..] == [outs[n]] + outs[n + 1..] && other[n..] == [other[n]] + other[n + 1..];
    }
  }

  // So a run is the only thing that obeys it.
  lemma {:induction false} OnlyRunsAreLawful(ctx: Context, chain: seq<Callback>, env: Env, out: Env)
    ensures IsRun(ctx, chain, env, out) <==> out == Eval(ctx, chain, env)
  {
    var ins, mid, outs := RunsAreLawful(ctx, chain, env);
    var run := Eval(ctx, chain, env);
    if IsRun(ctx, chain, env, out) {
      var ins', mid', outs' :| Lawful(ctx, chain, env, out, ins', mid', outs');
      DescentIsDetermined(ctx, chain, env, ins, ins', |chain|);
      assert ins == ins[..|chain|] && ins' == ins'[..|chain|];
      AscentIsDetermined(ctx, chain, env, run, out, ins, mid, outs, outs', 0);
      assert outs == outs[0..] && outs' == outs'[0..];
    }
  }
}
