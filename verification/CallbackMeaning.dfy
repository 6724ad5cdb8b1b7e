/**
What a callback chain means, as a direct recursion over the chain, and the
nested form a chain is compiled to. User code is a black box that may remember
everything: its answers are functions of the trace of calls made so far.
 */
module CallbackMeaning {
  datatype Kind = Before | After | Around

  // A symbol names a method; anything else is a proc or an object that is called.
  datatype Filter = Symbol(name: nat) | Proc(proc: nat) | Opaque(object: nat)

  // `id` is the identity of the Callback object itself.
  datatype Callback = Callback(id: nat, kind: Kind, filter: Filter, ifs: seq<nat>, unlesses: seq<nat>)

  datatype Value = Nothing | True | False | Produced(n: int)

  datatype Event =
    | Asked(cond: nat, value: Value)        // a condition was called
    | RanBefore(id: nat, value: Value)
    | HaltedBy(id: nat)                     // halted_callback_hook
    | AroundStart(id: nat, value: Value)
    | Block
    | AroundEnd(id: nat, value: Value)
    | RanAfter(id: nat, value: Value)

  type Trace = seq<Event>

  // `says` answers conditions, tells whether a before callback halts and whether
  // an around callback yields; `produces` is the block's result.
  datatype User = User(says: Trace -> bool, produces: Trace -> Value)

  datatype Context = Context(user: User, skipAfterIfHalted: bool, blockGiven: bool)

  datatype Env = Env(halted: bool, value: Value, trace: Trace)

  datatype Test = Test(cond: nat, expected: bool)

  function Log(env: Env, e: Event): Env { env.(trace := env.trace + [e]) }

  function Tests(cb: Callback): seq<Test> {
    seq(|cb.ifs|, i requires 0 <= i < |cb.ifs| => Test(cb.ifs[i], true))
    + seq(|cb.unlesses|, i requires 0 <= i < |cb.unlesses| => Test(cb.unlesses[i], false))
  }

  // `all?` over the conditions: stops at the first that fails.
  function AllHold(ctx: Context, tests: seq<Test>, env: Env): (Env, bool)
    decreases |tests|
  {
    if tests == [] then (env, true)
    else
      var asked := Log(env, Asked(tests[0].cond, env.value));
      if ctx.user.says(asked.trace) == tests[0].expected then AllHold(ctx, tests[1..], asked) else (asked, false)
  }

  function RunBefore(ctx: Context, cb: Callback, env: Env): Env {
    if env.halted then env
    else
      var (asked, ok) := AllHold(ctx, Tests(cb), env);
      if !ok then asked
      else
        var ran := Log(asked, RanBefore(cb.id, asked.value));
        if ctx.user.says(ran.trace) then Log(ran.(halted := true), HaltedBy(cb.id)) else ran
  }

  function RunAfter(ctx: Context, cb: Callback, env: Env): Env {
    if ctx.skipAfterIfHalted && env.halted then env
    else
      var (asked, ok) := AllHold(ctx, Tests(cb), env);
      if ok then Log(asked, RanAfter(cb.id, asked.value)) else asked
  }

  // Whether an around callback is passed over.
  function Skips(ctx: Context, cb: Callback, env: Env): (Env, bool) {
    if env.halted then (env, true)
    else var (asked, ok) := AllHold(ctx, Tests(cb), env); (asked, !ok)
  }

  function Start(cb: Callback, env: Env): Env { Log(env, AroundStart(cb.id, env.value)) }

  function End(cb: Callback, env: Env): Env { Log(env, AroundEnd(cb.id, env.value)) }

  function Final(ctx: Context, env: Env): Env {
    if env.halted then env.(value := False)
    else if !ctx.blockGiven then env.(value := True)
    else var ran := Log(env, Block); ran.(value := ctx.user.produces(ran.trace))
  }

  // --- The direct meaning: one recursion over the chain ----------------------

  function Eval(ctx: Context, chain: seq<Callback>, env: Env): Env
    decreases |chain|
  {
    if chain == [] then Final(ctx, env)
    else
      var cb, rest := chain[0], chain[1..];
      match cb.kind
      case Before => Eval(ctx, rest, RunBefore(ctx, cb, env))
      case After => RunAfter(ctx, cb, Eval(ctx, rest, env))
      case Around =>
        var (asked, skipped) := Skips(ctx, cb, env);
        if skipped then Eval(ctx, rest, asked)
        else
          var started := Start(cb, asked);
          End(cb, if ctx.user.says(started.trace) then Eval(ctx, rest, started) else started)
  }

  // --- The compiled form ----------------------------------------------------

  datatype Nest =
    | Innermost(before: seq<Callback>, after: seq<Callback>)
    | Level(before: seq<Callback>, around: Callback, nested: Nest, after: seq<Callback>)

  // `Callback#apply`: before unshifts, after pushes, around wraps.
  function Apply(cb: Callback, n: Nest): Nest {
    match cb.kind
    case Before => n.(before := [cb] + n.before)
    case After => n.(after := n.after + [cb])
    case Around => Level([], cb, n, [])
  }

  // `chain.reverse.inject(final_sequence)`.
  function Compiled(chain: seq<Callback>): Nest
    decreases |chain|
  {
    if chain == [] then Innermost([], []) else Apply(chain[0], Compiled(chain[1..]))
  }

  function RunBefores(ctx: Context, cbs: seq<Callback>, env: Env): Env
    decreases |cbs|
  {
    if cbs == [] then env else RunBefores(ctx, cbs[1..], RunBefore(ctx, cbs[0], env))
  }

  function RunAfters(ctx: Context, cbs: seq<Callback>, env: Env): Env
    decreases |cbs|
  {
    if cbs == [] then env else RunAfters(ctx, cbs[1..], RunAfter(ctx, cbs[0], env))
  }

  function EvalNest(ctx: Context, n: Nest, env: Env): Env
    decreases n
  {
    var ready := RunBefores(ctx, n.before, env);
    match n
    case Innermost(_, after) => RunAfters(ctx, after, Final(ctx, ready))
    case Level(_, cb, nested, after) =>
      var (asked, skipped) := Skips(ctx, cb, ready);
      if skipped then RunAfters(ctx, after, EvalNest(ctx, nested, asked))
      else
        var started := Start(cb, asked);
        RunAfters(ctx, after, End(cb, if ctx.user.says(started.trace) then EvalNest(ctx, nested, started) else started))
  }

  lemma {:induction false} RunAftersOnceMore(ctx: Context, cbs: seq<Callback>, cb: Callback, env: Env)
    ensures RunAfters(ctx, cbs + [cb], env) == RunAfter(ctx, cb, RunAfters(ctx, cbs, env))
    decreases |cbs|
  {
    if cbs == [] {
      assert RunAfters(ctx, [cb], env) == RunAfters(ctx, [], RunAfter(ctx, cb, env));
    } else {
      assert (cbs + [cb])[1..] == cbs[1..] + [cb];
      RunAftersOnceMore(ctx, cbs[1..], cb, RunAfter(ctx, cbs[0], env));
    }
  }

  lemma {:induction false} ApplyMeans(ctx: Context, cb: Callback, n: Nest, env: Env)
    ensures cb.kind.Before? ==> EvalNest(ctx, Apply(cb, n), env) == EvalNest(ctx, n, RunBefore(ctx, cb, env))
    ensures cb.kind.After? ==> EvalNest(ctx, Apply(cb, n), env) == RunAfter(ctx, cb, EvalNest(ctx, n, env))
  {
    match cb.kind
    case Before => assert ([cb] + n.before)[1..] == n.before;
    case After =>
      forall e ensures RunAfters(ctx, n.after + [cb], e) == RunAfter(ctx, cb, RunAfters(ctx, n.after, e)) {
        RunAftersOnceMore(ctx, n.after, cb, e);
      }
    case Around =>
  }

  // Compiling keeps the meaning: the nested form does to every environment, in
  // the same order, exactly what the recursion over the chain does.
  lemma {:induction false} CompileKeepsMeaning(ctx: Context, chain: seq<Callback>, env: Env)
    ensures EvalNest(ctx, Compiled(chain), env) == Eval(ctx, chain, env)
    decreases |chain|
  {
    if chain == [] {
    } else {
      var cb, rest := chain[0], chain[1..];
      ApplyMeans(ctx, cb, Compiled(rest), env);
      match cb.kind
      case Before => CompileKeepsMeaning(ctx, rest, RunBefore(ctx, cb, env));
      case After => CompileKeepsMeaning(ctx, rest, env);
      case Around =>
        var (asked, skipped) := Skips(ctx, cb, env);
        CompileKeepsMeaning(ctx, rest, asked);
        CompileKeepsMeaning(ctx, rest, Start(cb, asked));
    }
  }
}
