/**
The stack of watched namespaces behind constant loading: nested watches, each of which
reports the constants that appeared under its namespaces while it was the innermost
one. Constants only appear; none is removed while files are loaded.
 */
module WatchStack {
  type Name = string
  type Const = string

  // The constants of each namespace that is a module. One that is not has none to report.
  type World = map<Name, seq<Const>>

  // `@stack`, a hash that gives an empty list for an unknown name.
  type Stacks = map<Name, seq<seq<Const>>>

  function At(stacks: Stacks, name: Name): seq<seq<Const>> { if name in stacks then stacks[name] else [] }

  function Under(world: World, name: Name): seq<Const> { if name in world then world[name] else [] }

  // `Array#-`.
  function Minus(xs: seq<Const>, ys: seq<Const>): (r: seq<Const>)
    ensures forall c :: c in r <==> c in xs && c !in ys
    ensures Unique(xs) ==> Unique(r)
  {
    if xs == [] then []
    else
      assert xs == [xs[0]] + xs[1..];
      assert Unique(xs) ==> Unique(xs[1..]) && xs[0] !in xs[1..];
      (if xs[0] in ys then [] else [xs[0]]) + Minus(xs[1..], ys)
  }

  predicate Unique<T(==)>(xs: seq<T>) { forall i, j | 0 <= i < j < |xs| :: xs[i] != xs[j] }

  function Last(levels: seq<seq<Const>>): seq<Const> { if levels == [] then [] else levels[|levels| - 1] }

  // Every list of the stack learns the new constants.
  function Concat(levels: seq<seq<Const>>, added: seq<Const>): seq<seq<Const>> {
    seq(|levels|, k requires 0 <= k < |levels| => levels[k] + added)
  }

  function Fresh(stacks: Stacks, world: World, name: Name): seq<Const> {
    Minus(Under(world, name), Last(At(stacks, name)))
  }

  function Tagged(name: Name, consts: seq<Const>): seq<(Name, Const)> {
    seq(|consts|, k requires 0 <= k < |consts| => (name, consts[k]))
  }

  // `watch_namespaces`, one namespace after the other.
  function PushAll(stacks: Stacks, world: World, names: seq<Name>): Stacks
    decreases |names|
  {
    if names == [] then stacks
    else PushAll(stacks[names[0] := At(stacks, names[0]) + [Under(world, names[0])]], world, names[1..])
  }

  // The body of `new_constants` for one namespace.
  function Learn(stacks: Stacks, world: World, name: Name): Stacks {
    if name in world then stacks[name := Concat(At(stacks, name), Fresh(stacks, world, name))] else stacks
  }

  function LearnAll(stacks: Stacks, world: World, names: seq<Name>): Stacks
    decreases |names|
  {
    if names == [] then stacks else LearnAll(Learn(stacks, world, names[0]), world, names[1..])
  }

  function Found(stacks: Stacks, world: World, names: seq<Name>): seq<(Name, Const)>
    decreases |names|
  {
    if names == [] then []
    else Tagged(names[0], Fresh(stacks, world, names[0])) + Found(Learn(stacks, world, names[0]), world, names[1..])
  }

  // `pop_modules`.
  function PopAll(stacks: Stacks, names: seq<Name>): Stacks
    decreases |names|
  {
    if names == [] then stacks
    else
      var levels := At(stacks, names[0]);
      PopAll(stacks[names[0] := if levels == [] then [] else levels[..|levels| - 1]], names[1..])
  }

  lemma {:induction false} LearnSteps(stacks: Stacks, world: World, names: seq<Name>, i: nat)
    requires i < |names|
    ensures LearnAll(stacks, world, names[i..]) == LearnAll(Learn(stacks, world, names[i]), world, names[i + 1..])
    ensures Found(stacks, world, names[i..]) ==
            Tagged(names[i], Fresh(stacks, world, names[i]))
            + Found(Learn(stacks, world, names[i]), world, names[i + 1..])
  {
    assert names[i..][1..] == names[i + 1..];
  }

  // Where `new_constants` stands after i namespaces.
  ghost predicate Halfway(
      start: Stacks, stacks: Stacks, world: World, names: seq<Name>, i: nat, found: seq<(Name, Const)>)
    requires i <= |names|
  {
    && LearnAll(stacks, world, names[i..]) == LearnAll(start, world, names)
    && found + Found(stacks, world, names[i..]) == Found(start, world, names)
  }

  lemma {:induction false} OneFurther(
      start: Stacks, stacks: Stacks, world: World, names: seq<Name>, i: nat, found: seq<(Name, Const)>)
    requires i < |names| && Halfway(start, stacks, world, names, i, found)
    ensures Halfway(start, Learn(stacks, world, names[i]), world, names, i + 1,
                    found + Tagged(names[i], Fresh(stacks, world, names[i])))
  {
    LearnSteps(stacks, world, names, i);
    var first := Tagged(names[i], Fresh(stacks, world, names[i]));
    var rest := Found(Learn(stacks, world, names[i]), world, names[i + 1..]);
    Regroup(found, first, rest);
  }

  // A namespace that is no module is passed over.
  lemma {:induction false} PassedOver(
      start: Stacks, stacks: Stacks, world: World, names: seq<Name>, i: nat, found: seq<(Name, Const)>)
    requires i < |names| && Halfway(start, stacks, world, names, i, found) && names[i] !in world
    ensures Halfway(start, stacks, world, names, i + 1, found)
  {
    OneFurther(start, stacks, world, names, i, found);
    assert Tagged(names[i], Fresh(stacks, world, names[i])) == [];
    assert found + [] == found;
  }

  lemma {:induction false} AllTheWay(
      start: Stacks, stacks: Stacks, world: World, names: seq<Name>, found: seq<(Name, Const)>)
    requires Halfway(start, stacks, world, names, |names|, found)
    ensures stacks == LearnAll(start, world, names) && found == Found(start, world, names)
  {
    assert names[|names|..] == [];
    assert found + [] == found;
  }

  lemma {:induction false} Regroup<T>(xs: seq<T>, ys: seq<T>, zs: seq<T>)
    ensures xs + ys + zs == xs + (ys + zs)
  {
  }

  class WatchStack {
    var watching: seq<seq<Name>>
    var stacks: Stacks

    constructor ()
      ensures watching == [] && stacks == map[]
    {
      watching, stacks := [], map[];
    }

    method WatchNamespaces(names: seq<Name>, world: World)
      modifies this
      ensures watching == old(watching) + [names]
      ensures stacks == PushAll(old(stacks), world, names)
    {
      for i := 0 to |names|
        invariant watching == old(watching)
        invariant PushAll(stacks, world, names[i..]) == PushAll(old(stacks), world, names)
      {
        assert names[i..][1..] == names[i + 1..];
        stacks := stacks[names[i] := At(stacks, names[i]) + [Under(world, names[i])]];
      }
      watching := watching + [names];
    }

    method PopModules(names: seq<Name>)
      modifies this`stacks
      ensures stacks == PopAll(old(stacks), names)
    {
      for i := 0 to |names|
        invariant PopAll(stacks, names[i..]) == PopAll(old(stacks), names)
      {
        assert names[i..][1..] == names[i + 1..];
        var levels := At(stacks, names[i]);
        stacks := stacks[names[i] := if levels == [] then [] else levels[..|levels| - 1]];
      }
    }

    // The inner loop of `new_constants`.
    method Remember(name: Name, added: seq<Const>)
      modifies this`stacks
      ensures stacks == old(stacks)[name := Concat(At(old(stacks), name), added)]
    {
      var levels := At(stacks, name);
      ghost var was := levels;
      for k := 0 to |levels|
        invariant |levels| == |was|
        invariant forall j | 0 <= j < |levels| :: levels[j] == was[j] + if j < k then added else []
      {
        levels := levels[k := levels[k] + added];
      }
      assert levels == Concat(was, added);
      stacks := stacks[name := levels];
    }

    // Always called after a call of `WatchNamespaces`.
    method NewConstants(world: World) returns (constants: seq<(Name, Const)>)
      requires watching != []
      modifies this
      ensures watching == old(watching)[..|old(watching)| - 1]
      ensures constants == Found(old(stacks), world, old(watching)[|old(watching)| - 1])
      ensures var names := old(watching)[|old(watching)| - 1];
              stacks == PopAll(LearnAll(old(stacks), world, names), names)
    {
      constants := [];
      var names := watching[|watching| - 1];
      for i := 0 to |names|
        invariant watching == old(watching)
        invariant Halfway(old(stacks), stacks, world, names, i, constants)
      {
        if names[i] !in world {
          PassedOver(old(stacks), stacks, world, names, i, constants);
        } else {
          OneFurther(old(stacks), stacks, world, names, i, constants);
          var added := Fresh(stacks, world, names[i]);
          constants := constants + Tagged(names[i], added);
          Remember(names[i], added);
        }
      }
      AllTheWay(old(stacks), stacks, world, names, constants);
      watching := watching[..|watching| - 1];
      PopModules(names);
    }
  }

  // --- Whole runs -----------------------------------------------------------------

  // A watch that is open. Watches are numbered as they are opened.
  datatype Frame = Frame(id: nat, names: seq<Name>)

  datatype Report = Report(frame: nat, what: (Name, Const))

  // `owed` says to whom each constant that appeared under a watched namespace is owed:
  // the innermost watch open on it at that time. `reported` is what was reported since.
  datatype State = State(
    world: World, frames: seq<Frame>, stacks: Stacks, next: nat,
    owed: map<(Name, Const), nat>, reported: seq<Report>)

  datatype Event = Watch(names: seq<Name>) | Appear(name: Name, suffix: Const) | Close

  function Init(world: World): State { State(world, [], map[], 0, map[], []) }

  function Innermost(frames: seq<Frame>, name: Name): (k: int)
    ensures -1 <= k < |frames|
    ensures k >= 0 ==> name in frames[k].names
    ensures forall j | k < j < |frames| :: name !in frames[j].names
  {
    if frames == [] then -1
    else if name in frames[|frames| - 1].names then |frames| - 1
    else Innermost(frames[..|frames| - 1], name)
  }

  function Reports(frame: nat, found: seq<(Name, Const)>): seq<Report> {
    seq(|found|, k requires 0 <= k < |found| => Report(frame, found[k]))
  }

  function DoAppear(s: State, name: Name, suffix: Const): State {
    if suffix in Under(s.world, name) then s
    else
      var k := Innermost(s.frames, name);
      s.(world := s.world[name := Under(s.world, name) + [suffix]],
         owed := if k >= 0 then s.owed[(name, suffix) := s.frames[k].id] else s.owed)
  }

  function DoClose(s: State): State {
    if s.frames == [] then s
    else
      var f := s.frames[|s.frames| - 1];
      s.(frames := s.frames[..|s.frames| - 1],
         stacks := PopAll(LearnAll(s.stacks, s.world, f.names), f.names),
         reported := s.reported + Reports(f.id, Found(s.stacks, s.world, f.names)))
  }

  function Exec(s: State, e: Event): State {
    match e
    case Watch(names) =>
      s.(frames := s.frames + [Frame(s.next, names)], next := s.next + 1, stacks := PushAll(s.stacks, s.world, names))
    case Appear(name, suffix) => DoAppear(s, name, suffix)
    case Close => DoClose(s)
  }

  function Run(s: State, events: seq<Event>): State
    decreases |events|
  {
    if events == [] then s else Run(Exec(s, events[0]), events[1..])
  }

  // --- What pushing, learning and popping do to one namespace ---------------------------

  function Count(names: seq<Name>, name: Name): nat {
    if names == [] then 0 else (if names[0] == name then 1 else 0) + Count(names[1..], name)
  }

  lemma {:induction false} CountsMembers(names: seq<Name>, name: Name)
    ensures Count(names, name) > 0 <==> name in names
  {
    if names == [] {
    } else {
      CountsMembers(names[1..], name);
      assert names == [names[0]] + names[1..];
    }
  }

  function Copies<T>(x: T, n: nat): seq<T> { seq(n, _ => x) }

  lemma {:induction false} PushAllPushes(stacks: Stacks, world: World, names: seq<Name>, name: Name)
    ensures At(PushAll(stacks, world, names), name) == At(stacks, name) + Copies(Under(world, name), Count(names, name))
    decreases |names|
  {
    if names == [] {
    } else {
      PushAllPushes(stacks[names[0] := At(stacks, names[0]) + [Under(world, names[0])]], world, names[1..], name);
      assert [Under(world, name)] + Copies(Under(world, name), Count(names[1..], name))
          == Copies(Under(world, name), Count(names[1..], name) + 1);
    }
  }

  lemma {:induction false} PopAllPops(stacks: Stacks, names: seq<Name>, name: Name)
    requires Count(names, name) <= |At(stacks, name)|
    ensures At(PopAll(stacks, names), name) == At(stacks, name)[..|At(stacks, name)| - Count(names, name)]
    decreases |names|
  {
    if names == [] {
    } else {
      var levels := At(stacks, names[0]);
      PopAllPops(stacks[names[0] := if levels == [] then [] else levels[..|levels| - 1]], names[1..], name);
    }
  }

  lemma {:induction false} ConcatNothing(levels: seq<seq<Const>>)
    ensures Concat(levels, []) == levels
  {
    assert forall k | 0 <= k < |levels| :: levels[k] + [] == levels[k];
  }

  lemma {:induction false} LearnIs(stacks: Stacks, world: World, name: Name, other: Name)
    requires At(stacks, name) != []
    ensures At(Learn(stacks, world, name), other) ==
            if other == name then Concat(At(stacks, name), Fresh(stacks, world, name)) else At(stacks, other)
    ensures other == name ==> Fresh(Learn(stacks, world, name), world, other) == []
  {
    var levels, added := At(stacks, name), Fresh(stacks, world, name);
    if name !in world {
      ConcatNothing(levels);
    }
    var learnt := At(Learn(stacks, world, name), name);
    assert learnt == Concat(levels, added);
    assert Last(learnt) == Last(levels) + added;
    NothingTwice(Under(world, name), Last(levels));
  }

  lemma {:induction false} NothingTwice(xs: seq<Const>, ys: seq<Const>)
    ensures Minus(xs, ys + Minus(xs, ys)) == []
  {
    var all := ys + Minus(xs, ys);
    assert forall c | c in xs :: c in all;
    MinusAll(xs, all);
  }

  lemma {:induction false} MinusAll(xs: seq<Const>, ys: seq<Const>)
    requires forall c | c in xs :: c in ys
    ensures Minus(xs, ys) == []
  {
    if xs == [] {
    } else {
      assert xs[0] in xs;
      MinusAll(xs[1..], ys);
    }
  }

  // A namespace named twice learns its constants once.
  lemma {:induction false} LearnAllLearns(stacks: Stacks, world: World, names: seq<Name>, name: Name)
    requires forall n | n in names :: At(stacks, n) != []
    ensures At(LearnAll(stacks, world, names), name) ==
            if name in names then Concat(At(stacks, name), Fresh(stacks, world, name)) else At(stacks, name)
    decreases |names|
  {
    if names == [] {
    } else {
      var t := Learn(stacks, world, names[0]);
      forall n | n in names[1..] ensures At(t, n) != [] {
        LearnIs(stacks, world, names[0], n);
      }
      LearnIs(stacks, world, names[0], name);
      LearnAllLearns(t, world, names[1..], name);
      assert names == [names[0]] + names[1..];
      if name == names[0] {
        ConcatNothing(At(t, name));
      }
    }
  }

  lemma {:induction false} FoundIsFresh(stacks: Stacks, world: World, names: seq<Name>, name: Name, suffix: Const)
    requires forall n | n in names :: At(stacks, n) != []
    ensures (name, suffix) in Found(stacks, world, names) <==> name in names && suffix in Fresh(stacks, world, name)
    decreases |names|
  {
    if names == [] {
    } else {
      var t, added := Learn(stacks, world, names[0]), Fresh(stacks, world, names[0]);
      forall n | n in names[1..] ensures At(t, n) != [] {
        LearnIs(stacks, world, names[0], n);
      }
      LearnIs(stacks, world, names[0], name);
      FoundIsFresh(t, world, names[1..], name, suffix);
      assert names == [names[0]] + names[1..];
      TaggedMember(names[0], added, name, suffix);
    }
  }

  lemma {:induction false} TaggedMember(name: Name, consts: seq<Const>, other: Name, suffix: Const)
    ensures (other, suffix) in Tagged(name, consts) <==> other == name && suffix in consts
  {
    if other == name && suffix in consts {
      var k :| 0 <= k < |consts| && consts[k] == suffix;
      assert Tagged(name, consts)[k] == (other, suffix);
    }
  }

  lemma {:induction false} FoundIsUnique(stacks: Stacks, world: World, names: seq<Name>)
    requires forall n | n in names :: At(stacks, n) != []
    requires forall n | n in world :: Unique(world[n])
    ensures Unique(Found(stacks, world, names))
    decreases |names|
  {
    if names == [] {
    } else {
      var t, added := Learn(stacks, world, names[0]), Fresh(stacks, world, names[0]);
      forall n | n in names[1..] ensures At(t, n) != [] {
        LearnIs(stacks, world, names[0], n);
      }
      FoundIsUnique(t, world, names[1..]);
      var first, rest := Tagged(names[0], added), Found(t, world, names[1..]);
      forall k | 0 <= k < |first| ensures first[k] !in rest {
        LearnIs(stacks, world, names[0], names[0]);
        FoundIsFresh(t, world, names[1..], names[0], added[k]);
      }
      assert Unique(added) && Unique(first);
    }
  }

  // --- The invariant ------------------------------------------------------------------

  ghost predicate Open(s: State, id: nat) { exists k :: 0 <= k < |s.frames| && s.frames[k].id == id }

  // The watches that own the lists of a namespace, from the bottom of the stack.
  function Owners(frames: seq<Frame>, name: Name): seq<nat> {
    if frames == [] then []
    else
      var last := frames[|frames| - 1];
      Owners(frames[..|frames| - 1], name) + Copies(last.id, Count(last.names, name))
  }

  // Owed to an open watch, this one or a later one.
  ghost predicate OwedSince(s: State, name: Name, suffix: Const, owner: nat) {
    (name, suffix) in s.owed && s.owed[(name, suffix)] >= owner && Open(s, s.owed[(name, suffix)])
  }

  // A list holds the constants of its namespace, without those owed since.
  ghost predicate LevelOk(s: State, name: Name, level: seq<Const>, owner: nat) {
    && (forall c | c in level :: c in Under(s.world, name))
    && (forall c | c in Under(s.world, name) :: c !in level <==> OwedSince(s, name, c, owner))
  }

  ghost predicate NameOk(s: State, name: Name) {
    var levels, owners := At(s.stacks, name), Owners(s.frames, name);
    |levels| == |owners| && forall k | 0 <= k < |levels| :: LevelOk(s, name, levels[k], owners[k])
  }

  ghost predicate FramesOk(frames: seq<Frame>, next: nat) {
    && (forall i, j | 0 <= i < j < |frames| :: frames[i].id < frames[j].id)
    && (forall i | 0 <= i < |frames| :: frames[i].id < next)
  }

  ghost predicate OwedOk(s: State) {
    forall what | what in s.owed ::
      && what.1 in Under(s.world, what.0) && s.owed[what] < s.next
      && forall k | 0 <= k < |s.frames| && s.frames[k].id == s.owed[what] :: what.0 in s.frames[k].names
  }

  // What was reported: once each, by the watch it was owed to, and all that was owed to
  // watches closed since.
  ghost predicate ReportedOk(s: State) {
    && (forall i, j | 0 <= i < j < |s.reported| :: s.reported[i].what != s.reported[j].what)
    && (forall r | r in s.reported :: r.what in s.owed && s.owed[r.what] == r.frame && !Open(s, r.frame))
    && (forall what | what in s.owed && !Open(s, s.owed[what]) :: Report(s.owed[what], what) in s.reported)
  }

  ghost predicate Inv(s: State) {
    && (forall name | name in s.world :: Unique(s.world[name]))
    && FramesOk(s.frames, s.next) && OwedOk(s) && ReportedOk(s)
    && (forall name {:trigger NameOk(s, name)} :: NameOk(s, name))
  }

  lemma {:induction false} OwnersAreOpen(frames: seq<Frame>, next: nat, name: Name)
    requires FramesOk(frames, next)
    ensures var owners, k := Owners(frames, name), Innermost(frames, name);
            if k < 0 then owners == []
            else owners != [] && owners[|owners| - 1] == frames[k].id && forall o | o in owners :: o <= frames[k].id
  {
    if frames == [] {
    } else {
      var init, last := frames[..|frames| - 1], frames[|frames| - 1];
      OwnersAreOpen(init, next, name);
      CountsMembers(last.names, name);
    }
  }

  lemma {:induction false} WatchKeepsName(s: State, names: seq<Name>, name: Name)
    requires Inv(s)
    ensures NameOk(Exec(s, Watch(names)), name)
  {
    var t := Exec(s, Watch(names));
    PushAllPushes(s.stacks, s.world, names, name);
    assert t.frames[..|s.frames|] == s.frames;
    assert NameOk(s, name);
    var levels, owners := At(s.stacks, name), Owners(s.frames, name);
    OpenAfterWatch(s, names);
    forall k | 0 <= k < |levels| ensures LevelOk(t, name, levels[k], owners[k]) {
      assert LevelOk(s, name, levels[k], owners[k]);
      forall c | c in Under(s.world, name)
        ensures OwedSince(t, name, c, owners[k]) <==> OwedSince(s, name, c, owners[k])
      {
      }
    }
    assert LevelOk(t, name, Under(s.world, name), s.next);
  }

  lemma {:induction false} OpenAfterWatch(s: State, names: seq<Name>)
    ensures forall id :: Open(Exec(s, Watch(names)), id) <==> Open(s, id) || id == s.next
  {
    var t := Exec(s, Watch(names));
    forall id | Open(s, id) || id == s.next ensures Open(t, id) {
      if Open(s, id) {
        var k :| 0 <= k < |s.frames| && s.frames[k].id == id;
        assert t.frames[k].id == id;
      } else {
        assert t.frames[|s.frames|].id == id;
      }
    }
  }

  lemma {:induction false} AppearKeepsName(s: State, name: Name, suffix: Const, other: Name)
    requires Inv(s) && suffix !in Under(s.world, name)
    ensures NameOk(Exec(s, Appear(name, suffix)), other)
  {
    var t := Exec(s, Appear(name, suffix));
    assert NameOk(s, other);
    OwnersAreOpen(s.frames, s.next, name);
    assert forall id :: Open(t, id) <==> Open(s, id);
    var levels, owners := At(s.stacks, other), Owners(s.frames, other);
    forall k | 0 <= k < |levels| ensures LevelOk(t, other, levels[k], owners[k]) {
      assert LevelOk(s, other, levels[k], owners[k]);
      assert owners[k] in owners;
    }
  }

  // What the closing watch finds under a namespace is what it is owed.
  lemma {:induction false} FreshIsOwed(s: State, name: Name, suffix: Const)
    requires Inv(s) && s.frames != [] && name in s.frames[|s.frames| - 1].names
    ensures At(s.stacks, name) != []
    ensures suffix in Fresh(s.stacks, s.world, name) <==>
            (name, suffix) in s.owed && s.owed[(name, suffix)] == s.frames[|s.frames| - 1].id
  {
    assert NameOk(s, name);
    OwnersAreOpen(s.frames, s.next, name);
    var levels, owners, last := At(s.stacks, name), Owners(s.frames, name), |s.frames| - 1;
    assert Innermost(s.frames, name) == last;
    assert LevelOk(s, name, levels[|levels| - 1], owners[|owners| - 1]);
    assert Open(s, s.frames[last].id);
  }

  lemma {:induction false} OpenAfterClose(s: State)
    requires Inv(s) && s.frames != []
    ensures forall id :: Open(Exec(s, Close), id) <==> Open(s, id) && id != s.frames[|s.frames| - 1].id
  {
    var t := Exec(s, Close);
    forall id | Open(s, id) && id != s.frames[|s.frames| - 1].id ensures Open(t, id) {
      var k :| 0 <= k < |s.frames| && s.frames[k].id == id;
      assert t.frames[k].id == id;
    }
  }

  // What closing does to the lists of one namespace.
  lemma {:induction false} ClosePops(s: State, name: Name)
    requires Inv(s) && s.frames != []
    ensures var f, levels := s.frames[|s.frames| - 1], At(s.stacks, name);
            var learnt := if name in f.names then Concat(levels, Fresh(s.stacks, s.world, name)) else levels;
            && Count(f.names, name) <= |levels|
            && At(Exec(s, Close).stacks, name) == learnt[..|levels| - Count(f.names, name)]
  {
    var f := s.frames[|s.frames| - 1];
    assert NameOk(s, name);
    forall n | n in f.names ensures At(s.stacks, n) != [] {
      FreshIsOwed(s, n, "");
    }
    LearnAllLearns(s.stacks, s.world, f.names, name);
    PopAllPops(LearnAll(s.stacks, s.world, f.names), f.names, name);
  }

  lemma {:induction false} CloseKeepsName(s: State, name: Name)
    requires Inv(s) && s.frames != []
    ensures NameOk(Exec(s, Close), name)
  {
    var t := Exec(s, Close);
    var levels, owners, after := At(s.stacks, name), Owners(s.frames, name), At(t.stacks, name);
    assert NameOk(s, name);
    ClosePops(s, name);
    assert Owners(t.frames, name) == owners[..|after|];
    forall k | 0 <= k < |after| ensures LevelOk(t, name, after[k], owners[k]) {
      assert LevelOk(s, name, levels[k], owners[k]);
      ClosedLevel(s, name, levels[k], owners[k], after[k]);
    }
  }

  lemma {:induction false} ClosedLevel(s: State, name: Name, level: seq<Const>, owner: nat, after: seq<Const>)
    requires Inv(s) && s.frames != [] && LevelOk(s, name, level, owner)
    requires after == level + if name in s.frames[|s.frames| - 1].names then Fresh(s.stacks, s.world, name) else []
    ensures LevelOk(Exec(s, Close), name, after, owner)
  {
    OpenAfterClose(s);
    forall c | c in Under(s.world, name) ensures c !in after <==> OwedSince(Exec(s, Close), name, c, owner) {
      if name in s.frames[|s.frames| - 1].names {
        FreshIsOwed(s, name, c);
      }
    }
  }

  lemma {:induction false} CloseKeepsReported(s: State)
    requires Inv(s) && s.frames != []
    ensures ReportedOk(Exec(s, Close))
  {
    var t, f := Exec(s, Close), s.frames[|s.frames| - 1];
    var found := Found(s.stacks, s.world, f.names);
    forall n | n in f.names ensures At(s.stacks, n) != [] {
      FreshIsOwed(s, n, "");
    }
    forall what: (Name, Const) ensures what in found <==> what in s.owed && s.owed[what] == f.id {
      FoundIsFresh(s.stacks, s.world, f.names, what.0, what.1);
      if what.0 in f.names {
        FreshIsOwed(s, what.0, what.1);
      }
    }
    FoundIsUnique(s.stacks, s.world, f.names);
    OpenAfterClose(s);
    assert Open(s, f.id);
    ReportsKeep(s, t, f.id, found);
  }

  lemma {:induction false} ReportsKeep(s: State, t: State, id: nat, found: seq<(Name, Const)>)
    requires ReportedOk(s) && Open(s, id) && Unique(found) && t.owed == s.owed
    requires t.reported == s.reported + Reports(id, found)
    requires forall what :: what in found <==> what in s.owed && s.owed[what] == id
    requires forall i :: Open(t, i) <==> Open(s, i) && i != id
    ensures ReportedOk(t)
  {
    var n := |s.reported|;
    forall k | 0 <= k < |t.reported|
      ensures t.reported[k] == if k < n then s.reported[k] else Report(id, found[k - n])
    {
    }
    forall what | what in s.owed && !Open(t, s.owed[what]) ensures Report(s.owed[what], what) in t.reported {
      if what in found {
        var k :| 0 <= k < |found| && found[k] == what;
        assert t.reported[n + k] == Report(id, what);
      } else {
        assert Report(s.owed[what], what) in s.reported;
      }
    }
    forall r | r in t.reported ensures r.what in t.owed && t.owed[r.what] == r.frame && !Open(t, r.frame) {
      var k :| 0 <= k < |t.reported| && t.reported[k] == r;
      assert k >= n ==> found[k - n] in found;
      assert k < n ==> s.reported[k] in s.reported;
    }
    forall i, j | 0 <= i < j < |t.reported| ensures t.reported[i].what != t.reported[j].what {
      assert i < n ==> s.reported[i] in s.reported;
      assert j >= n ==> found[j - n] in found;
    }
  }

  lemma {:induction false} WatchKeepsInv(s: State, names: seq<Name>)
    requires Inv(s)
    ensures Inv(Exec(s, Watch(names)))
  {
    var t := Exec(s, Watch(names));
    forall name ensures NameOk(t, name) {
      WatchKeepsName(s, names, name);
    }
    OpenAfterWatch(s, names);
  }

  lemma {:induction false} AppearKeepsInv(s: State, name: Name, suffix: Const)
    requires Inv(s) && suffix !in Under(s.world, name)
    ensures Inv(DoAppear(s, name, suffix))
  {
    forall other ensures NameOk(DoAppear(s, name, suffix), other) {
      AppearKeepsName(s, name, suffix, other);
    }
    AppearKeepsRest(s, name, suffix);
  }

  lemma {:induction false} CloseKeepsInv(s: State)
    requires Inv(s) && s.frames != []
    ensures Inv(DoClose(s))
  {
    forall name ensures NameOk(DoClose(s), name) {
      CloseKeepsName(s, name);
    }
    CloseKeepsReported(s);
  }

  lemma {:induction false} ExecKeepsInv(s: State, e: Event)
    requires Inv(s)
    ensures Inv(Exec(s, e))
  {
    match e
    case Watch(names) => WatchKeepsInv(s, names);
    case Appear(name, suffix) =>
      if suffix !in Under(s.world, name) {
        AppearKeepsInv(s, name, suffix);
      }
    case Close =>
      if s.frames != [] {
        CloseKeepsInv(s);
      }
  }

  lemma {:induction false} AppearKeepsRest(s: State, name: Name, suffix: Const)
    requires Inv(s) && suffix !in Under(s.world, name)
    ensures var t := Exec(s, Appear(name, suffix));
            OwedOk(t) && ReportedOk(t) && forall n | n in t.world :: Unique(t.world[n])
  {
    var t := Exec(s, Appear(name, suffix));
    assert (name, suffix) !in s.owed;
    var k := Innermost(s.frames, name);
    AppearKeepsReported(s, t, (name, suffix), k);
    if k >= 0 {
      forall j | 0 <= j < |s.frames| && s.frames[j].id == s.frames[k].id ensures name in s.frames[j].names {
        assert j == k;
      }
    }
    forall n | n in t.world ensures Unique(t.world[n]) {
      assert Unique(Under(s.world, n));
    }
  }

  lemma {:induction false} AppearKeepsReported(s: State, t: State, what: (Name, Const), k: int)
    requires ReportedOk(s) && what !in s.owed && -1 <= k < |s.frames|
    requires t.frames == s.frames && t.reported == s.reported
    requires t.owed == if k >= 0 then s.owed[what := s.frames[k].id] else s.owed
    ensures ReportedOk(t)
  {
    assert forall id :: Open(t, id) <==> Open(s, id);
  }

  lemma {:induction false} RunKeepsInv(s: State, events: seq<Event>)
    requires Inv(s)
    ensures Inv(Run(s, events))
    decreases |events|
  {
    if events == [] {
    } else {
      ExecKeepsInv(s, events[0]);
      RunKeepsInv(Exec(s, events[0]), events[1..]);
    }
  }

  // Over any nesting of watches: no constant is reported twice, what is reported is
  // reported by the watch that was innermost on its namespace when it appeared, and
  // whatever appeared under a watch closed since has been reported.
  lemma {:induction false} EachConstantIsReportedOnce(world: World, events: seq<Event>)
    requires forall name | name in world :: Unique(world[name])
    ensures ReportedOk(Run(Init(world), events))
  {
    RunKeepsInv(Init(world), events);
  }

  // When all watches are closed every list is off its stack and everything owed is reported.
  lemma {:induction false} StacksAreRestored(world: World, events: seq<Event>, name: Name)
    requires forall n | n in world :: Unique(world[n])
    requires Run(Init(world), events).frames == []
    ensures var s := Run(Init(world), events);
            At(s.stacks, name) == [] && forall what | what in s.owed :: Report(s.owed[what], what) in s.reported
  {
    RunKeepsInv(Init(world), events);
    assert NameOk(Run(Init(world), events), name);
  }

  // What `owed` records: only a new constant under a watched namespace, owed to the
  // innermost watch on it.
  lemma {:induction false} OwedToTheInnermost(s: State, e: Event, what: (Name, Const))
    requires Inv(s)
    ensures var t := Exec(s, e);
            what in t.owed && what !in s.owed <==>
              && e == Appear(what.0, what.1) && what.1 !in Under(s.world, what.0)
              && exists k :: 0 <= k < |s.frames| && what.0 in s.frames[k].names
    ensures var t := Exec(s, e);
            what in t.owed && what !in s.owed ==>
              exists k :: 0 <= k < |s.frames| && what.0 in s.frames[k].names && t.owed[what] == s.frames[k].id
                && forall j | k < j < |s.frames| :: what.0 !in s.frames[j].names
    ensures what in s.owed ==> what in Exec(s, e).owed && Exec(s, e).owed[what] == s.owed[what]
  {
  }
}
