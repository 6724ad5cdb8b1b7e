/**
The single-slot exchanger: any number of calls of `do_exchange`, interleaved one
atomic action at a time (a read, a compare-and-set, a latch operation).
A call is named by a number; its node has the same name, so "the slot holds a
node" and "the slot holds a call" are one thing.
 */
module Exchanger {
  import opened Wrappers

  // What a caller may pass. `Null` is the library's public sentinel NULL; the
  // private sentinel CANCEL is not available to callers.
  datatype Object = Nil | Null | Plain(id: int)

  datatype Result = Cancel | Got(value: Object)

  type CallId = nat

  // The node's atomic `value`. `giver` is history: the call whose CAS filled it.
  datatype Hole = Empty | Filled(value: Object, giver: CallId) | Cancelled

  datatype Pc =
    | Loop                           // top of the loop, about to read the slot
    | Read(seen: Option<CallId>)    // slot read, about to CAS the slot
    | Taken(other: CallId)           // other removed from the slot, about to CAS its hole
    | Wake(other: CallId)            // other's hole filled, about to count its latch down
    | Waiting                        // occupied the slot, waiting on the latch
    | TimedOut                       // wait failed, about to CAS my node out of the slot
    | Blocking                       // slot lost, about to CAS my hole to CANCEL
    | Collect                        // about to return the value of my hole
    | Deadline                       // end of an iteration, about to look at the clock
    | Returned(result: Result)

  // `item`, `timed` never change; `gave` is history: the call whose hole I filled.
  datatype Call = Call(arg: Object, timed: bool, hole: Hole, open: bool, pc: Pc, gave: Option<CallId>)

  datatype State = State(slot: Option<CallId>, calls: map<CallId, Call>)

  // One atomic action of one call, or the arrival of a new call. `late` is what
  // the clock says in the two places that look at it.
  datatype Action = Arrive(id: CallId, arg: Object, timed: bool) | Act(id: CallId, late: bool)

  // nil is offered as NULL, and NULL is handed back as nil.
  function Encode(v: Object): Object { if v.Nil? then Null else v }

  function Decode(v: Object): Object { if v.Null? then Nil else v }

  function Received(arg: Object): Object { Decode(Encode(arg)) }

  function Finish(hole: Hole): Result {
    if hole.Filled? then Got(Decode(hole.value)) else Cancel
  }

  function Init(): State { State(None, map[]) }

  function Put(s: State, id: CallId, c: Call): State { s.(calls := s.calls[id := c]) }

  function Goto(s: State, id: CallId, pc: Pc): State
    requires id in s.calls
  {
    Put(s, id, s.calls[id].(pc := pc))
  }

  // --- The atomic actions of `do_exchange` ----------------------------------

  function ReadSlot(s: State, id: CallId): State
    requires id in s.calls
  {
    Goto(s, id, Read(s.slot))
  }

  function CasSlot(s: State, id: CallId, seen: Option<CallId>): State
    requires id in s.calls
  {
    if s.slot != seen then Goto(s, id, Deadline)
    else if seen.Some? then Goto(s, id, Taken(seen.value)).(slot := None)
    else Goto(s, id, Waiting).(slot := Some(id))
  }

  function CasHole(s: State, id: CallId, other: CallId): State
    requires id in s.calls
  {
    if other in s.calls && other != id && s.calls[other].hole.Empty? then
      Put(Put(s, other, s.calls[other].(hole := Filled(Encode(s.calls[id].arg), id))),
          id, s.calls[id].(pc := Wake(other), gave := Some(other)))
    else
      Goto(s, id, Deadline)
  }

  function CountDown(s: State, id: CallId, other: CallId): State
    requires id in s.calls
  {
    if other in s.calls && other != id then
      Goto(Put(s, other, s.calls[other].(open := true)), id, Returned(Got(Received(s.calls[other].arg))))
    else
      s
  }

  function Await(s: State, id: CallId, late: bool): State
    requires id in s.calls
  {
    if s.calls[id].open then Goto(s, id, Collect)
    else if s.calls[id].timed && late then Goto(s, id, TimedOut)
    else s
  }

  function Withdraw(s: State, id: CallId): State
    requires id in s.calls
  {
    if s.slot == Some(id) then Goto(s, id, Returned(Cancel)).(slot := None) else Goto(s, id, Blocking)
  }

  function BlockHole(s: State, id: CallId): State
    requires id in s.calls
  {
    if s.calls[id].hole.Empty? then Put(s, id, s.calls[id].(hole := Cancelled, pc := Deadline))
    else Goto(s, id, Collect)
  }

  function CheckClock(s: State, id: CallId, late: bool): State
    requires id in s.calls
  {
    Goto(s, id, if s.calls[id].timed && late then Returned(Cancel) else Loop)
  }

  // The next action of a call. A call that is blocked or has returned does nothing.
  function Advance(s: State, id: CallId, late: bool): State
    requires id in s.calls
  {
    match s.calls[id].pc
    case Loop => ReadSlot(s, id)
    case Read(seen) => CasSlot(s, id, seen)
    case Taken(other) => CasHole(s, id, other)
    case Wake(other) => CountDown(s, id, other)
    case Waiting => Await(s, id, late)
    case TimedOut => Withdraw(s, id)
    case Blocking => BlockHole(s, id)
    case Collect => Goto(s, id, Returned(Finish(s.calls[id].hole)))
    case Deadline => CheckClock(s, id, late)
    case Returned(_) => s
  }

  function Exec(s: State, a: Action): State {
    match a
    case Arrive(id, arg, timed) =>
      if id in s.calls then s else Put(s, id, Call(arg, timed, Empty, false, Loop, None))
    case Act(id, late) => if id in s.calls then Advance(s, id, late) else s
  }

  function RunFrom(s: State, actions: seq<Action>): State
    decreases |actions|
  {
    if actions == [] then s else RunFrom(Exec(s, actions[0]), actions[1..])
  }

  function Run(actions: seq<Action>): State { RunFrom(Init(), actions) }

  // The call this one has exchanged with, whichever side it was on.
  function Partner(s: State, id: CallId): Option<CallId>
    requires id in s.calls
  {
    var c := s.calls[id];
    if c.gave.Some? then c.gave else if c.hole.Filled? then Some(c.hole.giver) else None
  }

  // --- The invariant -------------------------------------------------------

  predicate InSlot(c: Call) { c.pc.Waiting? || c.pc.TimedOut? }

  predicate Occupying(c: Call) { InSlot(c) || c.pc.Blocking? }

  // What a call's own hole and latch say about where the call is.
  predicate Sides(c: Call) {
    && (c.hole.Filled? ==> c.gave.None? && (Occupying(c) || c.pc.Collect? || c.pc == Returned(Finish(c.hole))))
    && (c.open ==> c.hole.Filled?)
    && (c.pc.Collect? ==> !c.hole.Empty?)
    && (c.pc.Returned? && c.gave.None? ==> c.pc.result == Finish(c.hole))
    && (!c.timed ==> !c.hole.Cancelled? && !c.pc.TimedOut? && !c.pc.Blocking? && c.pc != Returned(Cancel))
  }

  predicate TakenBy(s: State, o: CallId, f: CallId) { f in s.calls && s.calls[f].pc == Taken(o) }

  // What the rest of the state says about call c:
  //  - the slot holds only calls that wait there with an unfilled hole;
  //  - every name c holds is the name of another call;
  //  - an unfilled node c took from the slot is out of it, its owner still there;
  //  - the histories `gave` and `giver` mirror each other, and the item went across;
  //  - an unfilled occupier is in the slot or in some fulfiller's hands.
  ghost predicate Consistent(s: State, c: CallId)
    requires c in s.calls
  {
    var me := s.calls[c];
    && Sides(me)
    && (s.slot == Some(c) ==> InSlot(me) && !me.hole.Filled?)
    && (me.pc.Read? && me.pc.seen.Some? ==> me.pc.seen.value in s.calls && me.pc.seen.value != c)
    && (me.pc.Taken? ==>
          var o := me.pc.other;
          && o in s.calls && o != c
          && (s.calls[o].hole.Empty? ==> s.slot != Some(o) && Occupying(s.calls[o])))
    && (me.pc.Wake? ==> me.gave == Some(me.pc.other))
    && (me.gave.Some? ==>
          var o := me.gave.value;
          && o in s.calls && o != c
          && s.calls[o].hole == Filled(Encode(me.arg), c)
          && (me.pc.Wake? || (me.pc == Returned(Got(Received(s.calls[o].arg))) && s.calls[o].open)))
    && (me.hole.Filled? ==> me.hole.giver in s.calls && s.calls[me.hole.giver].gave == Some(c))
    && (Occupying(me) && me.hole.Empty? && s.slot != Some(c) ==> exists f :: TakenBy(s, c, f))
  }

  ghost predicate Inv(s: State) {
    && (s.slot.Some? ==> s.slot.value in s.calls)
    && (forall c {:trigger Consistent(s, c)} | c in s.calls :: Consistent(s, c))
  }

  // Whoever else has taken c from the slot still has.
  lemma {:induction false} TakenStays(s: State, t: State, c: CallId, id: CallId)
    requires forall f | f in s.calls && f != id && s.calls[f].pc.Taken? ::
               f in t.calls && s.calls[f].pc == t.calls[f].pc
    ensures (exists f :: f != id && TakenBy(s, c, f)) ==> exists f :: TakenBy(t, c, f)
  {
    if f :| f != id && TakenBy(s, c, f) {
      assert TakenBy(t, c, f);
    }
  }

  lemma {:induction false} ReadSlotKeepsInv(s: State, id: CallId)
    requires Inv(s) && id in s.calls && s.calls[id].pc.Loop?
    ensures Inv(ReadSlot(s, id))
  {
    var t := ReadSlot(s, id);
    forall c | c in t.calls ensures Consistent(t, c) {
      assert Consistent(s, c) && Consistent(s, id);
      TakenStays(s, t, c, id);
    }
  }

  // The occupier seen is taken out of the slot.
  lemma {:induction false} TakeKeepsCall(s: State, id: CallId, o: CallId, c: CallId)
    requires Inv(s) && id in s.calls && s.calls[id].pc == Read(Some(o)) && s.slot == Some(o) && c in s.calls
    ensures Consistent(CasSlot(s, id, Some(o)), c)
  {
    var t := CasSlot(s, id, Some(o));
    assert Consistent(s, c) && Consistent(s, id) && Consistent(s, o);
    assert TakenBy(t, o, id);
    TakenStays(s, t, c, id);
  }

  lemma {:induction false} CasSlotKeepsInv(s: State, id: CallId)
    requires Inv(s) && id in s.calls && s.calls[id].pc.Read?
    ensures Inv(CasSlot(s, id, s.calls[id].pc.seen))
  {
    var seen := s.calls[id].pc.seen;
    var t := CasSlot(s, id, seen);
    forall c | c in t.calls ensures Consistent(t, c) {
      if seen.Some? && s.slot == seen {
        TakeKeepsCall(s, id, seen.value, c);
      } else {
        assert Consistent(s, c) && Consistent(s, id);
        TakenStays(s, t, c, id);
      }
    }
  }

  // A hole that could be filled: the giver, the receiver, and everybody else.
  lemma {:induction false} CasHoleKeepsGiver(s: State, id: CallId, o: CallId)
    requires Inv(s) && id in s.calls && s.calls[id].pc == Taken(o) && o in s.calls && s.calls[o].hole.Empty?
    ensures Consistent(CasHole(s, id, o), id)
  {
    assert Consistent(s, id) && Consistent(s, o);
    TakenStays(s, CasHole(s, id, o), id, id);
  }

  lemma {:induction false} CasHoleKeepsReceiver(s: State, id: CallId, o: CallId)
    requires Inv(s) && id in s.calls && s.calls[id].pc == Taken(o) && o in s.calls && s.calls[o].hole.Empty?
    ensures Consistent(CasHole(s, id, o), o)
  {
    assert Consistent(s, id) && Consistent(s, o);
  }

  lemma {:induction false} CasHoleKeepsOthers(s: State, id: CallId, o: CallId, c: CallId)
    requires Inv(s) && id in s.calls && s.calls[id].pc == Taken(o) && o in s.calls && s.calls[o].hole.Empty?
    requires c in s.calls && c != id && c != o
    ensures Consistent(CasHole(s, id, o), c)
  {
    assert Consistent(s, id) && Consistent(s, o) && Consistent(s, c);
    TakenStays(s, CasHole(s, id, o), c, id);
    assert s.calls[c].gave != Some(o) && s.calls[c].gave != Some(id);
  }

  lemma {:induction false} CasHoleKeepsInv(s: State, id: CallId)
    requires Inv(s) && id in s.calls && s.calls[id].pc.Taken?
    ensures Inv(CasHole(s, id, s.calls[id].pc.other))
  {
    var o := s.calls[id].pc.other;
    var t := CasHole(s, id, o);
    assert Consistent(s, id);
    forall c | c in t.calls ensures Consistent(t, c) {
      if !s.calls[o].hole.Empty? {
        assert Consistent(s, c);
        TakenStays(s, t, c, id);
      } else if c == id {
        CasHoleKeepsGiver(s, id, o);
      } else if c == o {
        CasHoleKeepsReceiver(s, id, o);
      } else {
        CasHoleKeepsOthers(s, id, o, c);
      }
    }
  }

  lemma {:induction false} CountDownKeepsOthers(s: State, id: CallId, o: CallId, c: CallId)
    requires Inv(s) && id in s.calls && s.calls[id].pc == Wake(o) && c in s.calls && c != id && c != o
    ensures Consistent(CountDown(s, id, o), c)
  {
    assert Consistent(s, c) && Consistent(s, id);
    TakenStays(s, CountDown(s, id, o), c, id);
  }

  lemma {:induction false} CountDownKeepsInv(s: State, id: CallId)
    requires Inv(s) && id in s.calls && s.calls[id].pc.Wake?
    ensures Inv(CountDown(s, id, s.calls[id].pc.other))
  {
    var o := s.calls[id].pc.other;
    var t := CountDown(s, id, o);
    assert Consistent(s, id);
    forall c | c in t.calls ensures Consistent(t, c) {
      if c == id || c == o {
        assert Consistent(s, c);
        TakenStays(s, t, c, id);
      } else {
        CountDownKeepsOthers(s, id, o, c);
      }
    }
  }

  lemma {:induction false} AwaitKeepsInv(s: State, id: CallId, late: bool)
    requires Inv(s) && id in s.calls && s.calls[id].pc.Waiting?
    ensures Inv(Await(s, id, late))
  {
    var t := Await(s, id, late);
    forall c | c in t.calls ensures Consistent(t, c) {
      assert Consistent(s, c) && Consistent(s, id);
      TakenStays(s, t, c, id);
    }
  }

  lemma {:induction false} WithdrawKeepsInv(s: State, id: CallId)
    requires Inv(s) && id in s.calls && s.calls[id].pc.TimedOut?
    ensures Inv(Withdraw(s, id))
  {
    var t := Withdraw(s, id);
    forall c | c in t.calls ensures Consistent(t, c) {
      assert Consistent(s, c) && Consistent(s, id);
      TakenStays(s, t, c, id);
    }
  }

  lemma {:induction false} BlockHoleKeepsInv(s: State, id: CallId)
    requires Inv(s) && id in s.calls && s.calls[id].pc.Blocking?
    ensures Inv(BlockHole(s, id))
  {
    var t := BlockHole(s, id);
    forall c | c in t.calls ensures Consistent(t, c) {
      assert Consistent(s, c) && Consistent(s, id);
      TakenStays(s, t, c, id);
    }
  }

  lemma {:induction false} CollectKeepsInv(s: State, id: CallId)
    requires Inv(s) && id in s.calls && s.calls[id].pc.Collect?
    ensures Inv(Goto(s, id, Returned(Finish(s.calls[id].hole))))
  {
    var t := Goto(s, id, Returned(Finish(s.calls[id].hole)));
    forall c | c in t.calls ensures Consistent(t, c) {
      assert Consistent(s, c) && Consistent(s, id);
      TakenStays(s, t, c, id);
    }
  }

  lemma {:induction false} CheckClockKeepsInv(s: State, id: CallId, late: bool)
    requires Inv(s) && id in s.calls && s.calls[id].pc.Deadline?
    ensures Inv(CheckClock(s, id, late))
  {
    var t := CheckClock(s, id, late);
    forall c | c in t.calls ensures Consistent(t, c) {
      assert Consistent(s, c) && Consistent(s, id);
      TakenStays(s, t, c, id);
    }
  }

  lemma {:induction false} ExecKeepsInv(s: State, a: Action)
    requires Inv(s)
    ensures Inv(Exec(s, a))
  {
    if a.Act? && a.id in s.calls {
      match s.calls[a.id].pc
      case Loop => ReadSlotKeepsInv(s, a.id);
      case Read(_) => CasSlotKeepsInv(s, a.id);
      case Taken(_) => CasHoleKeepsInv(s, a.id);
      case Wake(_) => CountDownKeepsInv(s, a.id);
      case Waiting => AwaitKeepsInv(s, a.id, a.late);
      case TimedOut => WithdrawKeepsInv(s, a.id);
      case Blocking => BlockHoleKeepsInv(s, a.id);
      case Collect => CollectKeepsInv(s, a.id);
      case Deadline => CheckClockKeepsInv(s, a.id, a.late);
      case Returned(_) =>
    } else if a.Arrive? {
      var t := Exec(s, a);
      forall c | c in t.calls ensures Consistent(t, c) {
        if c in s.calls {
          assert Consistent(s, c);
          TakenStays(s, t, c, a.id);
        }
      }
    }
  }

  lemma {:induction false} RunKeepsInv(s: State, actions: seq<Action>)
    requires Inv(s)
    ensures Inv(RunFrom(s, actions))
    decreases |actions|
  {
    if actions == [] {
    } else {
      ExecKeepsInv(s, actions[0]);
      RunKeepsInv(Exec(s, actions[0]), actions[1..]);
    }
  }

  lemma {:induction false} RunFromSplits(s: State, first: seq<Action>, more: seq<Action>)
    ensures RunFrom(s, first + more) == RunFrom(RunFrom(s, first), more)
    decreases |first|
  {
    if first == [] {
      assert first + more == more;
    } else {
      assert (first + more)[1..] == first[1..] + more;
      RunFromSplits(Exec(s, first[0]), first[1..], more);
    }
  }

  // --- What callers are promised --------------------------------------------

  // What a call offered, whom it met and what it returned are settled for good.
  ghost predicate Settled(s: State, t: State, id: CallId)
    requires id in s.calls
  {
    && id in t.calls
    && t.calls[id].arg == s.calls[id].arg
    && t.calls[id].timed == s.calls[id].timed
    && (Partner(s, id).Some? ==> Partner(t, id) == Partner(s, id))
    && (s.calls[id].pc.Returned? ==> t.calls[id].pc == s.calls[id].pc)
  }

  lemma {:induction false} ExecSettles(s: State, a: Action, id: CallId)
    requires Inv(s) && id in s.calls
    ensures Settled(s, Exec(s, a), id)
  {
    assert Consistent(s, id);
    if a.Act? && a.id in s.calls {
      assert Consistent(s, a.id);
      if s.calls[a.id].pc.Taken? {
        CasHoleSettles(s, a.id, s.calls[a.id].pc.other, id);
      }
    }
  }

  // Filling a hole gives both sides their partner; neither had one.
  lemma {:induction false} CasHoleSettles(s: State, giver: CallId, other: CallId, id: CallId)
    requires Inv(s) && id in s.calls && giver in s.calls && s.calls[giver].pc == Taken(other)
    ensures Settled(s, CasHole(s, giver, other), id)
  {
    assert Consistent(s, id) && Consistent(s, giver);
  }

  lemma {:induction false} RunSettles(s: State, actions: seq<Action>, id: CallId)
    requires Inv(s) && id in s.calls
    ensures Settled(s, RunFrom(s, actions), id)
    decreases |actions|
  {
    if actions == [] {
    } else {
      ExecKeepsInv(s, actions[0]);
      ExecSettles(s, actions[0], id);
      RunSettles(Exec(s, actions[0]), actions[1..], id);
    }
  }

  // a and b swapped items: each is the other's partner, and whichever has
  // returned holds what the other offered.
  ghost predicate Swapped(s: State, a: CallId, b: CallId) {
    && a != b && a in s.calls && b in s.calls
    && Partner(s, a) == Some(b) && Partner(s, b) == Some(a)
    && (s.calls[a].pc.Returned? ==> s.calls[a].pc.result == Got(Received(s.calls[b].arg)))
    && (s.calls[b].pc.Returned? ==> s.calls[b].pc.result == Got(Received(s.calls[a].arg)))
  }

  // Completed exchanges are a symmetric matching with no fixed point: whoever
  // returned a value, or has met somebody, is in exactly one swapped pair. The
  // item arrives as it was offered (nil included) unless it was the sentinel NULL.
  lemma {:induction false} ExchangesAreAMatching(actions: seq<Action>, a: CallId)
    requires a in Run(actions).calls
    requires (exists x :: Run(actions).calls[a].pc == Returned(Got(x))) || Partner(Run(actions), a).Some?
    ensures var s := Run(actions); exists b :: Swapped(s, a, b)
    ensures var s := Run(actions);
            forall b, c | c in s.calls && Swapped(s, a, b) && Partner(s, c) == Some(a) :: c == b
    ensures var s := Run(actions);
            forall b | Swapped(s, a, b) && s.calls[a].pc.Returned? ::
              s.calls[a].pc.result == Got(s.calls[b].arg) <==> !s.calls[b].arg.Null?
  {
    var s := Run(actions);
    RunKeepsInv(Init(), actions);
    assert Consistent(s, a);
    var b := Partner(s, a).value;
    assert Consistent(s, b);
    assert Swapped(s, a, b);
    forall c | c in s.calls && Partner(s, c) == Some(a) ensures c == b {
      assert Consistent(s, c);
    }
  }

  // A pair once made is never remade: in every later state the same two calls
  // are still each other's only choice.
  lemma {:induction false} SwapIsForever(actions: seq<Action>, more: seq<Action>, a: CallId, b: CallId)
    requires Swapped(Run(actions), a, b)
    ensures Swapped(Run(actions + more), a, b)
    ensures Run(actions + more).calls[a].arg == Run(actions).calls[a].arg
  {
    var s := Run(actions);
    RunKeepsInv(Init(), actions);
    RunSettles(s, more, a);
    RunSettles(s, more, b);
    RunFromSplits(Init(), actions, more);
    RunKeepsInv(s, more);
    assert Consistent(Run(actions + more), a) && Consistent(Run(actions + more), b);
  }

  // A call that returned CANCEL is never matched, however the run goes on: no
  // call holds its node's item and none filled its hole.
  lemma {:induction false} CancelledIsNeverDelivered(actions: seq<Action>, more: seq<Action>, a: CallId)
    requires a in Run(actions).calls && Run(actions).calls[a].pc == Returned(Cancel)
    ensures var t := Run(actions + more);
            && a in t.calls && t.calls[a].pc == Returned(Cancel) && Partner(t, a) == None
            && forall c | c in t.calls :: Partner(t, c) != Some(a)
  {
    var s := Run(actions);
    RunKeepsInv(Init(), actions);
    RunSettles(s, more, a);
    RunFromSplits(Init(), actions, more);
    RunKeepsInv(s, more);
    var t := Run(actions + more);
    assert Consistent(t, a);
    forall c | c in t.calls ensures Partner(t, c) != Some(a) {
      assert Consistent(t, c);
    }
  }

  // Without a timeout the only way out is an exchange.
  lemma {:induction false} UntimedNeverCancels(actions: seq<Action>, a: CallId)
    requires a in Run(actions).calls && !Run(actions).calls[a].timed
    ensures Run(actions).calls[a].pc != Returned(Cancel)
  {
    RunKeepsInv(Init(), actions);
    assert Consistent(Run(actions), a);
  }

  // No action of any existing call changes anything.
  ghost predicate Stuck(s: State) {
    forall id, late | id in s.calls :: Advance(s, id, late) == s
  }

  lemma {:induction false} StuckCall(s: State, c: CallId)
    requires Inv(s) && Stuck(s) && c in s.calls
    ensures var me := s.calls[c]; me.pc.Returned? || (me.pc.Waiting? && !me.open && !me.timed)
  {
    assert Consistent(s, c);
    assert Advance(s, c, true) == s;
    assert Advance(s, c, true).calls[c].pc == s.calls[c].pc;
  }

  // No wake-up is lost: when nothing can move any more, every call has returned
  // except at most one, an unmatched call without timeout sitting in the slot.
  lemma {:induction false} NoLostWakeUp(actions: seq<Action>, a: CallId)
    requires Stuck(Run(actions)) && a in Run(actions).calls && !Run(actions).calls[a].pc.Returned?
    ensures var s := Run(actions); s.slot == Some(a) && Partner(s, a) == None && !s.calls[a].timed
  {
    var s := Run(actions);
    RunKeepsInv(Init(), actions);
    assert Consistent(s, a);
    StuckCall(s, a);
    if s.calls[a].hole.Filled? {
      assert Consistent(s, s.calls[a].hole.giver);
      StuckCall(s, s.calls[a].hole.giver);
    } else if s.slot != Some(a) {
      var f :| TakenBy(s, a, f);
      StuckCall(s, f);
    }
  }

  // The sentinel is public, so it can be offered: call 0 does, and waits.
  const OFFERED: seq<Action> := [Arrive(0, Null, false), Act(0, false), Act(0, false)]
  const WAITING: State := State(Some(0), map[0 := Call(Null, false, Empty, false, Waiting, None)])

  lemma {:induction false} SentinelWaits()
    ensures RunFrom(Init(), OFFERED) == WAITING
  {
    var s1 := OneAction(Init(), OFFERED);
    assert s1.calls == map[0 := Call(Null, false, Empty, false, Loop, None)];
    var s2 := OneAction(s1, OFFERED[1..]);
    assert s2.calls == map[0 := Call(Null, false, Empty, false, Read(None), None)];
    var s3 := OneAction(s2, OFFERED[2..]);
    assert OFFERED[3..] == [];
  }

  // Call 1 comes and takes it.
  const TAKEN: seq<Action> :=
    [Arrive(1, Plain(7), false), Act(1, false), Act(1, false), Act(1, false), Act(1, false)]

  lemma {:induction false} SentinelIsTaken()
    ensures var s := RunFrom(WAITING, TAKEN);
            0 in s.calls && s.calls[0].arg == Null && 1 in s.calls && s.calls[1].pc == Returned(Got(Nil))
  {
    var s1 := OneAction(WAITING, TAKEN);
    var s2 := OneAction(s1, TAKEN[1..]);
    var s3 := OneAction(s2, TAKEN[2..]);
    assert 0 in s3.calls && 1 in s3.calls && s3.calls[1].pc == Taken(0) && s3.calls[0] == WAITING.calls[0];
    var s4 := OneAction(s3, TAKEN[3..]);
    var s5 := OneAction(s4, TAKEN[4..]);
    assert TAKEN[5..] == [];
  }

  // What call 1 gets is nil.
  lemma {:induction false} SentinelArrivesAsNil()
    ensures var s := Run(OFFERED + TAKEN);
            0 in s.calls && s.calls[0].arg == Null && 1 in s.calls && s.calls[1].pc == Returned(Got(Nil))
  {
    RunFromSplits(Init(), OFFERED, TAKEN);
    SentinelWaits();
    SentinelIsTaken();
  }

  lemma {:induction false} OneAction(s: State, actions: seq<Action>) returns (t: State)
    requires actions != []
    ensures t == Exec(s, actions[0]) && RunFrom(s, actions) == RunFrom(t, actions[1..])
  {
    t := Exec(s, actions[0]);
  }
}
