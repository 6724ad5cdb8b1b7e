/**
That calls get somewhere: one that runs alone meets whoever waits in the slot, and one
whose time is up returns, in a bounded number of its own actions.
 */
module ExchangerProgress {
  import opened Wrappers
  import opened Exchanger

  // n actions of one call, nobody else's in between.
  function Alone(s: State, id: CallId, late: bool, n: nat): State
    decreases n
  {
    if n == 0 || id !in s.calls then s else Alone(Advance(s, id, late), id, late, n - 1)
  }

  lemma {:induction false} FourActions(s: State, id: CallId, late: bool)
    requires id in s.calls
    ensures Alone(s, id, late, 4) == Advance(Advance(Advance(Advance(s, id, late), id, late), id, late), id, late)
  {
    var s1 := Advance(s, id, late);
    var s2 := Advance(s1, id, late);
    var s3 := Advance(s2, id, late);
    assert Alone(s, id, late, 4) == Alone(s1, id, late, 3);
    assert Alone(s1, id, late, 3) == Alone(s2, id, late, 2);
    assert Alone(s2, id, late, 2) == Alone(s3, id, late, 1);
    assert Alone(s3, id, late, 1) == Alone(Advance(s3, id, late), id, late, 0);
  }

  // --- Meeting ----------------------------------------------------------------------

  // A call that starts its loop and runs alone takes whoever waits in the slot out of it.
  // It gets that call's item in its fourth action and leaves its own, if and only if the
  // other's hole is not spent; with a spent one it is back at the top of its loop.
  lemma {:induction false} MeetsTheOccupier(actions: seq<Action>, a: CallId, b: CallId)
    requires var s := Run(actions); s.slot == Some(a) && b in s.calls && s.calls[b].pc.Loop?
    ensures var s := Run(actions);
            var t := Alone(s, b, false, 4);
            && a in s.calls && a in t.calls && b in t.calls && t.slot == None
            && if s.calls[a].hole.Empty? then
                 && t.calls[b].pc == Returned(Got(Received(s.calls[a].arg)))
                 && t.calls[a] == s.calls[a].(hole := Filled(Encode(s.calls[b].arg), b), open := true)
               else t.calls[b].pc.Loop? && t.calls[a] == s.calls[a]
  {
    RunKeepsInv(Init(), actions);
    var s := Run(actions);
    assert Consistent(s, a) && Consistent(s, b);
    FourActions(s, b, false);
    var t := Advance(Advance(s, b, false), b, false);
    assert t.calls[b].pc == Taken(a) && t.calls[a] == s.calls[a] && t.calls[b].arg == s.calls[b].arg && t.slot == None;
  }

  // And the occupier, running alone after that, returns with the other's item, were it on
  // its way out or not.
  lemma {:induction false} OccupierReturns(actions: seq<Action>, a: CallId, late: bool)
    requires var s := Run(actions);
             a in s.calls && s.calls[a].hole.Filled? && s.calls[a].open && Occupying(s.calls[a])
    ensures var t := Alone(Run(actions), a, late, 4);
            a in t.calls && t.calls[a].pc == Returned(Got(Decode(Run(actions).calls[a].hole.value)))
  {
    RunKeepsInv(Init(), actions);
    var s := Run(actions);
    assert Consistent(s, a);
    FourActions(s, a, late);
  }

  // --- Not meeting ------------------------------------------------------------------

  lemma {:induction false} TwoActions(s: State, id: CallId, late: bool)
    requires id in s.calls
    ensures Alone(s, id, late, 2) == Advance(Advance(s, id, late), id, late)
  {
    assert Alone(s, id, late, 2) == Alone(Advance(s, id, late), id, late, 1);
    assert Alone(Advance(s, id, late), id, late, 1) == Alone(Advance(Advance(s, id, late), id, late), id, late, 0);
  }

  // An occupier nobody has met waits as long as it has time; when its time is up, and it is
  // still in the slot, it leaves it in its second action and returns CANCEL.
  lemma {:induction false} UnmetOccupierLeaves(actions: seq<Action>, a: CallId)
    requires var s := Run(actions); s.slot == Some(a) && a in s.calls && s.calls[a].pc.Waiting? && !s.calls[a].open
    ensures var s := Run(actions);
            var t := Alone(s, a, true, 2);
            && Advance(s, a, false) == s
            && a in t.calls
            && if s.calls[a].timed then t.calls[a].pc == Returned(Cancel) && t.slot == None else t == s
  {
    RunKeepsInv(Init(), actions);
    assert Consistent(Run(actions), a);
    TwoActions(Run(actions), a, true);
  }

  // One that has lost the slot blocks its hole, if nobody has filled it, and then starts over
  // with the spent hole unless its time is up; if somebody has, it returns what it was given.
  lemma {:induction false} LostOccupierGoesOn(actions: seq<Action>, a: CallId, late: bool)
    requires var s := Run(actions); a in s.calls && s.calls[a].pc.Blocking?
    ensures var s := Run(actions);
            var t := Alone(s, a, late, 2);
            && a in t.calls
            && (s.calls[a].hole.Empty? ==>
                  t.calls[a].hole.Cancelled? && t.calls[a].pc == if late then Returned(Cancel) else Loop)
            && (s.calls[a].hole.Filled? ==> t.calls[a].pc == Returned(Got(Decode(s.calls[a].hole.value))))
  {
    RunKeepsInv(Init(), actions);
    assert Consistent(Run(actions), a);
    TwoActions(Run(actions), a, late);
  }

  // --- Giving up --------------------------------------------------------------------

  // How many of its own actions a call is from its return, once its time is up.
  function Rank(pc: Pc): nat {
    match pc
    case Loop => 6
    case Read(_) => 5
    case Taken(_) => 3
    case Wake(_) => 1
    case Waiting => 4
    case TimedOut => 3
    case Blocking => 2
    case Collect => 1
    case Deadline => 1
    case Returned(_) => 0
  }

  lemma {:induction false} LateStep(s: State, id: CallId)
    requires Inv(s) && id in s.calls && s.calls[id].timed
    ensures var t := Advance(s, id, true);
            && id in t.calls && t.calls[id].timed
            && (s.calls[id].pc.Returned? || Rank(t.calls[id].pc) < Rank(s.calls[id].pc))
  {
    assert Consistent(s, id);
  }

  lemma {:induction false} LateSteps(s: State, id: CallId, n: nat)
    requires Inv(s) && id in s.calls && s.calls[id].timed && Rank(s.calls[id].pc) <= n
    ensures var t := Alone(s, id, true, n); id in t.calls && t.calls[id].pc.Returned?
    decreases n
  {
    if n > 0 {
      LateStep(s, id);
      ExecKeepsInv(s, Act(id, true));
      LateSteps(Advance(s, id, true), id, n - 1);
    }
  }

  // However it stands with a call and whatever the others have done: once its deadline has
  // passed it returns within six actions of its own.
  lemma {:induction false} LateCallsReturn(actions: seq<Action>, id: CallId)
    requires id in Run(actions).calls && Run(actions).calls[id].timed
    ensures var t := Alone(Run(actions), id, true, 6); id in t.calls && t.calls[id].pc.Returned?
  {
    RunKeepsInv(Init(), actions);
    LateSteps(Run(actions), id, 6);
  }
}
