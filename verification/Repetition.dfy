/** What a flow that repeats an interrupted request does next, and when that differs from what it would have
    done. */
module Repetition {
  import opened Common
  import opened World
  import opened Tree
  import opened Parsing
  import opened Machine
  import opened Jumps
  import opened Likeness
  import opened Interruption

  function Always(r: Reply): Oracle {
    h => r
  }

  /** Answered with `r`, the flow taken up dispatches request `a` in its next round, and ends up where the flow
      before the cut would have, going on or not. */
  ghost predicate RepeatsFor(p: Program, st: State, up: State, a: Ptr, r: Reply)
    requires WellFormed(p) && Ok(p, st) && Ok(p, up) && Addresses(p, a)
  {
    var x, y := Turn(p, st, Always(r)), Turn(p, up, Always(r));
    && y.st.hist == up.hist + [Record(Deref(p, a))]
    && (y.Halt? <==> x.Halt?) && SamePlace(p, Out(p, x.st), Out(p, y.st))
  }

  /** It does whatever the handler comes back with. */
  ghost predicate RepeatsAlike(p: Program, st: State, up: State, a: Ptr)
    requires WellFormed(p) && Ok(p, st) && Ok(p, up) && Addresses(p, a)
  {
    forall r: Reply | r.finish.Finished? :: RepeatsFor(p, st, up, a, r)
  }

  // ----- rounds and handlers -----

  ghost predicate LimiterLets(p: Program, st: State, a: Ptr)
    requires WellFormed(p) && Addresses(p, a)
  {
    RequestFacts(p, a);
    var l := Deref(p, a).limiter;
    l.Some? ==> At(st.sent, l.value) < p.limits[l.value].max
  }

  /** A round whose handler comes back is the handler and then the test for a break. */
  lemma TurnHandles(p: Program, st: State, a: Ptr, r: Reply)
    requires WellFormed(p) && Ok(p, st) && Next(p, st).1 == Some(a) && !st.cancel && r.finish.Finished?
    requires LimiterLets(p, st, a)
    ensures var to := Handle(p, Handing(p, st, a), a, r);
            var turn := Turn(p, st, Always(r));
            && turn.st.cur == to.cur && turn.st.pos == to.pos && turn.st.hist == st.hist + [Record(Deref(p, a))]
            && (turn.Halt? <==> r.cancel || Deref(p, a).kind.BreakApp? || Deref(p, a).h.isBreak)
  {
    hide *;
    var x, y, l := HandingParts(p, st, a);
    if l.None? {
      UnlimitedTurn(p, st, a, r, x);
    } else {
      WithinTurn(p, st, a, r, x, y, l.value);
    }
  }

  /** What the handler of a request within its limit starts from. */
  lemma HandingParts(p: Program, st: State, a: Ptr) returns (x: State, y: State, l: Option<nat>)
    requires WellFormed(p) && Ok(p, st) && Next(p, st).1 == Some(a) && !st.cancel && LimiterLets(p, st, a)
    ensures Next(p, st) == (x, Some(a)) && Ok(p, x) && Ok(p, y) && !x.cancel && x.hist == st.hist
    ensures l == Deref(p, a).limiter && Handing(p, st, a) == y.(hist := x.hist + [Record(Deref(p, a))])
    ensures l.None? ==> y == x
    ensures l.Some? ==> l.value < |p.limits| && At(x.sent, l.value) < p.limits[l.value].max
                        && y == x.(sent := Put(x.sent, l.value, At(x.sent, l.value) + 1))
  {
    hide WellFormed, OkPositions, OkSteps, Next, Put;
    NextMoves(p, st);
    RequestFacts(p, a);
    x, l := Next(p, st).0, Deref(p, a).limiter;
    y := x.(sent := Charged(x.sent, l));
  }

  lemma UnlimitedTurn(p: Program, st: State, a: Ptr, r: Reply, x: State)
    requires WellFormed(p) && Ok(p, st) && Ok(p, x) && Next(p, st) == (x, Some(a)) && !x.cancel
    requires r.finish.Finished? && Deref(p, a).limiter == None
    ensures var to := Handle(p, x.(hist := x.hist + [Record(Deref(p, a))]), a, r);
            var turn := Turn(p, st, Always(r));
            && turn.st.cur == to.cur && turn.st.pos == to.pos && turn.st.hist == x.hist + [Record(Deref(p, a))]
            && (turn.Halt? <==> r.cancel || Deref(p, a).kind.BreakApp? || Deref(p, a).h.isBreak)
  {
    hide *;
    TurnUnlimited(p, st, Always(r), x, a);
    DispatchHandles(p, x, a, r);
  }

  lemma WithinTurn(p: Program, st: State, a: Ptr, r: Reply, x: State, y: State, l: nat)
    requires WellFormed(p) && Ok(p, st) && Ok(p, x) && Ok(p, y) && Next(p, st) == (x, Some(a)) && !x.cancel
    requires Deref(p, a).limiter == Some(l) && l < |p.limits| && At(x.sent, l) < p.limits[l].max
    requires r.finish.Finished? && y == x.(sent := Put(x.sent, l, At(x.sent, l) + 1))
    ensures var to := Handle(p, y.(hist := x.hist + [Record(Deref(p, a))]), a, r);
            var turn := Turn(p, st, Always(r));
            && turn.st.cur == to.cur && turn.st.pos == to.pos && turn.st.hist == x.hist + [Record(Deref(p, a))]
            && (turn.Halt? <==> r.cancel || Deref(p, a).kind.BreakApp? || Deref(p, a).h.isBreak)
  {
    hide *;
    TurnWithin(p, st, Always(r), x, a, l);
    DispatchHandles(p, y, a, r);
  }

  lemma DispatchHandles(p: Program, st: State, a: Ptr, r: Reply)
    requires WellFormed(p) && Ok(p, st) && Addresses(p, a) && !st.cancel && r.finish.Finished?
    ensures var hist := st.hist + [Record(Deref(p, a))];
            var to := Handle(p, st.(hist := hist), a, r);
            var turn := Dispatch(p, st, a, Always(r));
            && turn.st.cur == to.cur && turn.st.pos == to.pos && turn.st.hist == hist
            && (turn.Halt? <==> r.cancel || Deref(p, a).kind.BreakApp? || Deref(p, a).h.isBreak)
  {
    hide WellFormed, OkPositions, OkSteps, Handle;
    HandleCancels(p, st.(hist := st.hist + [Record(Deref(p, a))]), a, r);
  }

  lemma HandleCancels(p: Program, st: State, a: Ptr, r: Reply)
    requires WellFormed(p) && Ok(p, st) && Addresses(p, a)
    ensures Handle(p, st, a, r).cancel == (st.cancel || r.cancel || Deref(p, a).kind.BreakApp?)
  {
    hide WellFormed, OkPositions, OkSteps, FindCase, Repair, Put;
    RequestFacts(p, a);
  }

  /** A request over its limit is not dispatched: the round jumps to the failover or ends the run. */
  lemma LimitStops(p: Program, st: State, a: Ptr, o: Oracle)
    requires WellFormed(p) && Ok(p, st) && Next(p, st).1 == Some(a) && !st.cancel && !LimiterLets(p, st, a)
    ensures Turn(p, st, o).st.hist == st.hist
  {
    hide WellFormed, OkPositions, OkSteps, Next, Turn, Goto, At;
    NextMoves(p, st);
    RequestFacts(p, a);
    var x := Next(p, st).0;
    assert Next(p, st) == (x, Some(a));
    TurnBeyond(p, st, o, x, a, Deref(p, a).limiter.value);
  }

  /** The handlers of the two rounds lead to the same place. */
  ghost predicate HandledFor(p: Program, st: State, up: State, a: Ptr, r: Reply)
    requires WellFormed(p) && Ok(p, st) && Ok(p, up) && Addresses(p, a)
  {
    SamePlace(p, Out(p, Handle(p, Handing(p, st, a), a, r)), Out(p, Handle(p, Handing(p, up, a), a, r)))
  }

  /** Unless the limiter is used up, the rounds agree if the handlers do. */
  lemma RepeatsIfHandled(p: Program, st: State, up: State, a: Ptr, r: Reply)
    requires WellFormed(p) && Ok(p, st) && Ok(p, up) && Next(p, st).1 == Some(a) && Next(p, up).1 == Some(a)
    requires !st.cancel && !up.cancel && r.finish.Finished? && LimiterLets(p, st, a) && LimiterLets(p, up, a)
    ensures RepeatsFor(p, st, up, a, r) <==> HandledFor(p, st, up, a, r)
  {
    hide WellFormed, Ok, Next, Handle, Turn, Out, SamePlace, LimiterLets, Handing;
    TurnHandles(p, st, a, r);
    TurnHandles(p, up, a, r);
    var x, y := Handle(p, Handing(p, st, a), a, r), Handle(p, Handing(p, up, a), a, r);
    var x1, y1 := Turn(p, st, Always(r)).st, Turn(p, up, Always(r)).st;
    OutMoved(p, x, x1);
    OutMoved(p, y, y1);
    SameMoved(p, Out(p, x), Out(p, y), Out(p, x1), Out(p, y1));
  }

  lemma OutMoved(p: Program, st: State, st2: State)
    requires WellFormed(p) && Ok(p, st) && Ok(p, st2) && st2.cur == st.cur && st2.pos == st.pos
    ensures Out(p, st2).cur == Out(p, st).cur && Out(p, st2).pos == Out(p, st).pos
  {
    hide WellFormed, OkPositions, OkSteps;
  }

  lemma SameMoved(p: Program, x: State, y: State, x1: State, y1: State)
    requires x1.cur == x.cur && x1.pos == x.pos && y1.cur == y.cur && y1.pos == y.pos
    ensures SamePlace(p, x1, y1) <==> SamePlace(p, x, y)
  {
    hide SamePlace;
    if SamePlace(p, x, y) {
      CursorsMeet(p, x, y);
      SameKept(p, x, y, x1, y1);
    }
    if SamePlace(p, x1, y1) {
      CursorsMeet(p, x1, y1);
      SameKept(p, x1, y1, x, y);
    }
  }

  // ----- without a jump -----

  /** States that differ only in dormant loops, and in what was dispatched. */
  lemma HandledAlike(p: Program, x: State, x2: State, a: Ptr, r: Reply)
    requires WellFormed(p) && Ok(p, x) && Ok(p, x2) && Addresses(p, a) && x.cur == a.node && LoopsAlike(p, x, x2)
    requires x2 == x.(hist := x2.hist, sent := x2.sent, step := x2.step, counter := x2.counter)
    ensures SamePlace(p, Out(p, Handle(p, x, a, r)), Out(p, Handle(p, x2, a, r)))
  {
    hide WellFormed, OkPositions, OkSteps, SamePlace, LoopsAlike, Handle, Out;
    var z := x.(step := x2.step, counter := x2.counter);
    LoopsStay(p, x, x2, x, z);
    SameHere(p, x, z);
    HandleAlike(p, x, z, a, r);
    HandleApart(p, z, x2.hist, x2.sent, a, r);
    OutApart(p, Handle(p, z, a, r), x2.hist, x2.sent);
    var y, y2 := Out(p, Handle(p, z, a, r)), Out(p, Handle(p, x2, a, r));
    CursorsMeet(p, Out(p, Handle(p, x, a, r)), y);
    SameKept(p, Out(p, Handle(p, x, a, r)), y, Out(p, Handle(p, x, a, r)), y2);
  }

  lemma OutApart(p: Program, st: State, hist: seq<Event>, sent: Table)
    requires WellFormed(p) && Ok(p, st)
    ensures Ok(p, st.(hist := hist, sent := sent))
    ensures Out(p, st.(hist := hist, sent := sent)) == Out(p, st).(hist := hist, sent := sent)
  {
    hide WellFormed, OkPositions, OkSteps;
  }

  /** A loop that lost a step, having just ended when it was cut off. If its limiter is not used up, it goes
      round once more whatever its condition says if it has steps left, and not at all whatever its condition
      says if it has none; if its limiter is used up, it is not dispatched. */
  lemma SpentLoopGoesRound(
    p: Program, st: State, o: Oracle, names: set<string>, a: Ptr, up: State, r: Reply)
    requires WellFormed(p) && Ok(p, st) && CutAt(p, st, o, a) && TakenUp(p, st, o, names, up)
    requires StepWasLost(p, st, o, a) && r.finish.Finished?
    ensures Ok(p, up)
    ensures var d := Deref(p, a).kind.do;
            var again := Turn(p, up, Always(r)).st;
            && d < |p.nodes| && d in p.loops
            && if LimitReached(p, st, a) then again.hist == up.hist
               else
                 && again.hist == up.hist + [Record(Deref(p, a))]
                 && if At(st.counter, d) + 1 < p.loops[d].maxSteps then again.cur == d && Pos(again, d) == 0
                    else again.cur == a.node && Pos(again, a.node) == a.at + 1
  {
    hide WellFormed, OkPositions, OkSteps, Next, Turn, LimiterLets, LimitReached, RepeatInterrupted;
    UpReady(p, st, o, names, a, up);
    RequestFacts(p, a);
    if LimitReached(p, st, a) {
      LimitStops(p, up, a, Always(r));
    } else {
      TurnHandles(p, up, a, r);
      LostLoopHandles(p, st, o, names, a, up, r);
    }
  }

  /** The flow taken up, before its first round. */
  lemma UpReady(p: Program, st: State, o: Oracle, names: set<string>, a: Ptr, up: State)
    requires WellFormed(p) && Ok(p, st) && CutAt(p, st, o, a) && TakenUp(p, st, o, names, up)
    ensures Ok(p, up) && !up.cancel && Next(p, up).1 == Some(a) && !st.cancel && Next(p, st).1 == Some(a)
    ensures LimiterLets(p, st, a) && (LimiterLets(p, up, a) <==> !LimitReached(p, st, a))
  {
    hide WellFormed, OkPositions, OkSteps, Next, Turn, RepeatInterrupted;
    CutSpends(p, st, o, a);
    CutLeaves(p, st, o, a);
    var cut := Turn(p, st, o).st;
    RepeatRewinds(p, cut, names, a);
    RequestFacts(p, a);
    NextHere(p, up);
  }

  lemma LostLoopHandles(
    p: Program, st: State, o: Oracle, names: set<string>, a: Ptr, up: State, r: Reply)
    requires WellFormed(p) && Ok(p, st) && CutAt(p, st, o, a) && TakenUp(p, st, o, names, up)
    requires StepWasLost(p, st, o, a)
    ensures Ok(p, up)
    ensures var d := Deref(p, a).kind.do;
            var again := Handle(p, Handing(p, up, a), a, r);
            && d < |p.nodes| && d in p.loops
            && if At(st.counter, d) + 1 < p.loops[d].maxSteps then again.cur == d && Pos(again, d) == 0
               else again.cur == a.node && Pos(again, a.node) == a.at + 1
  {
    hide WellFormed, OkPositions, OkSteps, Next, Turn, RepeatInterrupted;
    UpAgain(p, st, o, names, a, up);
    NextMoves(p, st);
    NextAdvances(p, st);
    RequestFacts(p, a);
  }

  /** A lost step shows in the next round: a loop with steps left goes round even if the condition is false,
      and a loop without stays out even if it is true; or the limiter does not let the loop be dispatched. */
  lemma LostStepShows(p: Program, st: State, o: Oracle, names: set<string>, a: Ptr, up: State) returns (r: Reply)
    requires WellFormed(p) && Ok(p, st) && CutAt(p, st, o, a) && TakenUp(p, st, o, names, up)
    requires StepWasLost(p, st, o, a)
    ensures Ok(p, up) && r.finish.Finished? && !RepeatsFor(p, st, up, a, r)
    ensures var d := Deref(p, a).kind.do;
            && d < |p.nodes| && d in p.loops
            && r.verdict == if At(st.counter, d) + 1 < p.loops[d].maxSteps then No else Yes
  {
    hide WellFormed, Ok, Next, CutAt, TakenUp, LimiterLets, LimitReached, HandledFor, StepWasLost, Turn;
    UpReady(p, st, o, names, a, up);
    r := LostStepHandles(p, st, o, names, a, up);
    if LimitReached(p, st, a) {
      LimitStops(p, up, a, Always(r));
    } else {
      RepeatsIfHandled(p, st, up, a, r);
    }
  }

  lemma LostStepHandles(p: Program, st: State, o: Oracle, names: set<string>, a: Ptr, up: State) returns (r: Reply)
    requires WellFormed(p) && Ok(p, st) && CutAt(p, st, o, a) && TakenUp(p, st, o, names, up)
    requires StepWasLost(p, st, o, a)
    ensures Ok(p, up) && r.finish.Finished? && !HandledFor(p, st, up, a, r)
    ensures var d := Deref(p, a).kind.do;
            && d < |p.nodes| && d in p.loops
            && r.verdict == if At(st.counter, d) + 1 < p.loops[d].maxSteps then No else Yes
  {
    hide WellFormed, OkPositions, OkSteps, Next, Turn, RepeatInterrupted;
    UpAgain(p, st, o, names, a, up);
    NextMoves(p, st);
    CutLeaves(p, st, o, a);
    RepeatRewinds(p, Turn(p, st, o).st, names, a);
    RequestFacts(p, a);
    var d := Deref(p, a).kind.do;
    var v := if At(st.counter, d) + 1 < p.loops[d].maxSteps then No else Yes;
    r := Reply(v, "", None, false, Finished);
    var to, to2 := Handle(p, Handing(p, st, a), a, r), Handle(p, Handing(p, up, a), a, r);
    assert to2.cur != to.cur || Pos(to2, d) != Pos(to, d);
    OutStays(p, to);
    OutStays(p, to2);
  }

  lemma OutStays(p: Program, st: State)
    requires WellFormed(p) && Ok(p, st) && Children(p, st.cur) != []
    ensures Out(p, st) == st
  {}

  lemma WithoutJump(p: Program, st: State, o: Oracle, names: set<string>, a: Ptr, up: State, r: Reply)
    requires WellFormed(p) && Ok(p, st) && CutAt(p, st, o, a) && TakenUp(p, st, o, names, up)
    requires !JumpWasMade(p, st, o, a) && !StepWasLost(p, st, o, a)
    ensures Ok(p, up) && HandledFor(p, st, up, a, r)
  {
    hide WellFormed, OkPositions, OkSteps, Next, Turn, RepeatInterrupted, Handle, SamePlace, Out;
    UpAgain(p, st, o, names, a, up);
    NextMoves(p, st);
    NextAdvances(p, st);
    RequestFacts(p, a);
    var h, hu := Handing(p, st, a), Handing(p, up, a);
    forall d: nat | d < |p.nodes| && d in p.loops ensures AlikeAt(p, h, hu, d) {}
    HandledAlike(p, h, hu, a, r);
  }

  // ----- with a jump -----

  /** The jump that was made and repeated shows: it has moved a node above, or it was the last one and there
      is another place to jump to. */
  ghost predicate JumpShows(p: Program, st: State, o: Oracle, a: Ptr)
    requires WellFormed(p) && Ok(p, st) && CutAt(p, st, o, a)
  {
    || JumpMovedNodes(p, st, o, a)
    || (JumpWasMade(p, st, o, a) && st.gotos == MAX_GOTO
        && exists t :: t in p.tags && p.tags[t] != Ptr(a.node, a.at + 1))
  }

  lemma JumpShowsFor(p: Program, st: State, o: Oracle, names: set<string>, a: Ptr, up: State) returns (r: Reply)
    requires WellFormed(p) && Ok(p, st) && CutAt(p, st, o, a) && TakenUp(p, st, o, names, up)
    requires JumpShows(p, st, o, a)
    ensures Ok(p, up) && r.finish.Finished? && !HandledFor(p, st, up, a, r)
  {
    hide WellFormed, OkPositions, OkSteps, Next, Turn, RepeatInterrupted, Goto, CutAt, Settled;
    CutFacts(p, st, o, a);
    NextMoves(p, st);
    var t := UpAfterJump(p, st, o, names, a, up);
    var h, hu := Handing(p, st, a), Handing(p, up, a);
    JumpStays(p, h, t);
    JumpLands(p, h, t);
    SettledAlike(p, st, a);
    if !Settled(p, h, a.node) {
      r := Reply(No, "", None, false, Finished);
    } else {
      var t' :| t' in p.tags && p.tags[t'] != Ptr(a.node, a.at + 1);
      r := Reply(No, "", Some(t'), false, Finished);
      JumpLands(p, h, t');
      TagFacts(p, t');
    }
    OutStays(p, Handle(p, h, a, r));
    OutStays(p, Handle(p, hu, a, r));
  }

  lemma HiddenJump(p: Program, st: State, o: Oracle, names: set<string>, a: Ptr, up: State, r: Reply)
    requires WellFormed(p) && Ok(p, st) && CutAt(p, st, o, a) && TakenUp(p, st, o, names, up)
    requires JumpWasMade(p, st, o, a) && !JumpShows(p, st, o, a)
    ensures Ok(p, up) && HandledFor(p, st, up, a, r)
  {
    hide WellFormed, OkPositions, OkSteps, Next, Turn, RepeatInterrupted, Goto, CutAt, Settled, Handle, Out, SamePlace;
    CutFacts(p, st, o, a);
    NextMoves(p, st);
    var t := UpAfterJump(p, st, o, names, a, up);
    var h, hu := Handing(p, st, a), Handing(p, up, a);
    JumpStays(p, h, t);
    SettledAlike(p, st, a);
    SameJoins(p, Goto(p, h, t).0, h, hu);
    SettledRepeats(p, h, hu, a, r);
    SameOut(p, Handle(p, h, a, r), Handle(p, hu, a, r));
  }

  lemma SameOut(p: Program, st: State, st2: State)
    requires WellFormed(p) && Ok(p, st) && Ok(p, st2) && SamePlace(p, st, st2)
    ensures SamePlace(p, Out(p, st), Out(p, st2))
  {
    hide WellFormed, OkPositions, OkSteps, SamePlace;
    CursorsMeet(p, st, st2);
    if st.cur > 0 && Children(p, st.cur) == [] {
      SamePut(p, st, st2, st.cur, 0, Out(p, st), Out(p, st2));
    }
  }

  /** From a settled place, with and without a jump to it. */
  lemma SettledRepeats(p: Program, h: State, hu: State, a: Ptr, r: Reply)
    requires WellFormed(p) && Ok(p, h) && Ok(p, hu) && Addresses(p, a) && Deref(p, a).kind.App?
    requires h.cur == a.node && Pos(h, a.node) == a.at + 1 && Settled(p, h, a.node) && SamePlace(p, h, hu)
    requires h.gotos <= MAX_GOTO && hu.gotos == h.gotos + 1
    requires h.gotos < MAX_GOTO || forall t' | t' in p.tags :: p.tags[t'] == Ptr(a.node, a.at + 1)
    ensures SamePlace(p, Handle(p, h, a, r), Handle(p, hu, a, r))
  {
    hide WellFormed, OkPositions, OkSteps, Goto, Settled, SamePlace;
    var h0, hu0 := h.(cancel := h.cancel || r.cancel), hu.(cancel := hu.cancel || r.cancel);
    CursorsMeet(p, h, hu);
    SameKept(p, h, hu, h0, hu0);
    if r.jump.Some? && r.jump.value in p.tags {
      if h.gotos < MAX_GOTO {
        JumpsAlike(p, h0, hu0, r.jump.value);
      } else {
        JumpStays(p, h0, r.jump.value);
        SettledMarked(p, h, h0, a.node);
        SameJoins(p, h0, Goto(p, h0, r.jump.value).0, hu0);
      }
    }
  }

  // ----- main result -----

  /** Taken up, the flow dispatches the interrupted request and does with it what it would have done, whatever
      the handler comes back with, if and only if the cut-off attempt has not used up the request's limiter,
      spent no step of a loop with requests in its body and made no jump that shows. */
  lemma RepeatsAlikeExactlyIf(p: Program, st: State, o: Oracle, names: set<string>, a: Ptr, up: State)
    requires WellFormed(p) && Ok(p, st) && CutAt(p, st, o, a) && TakenUp(p, st, o, names, up)
    ensures Ok(p, up)
    ensures RepeatsAlike(p, st, up, a)
       <==> !LimitReached(p, st, a) && !StepWasLost(p, st, o, a) && !JumpShows(p, st, o, a)
  {
    hide WellFormed, Ok, Next, CutAt, TakenUp, LimiterLets, LimitReached, HandledFor, JumpWasMade, StepWasLost;
    hide JumpShows, Turn;
    UpReady(p, st, o, names, a, up);
    var r0 := Reply(No, "", None, false, Finished);
    if LimitReached(p, st, a) {
      LimitStops(p, up, a, Always(r0));
      assert !RepeatsFor(p, st, up, a, r0);
    } else if StepWasLost(p, st, o, a) {
      var r := LostStepShows(p, st, o, names, a, up);
    } else if JumpShows(p, st, o, a) {
      var r := JumpShowsFor(p, st, o, names, a, up);
      RepeatsIfHandled(p, st, up, a, r);
    } else {
      forall r: Reply | r.finish.Finished? ensures RepeatsFor(p, st, up, a, r) {
        if JumpWasMade(p, st, o, a) {
          HiddenJump(p, st, o, names, a, up, r);
        } else {
          WithoutJump(p, st, o, names, a, up, r);
        }
        RepeatsIfHandled(p, st, up, a, r);
      }
    }
  }
}
