/** States from which a run dispatches the same requests: they differ only in the counts of loops that never
    do anything again, and in whether the cursor has left an empty block. */
module Likeness {
  import opened Common
  import opened World
  import opened Tree
  import opened Parsing
  import opened Machine
  import opened Termination
  import opened Jumps

  // ----- empty blocks -----

  /** The state once the cursor has left the empty block it may be in. */
  ghost function Out(p: Program, st: State): (st': State)
    requires WellFormed(p) && Ok(p, st)
    ensures Ok(p, st')
    ensures st' == st.(cur := st'.cur, pos := st'.pos)
  {
    hide WellFormed;
    ParentFacts(p, st.cur);
    if st.cur > 0 && Children(p, st.cur) == []
    then st.(cur := p.nodes[st.cur].parent.value, pos := Put(st.pos, st.cur, 0))
    else st
  }

  lemma NextForgets(p: Program, st: State, st2: State)
    requires WellFormed(p) && Ok(p, st) && Ok(p, st2) && st2 == st.(prev := st2.prev)
    ensures Next(p, st2) == Next(p, st)
  {
    hide WellFormed, OkSteps, Put;
    ParentFacts(p, st.cur);
    assert SetPrevious(p, st) == SetPrevious(p, st2);
  }

  /** Leaving an empty block early makes no difference to NextRequest. */
  lemma NextOut(p: Program, st: State)
    requires WellFormed(p) && Ok(p, st)
    ensures Next(p, Out(p, st)) == Next(p, st)
  {
    hide WellFormed, Next, OkSteps;
    if Out(p, st) != st {
      NextLeaves(p, st);
      NextForgets(p, Leave(p, SetPrevious(p, st), p.nodes[st.cur].parent.value), Out(p, st));
    }
  }

  // ----- likeness -----

  /** The body of loop `d` is empty or missing, or its steps are used up. */
  ghost predicate Dormant(p: Program, counter: Table, d: nat)
    requires d < |p.nodes| && d in p.loops
  {
    |Children(p, d)| <= 1 || At(counter, d) >= p.loops[d].maxSteps
  }

  ghost predicate AlikeAt(p: Program, st: State, st2: State, d: nat)
    requires d < |p.nodes| && d in p.loops
  {
    || (At(st2.counter, d) == At(st.counter, d) && At(st2.step, d) == At(st.step, d))
    || (Dormant(p, st.counter, d) && Dormant(p, st2.counter, d))
  }

  ghost predicate LoopsAlike(p: Program, st: State, st2: State) {
    forall d: nat {:trigger AlikeAt(p, st, st2, d)} | d < |p.nodes| && d in p.loops :: AlikeAt(p, st, st2, d)
  }

  /** The states are at the same place and differ only in the counts of loops that are dormant in both. */
  ghost predicate Close(p: Program, st: State, st2: State) {
    && st2 == st.(pos := st2.pos, step := st2.step, counter := st2.counter, entries := st2.entries)
    && SamePlace(p, st, st2) && LoopsAlike(p, st, st2)
  }

  /** They are, once the cursor has left an empty block. */
  ghost predicate Alike(p: Program, st: State, st2: State)
    requires WellFormed(p) && Ok(p, st) && Ok(p, st2)
  {
    Close(p, Out(p, st), Out(p, st2))
  }

  lemma LoopsStay(p: Program, st: State, st2: State, to: State, to2: State)
    requires LoopsAlike(p, st, st2)
    requires to.step == st.step && to.counter == st.counter && to2.step == st2.step && to2.counter == st2.counter
    ensures LoopsAlike(p, to, to2)
  {
    forall d: nat | d < |p.nodes| && d in p.loops ensures AlikeAt(p, to, to2, d) {
      assert AlikeAt(p, st, st2, d);
    }
  }

  lemma SamePut(p: Program, st: State, st2: State, k: nat, v: nat, to: State, to2: State)
    requires SamePlace(p, st, st2) && to2.cur == to.cur
    requires to.pos == Put(st.pos, k, v) && to2.pos == Put(st2.pos, k, v)
    ensures SamePlace(p, to, to2)
  {
    forall j: nat | j < |p.nodes| ensures Pos(to2, j) == Pos(to, j) {
      assert Pos(st2, j) == Pos(st, j);
    }
  }

  lemma SameKept(p: Program, st: State, st2: State, to: State, to2: State)
    requires SamePlace(p, st, st2) && to2.cur == to.cur && to.pos == st.pos && to2.pos == st2.pos
    ensures SamePlace(p, to, to2)
  {
    forall j: nat | j < |p.nodes| ensures Pos(to2, j) == Pos(to, j) {
      assert Pos(st2, j) == Pos(st, j);
    }
  }

  lemma CloseIsAlike(p: Program, st: State, st2: State)
    requires WellFormed(p) && Ok(p, st) && Ok(p, st2) && Close(p, st, st2)
    ensures Alike(p, st, st2)
  {
    hide WellFormed, OkPositions, OkSteps, SamePlace, LoopsAlike;
    CursorsMeet(p, st, st2);
    LoopsStay(p, st, st2, Out(p, st), Out(p, st2));
    if st.cur > 0 && Children(p, st.cur) == [] {
      SamePut(p, st, st2, st.cur, 0, Out(p, st), Out(p, st2));
    }
  }

  lemma CursorsMeet(p: Program, st: State, st2: State)
    requires SamePlace(p, st, st2)
    ensures st2.cur == st.cur && (st.cur < |p.nodes| ==> Pos(st2, st.cur) == Pos(st, st.cur))
  {}

  lemma {:induction false} NextClose(p: Program, st: State, st2: State)
    requires WellFormed(p) && Ok(p, st) && Ok(p, st2) && Close(p, st, st2)
    ensures Next(p, st2).1 == Next(p, st).1 && Close(p, Next(p, st).0, Next(p, st2).0)
    decreases st.cur
  {
    hide WellFormed, OkPositions, OkSteps, Next, SamePlace, LoopsAlike, Put;
    CursorsMeet(p, st, st2);
    var n := st.cur;
    if Pos(st, n) < |Children(p, n)| {
      NextHere(p, st);
      NextHere(p, st2);
      SamePut(p, st, st2, n, Pos(st, n) + 1, Next(p, st).0, Next(p, st2).0);
      LoopsStay(p, st, st2, Next(p, st).0, Next(p, st2).0);
    } else if n == 0 {
      NextEnds(p, st);
      NextEnds(p, st2);
      SamePut(p, st, st2, 0, 0, Next(p, st).0, Next(p, st2).0);
      LoopsStay(p, st, st2, Next(p, st).0, Next(p, st2).0);
    } else {
      NextLeaves(p, st);
      NextLeaves(p, st2);
      var m := p.nodes[n].parent.value;
      var to, to2 := Leave(p, SetPrevious(p, st), m), Leave(p, SetPrevious(p, st2), m);
      SamePut(p, st, st2, n, 0, to, to2);
      LoopsStay(p, st, st2, to, to2);
      NextClose(p, to, to2);
    }
  }

  // ----- handlers -----

  lemma EnterClose(p: Program, st: State, st2: State, k: nat)
    requires Close(p, st, st2) && k < |p.nodes|
    ensures Close(p, Enter(p, st, k), Enter(p, st2, k))
  {
    hide SamePlace, LoopsAlike, Put;
    SamePut(p, st, st2, k, 0, Enter(p, st, k), Enter(p, st2, k));
    LoopsStay(p, st, st2, Enter(p, st, k), Enter(p, st2, k));
  }

  lemma GotoClose(p: Program, st: State, st2: State, t: string)
    requires WellFormed(p) && Ok(p, st) && Ok(p, st2) && Close(p, st, st2)
    ensures Goto(p, st2, t).1 == Goto(p, st, t).1 && Close(p, Goto(p, st, t).0, Goto(p, st2, t).0)
  {
    hide WellFormed, OkPositions, OkSteps, Goto, SamePlace, LoopsAlike;
    LoopsStay(p, st, st2, Goto(p, st, t).0, Goto(p, st2, t).0);
    if Goto(p, st, t).1 {
      JumpsAlike(p, st, st2, t);
      JumpLands(p, st, t);
      JumpLands(p, st2, t);
    }
  }

  /** A loop without children is entered and left at once, or not entered: the place is the same. */
  lemma EmptyLoopStays(p: Program, st: State, d: nat, v: Verdict)
    requires WellFormed(p) && Ok(p, st) && 0 < d < |p.nodes| && d in p.loops && Children(p, d) == []
    requires p.nodes[d].parent == Some(st.cur) && Children(p, st.cur) != []
    ensures var to := Out(p, WhileHandler(p, st, d, v));
            && to == st.(pos := to.pos, step := to.step, counter := to.counter, entries := to.entries)
            && SamePlace(p, st, to)
  {
    hide WellFormed, OkSteps;
  }

  lemma WhileLoopsAlike(p: Program, st: State, st2: State, d: nat, v: Verdict)
    requires d < |p.nodes| && d in p.loops && LoopsAlike(p, st, st2) && st2.prev == st.prev
    ensures LoopsAlike(p, WhileHandler(p, st, d, v), WhileHandler(p, st2, d, v))
  {
    var to, to2 := WhileHandler(p, st, d, v), WhileHandler(p, st2, d, v);
    assert AlikeAt(p, st, st2, d);
    WhileAlikeAt(p, st, st2, d, v);
    OtherLoops(p, st, d, v);
    OtherLoops(p, st2, d, v);
    hide WhileHandler;
    forall k: nat | k < |p.nodes| && k in p.loops ensures AlikeAt(p, to, to2, k) {
      assert AlikeAt(p, st, st2, k);
    }
  }

  lemma WhileAlikeAt(p: Program, st: State, st2: State, d: nat, v: Verdict)
    requires d < |p.nodes| && d in p.loops && AlikeAt(p, st, st2, d) && st2.prev == st.prev
    ensures AlikeAt(p, WhileHandler(p, st, d, v), WhileHandler(p, st2, d, v), d)
  {}

  lemma OtherLoops(p: Program, st: State, d: nat, v: Verdict)
    requires d < |p.nodes| && d in p.loops
    ensures forall k: nat | k != d :: At(WhileHandler(p, st, d, v).counter, k) == At(st.counter, k)
    ensures forall k: nat | k != d :: At(WhileHandler(p, st, d, v).step, k) == At(st.step, k)
  {}

  lemma WhileClose(p: Program, st: State, st2: State, d: nat, v: Verdict)
    requires d < |p.nodes| && d in p.loops && Children(p, d) != [] && Close(p, st, st2)
    ensures Close(p, WhileHandler(p, st, d, v), WhileHandler(p, st2, d, v))
  {
    WhileLoopsAlike(p, st, st2, d, v);
    assert AlikeAt(p, st, st2, d);
    hide LoopsAlike, Put, At, SamePlace;
    var to, to2 := WhileHandler(p, st, d, v), WhileHandler(p, st2, d, v);
    if to.cur == d && to.pos == Put(st.pos, d, 0) && to2.pos == Put(st2.pos, d, 0) {
      SamePut(p, st, st2, d, 0, to, to2);
    } else {
      SameKept(p, st, st2, to, to2);
    }
  }

  lemma EmptyLoopAlike(p: Program, st: State, st2: State, d: nat, v: Verdict)
    requires WellFormed(p) && Ok(p, st) && Ok(p, st2) && Close(p, st, st2)
    requires 0 < d < |p.nodes| && d in p.loops && Children(p, d) == []
    requires p.nodes[d].parent == Some(st.cur) && Children(p, st.cur) != []
    ensures Alike(p, WhileHandler(p, st, d, v), WhileHandler(p, st2, d, v))
  {
    hide WellFormed, OkPositions, OkSteps, WhileHandler, SamePlace, LoopsAlike, Out;
    CursorsMeet(p, st, st2);
    EmptyLoopStays(p, st, d, v);
    EmptyLoopStays(p, st2, d, v);
    WhileLoopsAlike(p, st, st2, d, v);
    var to, to2 := WhileHandler(p, st, d, v), WhileHandler(p, st2, d, v);
    LoopsStay(p, to, to2, Out(p, to), Out(p, to2));
    SameJoins(p, st, Out(p, to), st2);
    SameJoins(p, st2, Out(p, to), Out(p, to2));
  }

  lemma SameJoins(p: Program, a: State, b: State, c: State)
    requires SamePlace(p, a, b) || SamePlace(p, b, a)
    requires SamePlace(p, a, c)
    ensures SamePlace(p, b, c) && SamePlace(p, c, b)
  {
    forall k: nat | k < |p.nodes| ensures Pos(c, k) == Pos(b, k) {
      assert Pos(a, k) == Pos(b, k) && Pos(c, k) == Pos(a, k);
    }
  }

  /** A handler takes states that are close, with the cursor behind its request, to states that are alike. */
  lemma HandleAlike(p: Program, st: State, st2: State, a: Ptr, r: Reply)
    requires WellFormed(p) && Ok(p, st) && Ok(p, st2) && Addresses(p, a) && Close(p, st, st2) && st.cur == a.node
    ensures Alike(p, Handle(p, st, a, r), Handle(p, st2, a, r))
  {
    hide WellFormed, OkPositions, OkSteps, SamePlace, LoopsAlike, Out, FindCase, Goto, Enter, WhileHandler, Alike;
    RequestFacts(p, a);
    var c, c2 := st.(cancel := st.cancel || r.cancel), st2.(cancel := st2.cancel || r.cancel);
    CloseMarked(p, st, st2, c.cancel, st.interrupted);
    match Deref(p, a).kind
    case App =>
      if r.jump.Some? {
        GotoClose(p, c, c2, r.jump.value);
      }
      CloseIsAlike(p, Handle(p, st, a, r), Handle(p, st2, a, r));
    case BreakApp =>
      CloseMarked(p, st, st2, true, st.interrupted);
      CloseIsAlike(p, Handle(p, st, a, r), Handle(p, st2, a, r));
    case Cond(t, e) =>
      EnterClose(p, c, c2, t);
      EnterClose(p, c, c2, e);
      CloseIsAlike(p, Handle(p, st, a, r), Handle(p, st2, a, r));
    case Choice(refs) =>
      FindCaseNested(p, refs, a.node, a.at, r.text);
      FindCaseNested(p, refs, a.node, a.at, "default");
      if PickCase(refs, r.text).Some? {
        EnterClose(p, c, c2, PickCase(refs, r.text).value);
      }
      CloseIsAlike(p, Handle(p, st, a, r), Handle(p, st2, a, r));
    case Loop(d) =>
      if Children(p, d) == [] {
        EmptyLoopAlike(p, c, c2, d, r.verdict);
      } else {
        WhileClose(p, c, c2, d, r.verdict);
        CloseIsAlike(p, Handle(p, st, a, r), Handle(p, st2, a, r));
      }
  }

  lemma CloseMarked(p: Program, st: State, st2: State, cancel: bool, i: Option<Ptr>)
    requires Close(p, st, st2)
    ensures Close(p, st.(cancel := cancel, interrupted := i), st2.(cancel := cancel, interrupted := i))
  {
    hide SamePlace, LoopsAlike;
    var to, to2 := st.(cancel := cancel, interrupted := i), st2.(cancel := cancel, interrupted := i);
    CursorsMeet(p, st, st2);
    SameKept(p, st, st2, to, to2);
    LoopsStay(p, st, st2, to, to2);
  }

  lemma AlikeMarked(p: Program, st: State, st2: State, cancel: bool, i: Option<Ptr>)
    requires WellFormed(p) && Ok(p, st) && Ok(p, st2) && Alike(p, st, st2) && (i.Some? ==> Addresses(p, i.value))
    ensures Alike(p, st.(cancel := cancel, interrupted := i), st2.(cancel := cancel, interrupted := i))
    ensures st2.hist == st.hist && st2.cancel == st.cancel && st2.interrupted == st.interrupted
  {
    hide WellFormed, OkPositions, OkSteps, SamePlace, LoopsAlike;
    CloseMarked(p, Out(p, st), Out(p, st2), cancel, i);
  }

  // ----- runs -----

  ghost predicate AlikeRounds(p: Program, r: Round, r2: Round)
    requires WellFormed(p) && Ok(p, r.st) && Ok(p, r2.st)
  {
    (r.Halt? <==> r2.Halt?) && Alike(p, r.st, r2.st)
  }

  lemma CloseSent(p: Program, st: State, st2: State, sent: Table, hist: seq<Event>)
    requires Close(p, st, st2)
    ensures Close(p, st.(sent := sent, hist := hist), st2.(sent := sent, hist := hist))
  {
    hide SamePlace, LoopsAlike;
    var to, to2 := st.(sent := sent, hist := hist), st2.(sent := sent, hist := hist);
    CursorsMeet(p, st, st2);
    SameKept(p, st, st2, to, to2);
    LoopsStay(p, st, st2, to, to2);
  }

  lemma DispatchAlike(p: Program, st: State, st2: State, a: Ptr, o: Oracle)
    requires WellFormed(p) && Ok(p, st) && Ok(p, st2) && Addresses(p, a) && Close(p, st, st2) && st.cur == a.node
    ensures AlikeRounds(p, Dispatch(p, st, a, o), Dispatch(p, st2, a, o))
  {
    hide WellFormed, OkPositions, OkSteps, Handle, Alike, SamePlace, LoopsAlike;
    var h := st.hist + [Record(Deref(p, a))];
    var x, x2 := st.(hist := h), st2.(hist := h);
    CloseSent(p, st, st2, st.sent, h);
    HandleAlike(p, x, x2, a, o(h));
    CloseIsAlike(p, x, x2);
    var to, to2 := Handle(p, x, a, o(h)), Handle(p, x2, a, o(h));
    AlikeMarked(p, x, x2, true, Some(a));
    AlikeMarked(p, to, to2, true, Some(a));
    AlikeMarked(p, to, to2, true, to.interrupted);
  }

  /** If NextRequest leads to states that are close, so does the whole round. */
  lemma TurnAlike(p: Program, st: State, st2: State, o: Oracle)
    requires WellFormed(p) && Ok(p, st) && Ok(p, st2)
    requires Next(p, st2).1 == Next(p, st).1 && Close(p, Next(p, st).0, Next(p, st2).0)
    ensures AlikeRounds(p, Turn(p, st, o), Turn(p, st2, o))
  {
    hide WellFormed, OkPositions, OkSteps, Next, Dispatch, Goto, Alike, SamePlace, LoopsAlike;
    NextAdvances(p, st);
    var (x, next) := Next(p, st);
    var x2 := Next(p, st2).0;
    if next.None? || x.cancel {
      CloseIsAlike(p, x, x2);
    } else {
      var a := next.value;
      RequestFacts(p, a);
      var l := Deref(p, a).limiter;
      if l.None? {
        DispatchAlike(p, x, x2, a, o);
      } else if At(x.sent, l.value) < p.limits[l.value].max {
        var sent := Put(x.sent, l.value, At(x.sent, l.value) + 1);
        CloseSent(p, x, x2, sent, x.hist);
        DispatchAlike(p, x.(sent := sent), x2.(sent := sent), a, o);
      } else {
        GotoClose(p, x, x2, p.limits[l.value].failover);
        CloseIsAlike(p, Goto(p, x, p.limits[l.value].failover).0, Goto(p, x2, p.limits[l.value].failover).0);
      }
    }
  }

  lemma NextAlike(p: Program, st: State, st2: State)
    requires WellFormed(p) && Ok(p, st) && Ok(p, st2) && Alike(p, st, st2)
    ensures Next(p, st2).1 == Next(p, st).1 && Close(p, Next(p, st).0, Next(p, st2).0)
  {
    hide WellFormed, Ok, Next, Close, Out;
    NextOut(p, st);
    NextOut(p, st2);
    NextClose(p, Out(p, st), Out(p, st2));
  }

  /** From states in which NextRequest finds the same, a run dispatches the same requests. */
  lemma {:induction false} RoundsAlike(p: Program, st: State, st2: State, o: Oracle)
    requires WellFormed(p) && Ok(p, st) && Ok(p, st2)
    requires Next(p, st2).1 == Next(p, st).1 && Close(p, Next(p, st).0, Next(p, st2).0)
    ensures Rounds(p, st2, o).hist == Rounds(p, st, o).hist
    decreases JumpsLeft(st), LoopsLeft(p, st), WorkLeft(p, st)
  {
    hide WellFormed, Ok, Next, Turn, Work, StepsLeft, Close, Alike;
    TurnAlike(p, st, st2, o);
    var r, r2 := Turn(p, st, o), Turn(p, st2, o);
    AlikeMarked(p, r.st, r2.st, true, None);
    if r.Continue? {
      TurnLowers(p, st, o);
      NextAlike(p, r.st, r2.st);
      RoundsAlike(p, r.st, r2.st, o);
    }
  }
}
