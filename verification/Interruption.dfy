/** A run that was cut off can be taken up again (RepeatInterrupted). */
module Interruption {
  import opened Common
  import opened World
  import opened Tree
  import opened Parsing
  import opened Machine
  import opened Termination
  import opened Jumps
  import opened Likeness

  /** A `true` answer means that the next request is the interrupted one; the mark is gone either way. */
  lemma RepeatMeansInterrupted(p: Program, st: State, names: set<string>)
    requires WellFormed(p) && Ok(p, st)
    ensures var (st', again) := RepeatInterrupted(p, st, names);
            && st'.interrupted == None
            && (again ==> st.interrupted.Some? && Next(p, st').1 == st.interrupted
                          && Deref(p, st.interrupted.value).h.name in names)
            && (!again ==> st' == st.(interrupted := None))
  {
    hide WellFormed, OkPositions, OkSteps, Next;
    var (st', again) := RepeatInterrupted(p, st, names);
    if again {
      NextHere(p, st');
    }
  }

  // ----- a run does not depend on what was dispatched before it -----

  /** In the world of `o2` after `g2`, things go as in the world of `o` after `g`. */
  ghost predicate SameWorld(o: Oracle, g: seq<Event>, o2: Oracle, g2: seq<Event>) {
    forall t: seq<Event> :: o2(g2 + t) == o(g + t)
  }

  ghost function Rebased(st: State, hist: seq<Event>): State {
    st.(hist := hist)
  }

  /** NextRequest looks neither at the history nor at any count. */
  lemma {:induction false} NextApart(p: Program, st: State, st2: State)
    requires WellFormed(p) && Ok(p, st) && Ok(p, st2)
    requires st2 == st.(hist := st2.hist, sent := st2.sent, gotos := st2.gotos,
                        step := st2.step, counter := st2.counter)
    ensures Next(p, st2).0 == Next(p, st).0.(hist := st2.hist, sent := st2.sent, gotos := st2.gotos,
                                             step := st2.step, counter := st2.counter)
    ensures Next(p, st2).1 == Next(p, st).1
    decreases st.cur
  {
    hide WellFormed, OkPositions, OkSteps, Next, Put, At;
    if Pos(st, st.cur) < |Children(p, st.cur)| {
      NextHere(p, st);
      NextHere(p, st2);
    } else if st.cur == 0 {
      NextEnds(p, st);
      NextEnds(p, st2);
    } else {
      NextLeaves(p, st);
      NextLeaves(p, st2);
      var m := p.nodes[st.cur].parent.value;
      NextApart(p, Leave(p, SetPrevious(p, st), m), Leave(p, SetPrevious(p, st2), m));
    }
  }

  /** Handlers look neither at the history nor at the limiters. */
  lemma HandleApart(p: Program, st: State, hist: seq<Event>, sent: Table, a: Ptr, r: Reply)
    requires WellFormed(p) && Ok(p, st) && Addresses(p, a)
    ensures Handle(p, st.(hist := hist, sent := sent), a, r) == Handle(p, st, a, r).(hist := hist, sent := sent)
  {
    hide WellFormed, Ok, FindCase, Put, At, Repair;
    RequestFacts(p, a);
  }

  ghost function RebasedRound(r: Round, hist: seq<Event>): Round {
    match r
    case Halt(st) => Halt(Rebased(st, hist))
    case Continue(st) => Continue(Rebased(st, hist))
  }

  lemma DispatchRebased(
    p: Program, st: State, a: Ptr, o: Oracle, g: seq<Event>, o2: Oracle, g2: seq<Event>, t: seq<Event>)
    returns (t': seq<Event>)
    requires WellFormed(p) && Ok(p, st) && Addresses(p, a) && SameWorld(o, g, o2, g2) && st.hist == g + t
    ensures Dispatch(p, st, a, o).st.hist == g + t'
    ensures Dispatch(p, Rebased(st, g2 + t), a, o2) == RebasedRound(Dispatch(p, st, a, o), g2 + t')
  {
    hide WellFormed, OkPositions, OkSteps, Handle;
    var req := Deref(p, a);
    t' := t + [Record(req)];
    assert (g + t) + [Record(req)] == g + t';
    assert (g2 + t) + [Record(req)] == g2 + t';
    HandleApart(p, st.(hist := g + t'), g2 + t', st.sent, a, o(g + t'));
  }

  lemma TurnRebased(p: Program, st: State, o: Oracle, g: seq<Event>, o2: Oracle, g2: seq<Event>, t: seq<Event>)
    returns (t': seq<Event>)
    requires WellFormed(p) && Ok(p, st) && SameWorld(o, g, o2, g2) && st.hist == g + t
    ensures Turn(p, st, o).st.hist == g + t'
    ensures Turn(p, Rebased(st, g2 + t), o2) == RebasedRound(Turn(p, st, o), g2 + t')
  {
    hide WellFormed, OkPositions, OkSteps, Next, Dispatch, SameWorld, Repair, Put, At;
    NextMoves(p, st);
    NextApart(p, st, Rebased(st, g2 + t));
    var (st1, next) := Next(p, st);
    t' := t;
    if next.Some? && !st1.cancel {
      var a := next.value;
      RequestFacts(p, a);
      var l := Deref(p, a).limiter;
      if l.None? {
        t' := DispatchRebased(p, st1, a, o, g, o2, g2, t);
      } else if At(st1.sent, l.value) < p.limits[l.value].max {
        t' := DispatchRebased(p, st1.(sent := Put(st1.sent, l.value, At(st1.sent, l.value) + 1)), a, o, g, o2, g2, t);
      }
    }
  }

  /** From states that differ only in what was dispatched before, in the same world, a run dispatches the
      same requests and ends in the same state. */
  lemma {:induction false} RoundsRebased(
    p: Program, st: State, o: Oracle, g: seq<Event>, o2: Oracle, g2: seq<Event>, t: seq<Event>)
    returns (t': seq<Event>)
    requires WellFormed(p) && Ok(p, st) && SameWorld(o, g, o2, g2) && st.hist == g + t
    ensures Rounds(p, st, o).hist == g + t'
    ensures Rounds(p, Rebased(st, g2 + t), o2) == Rebased(Rounds(p, st, o), g2 + t')
    decreases JumpsLeft(st), LoopsLeft(p, st), WorkLeft(p, st)
  {
    hide WellFormed, Ok, Turn, SameWorld, Work, StepsLeft;
    t' := TurnRebased(p, st, o, g, o2, g2, t);
    if Turn(p, st, o).Continue? {
      TurnLowers(p, st, o);
      t' := RoundsRebased(p, Turn(p, st, o).st, o, g, o2, g2, t');
    }
  }

  // ----- transparency -----

  /** The state in which the handler of request `a` starts. */
  ghost function Handing(p: Program, st: State, a: Ptr): (st': State)
    requires WellFormed(p) && Ok(p, st) && Addresses(p, a)
    ensures Ok(p, st')
  {
    hide WellFormed, Next, OkPositions, OkSteps;
    var st1 := Next(p, st).0;
    st1.(sent := Charged(st1.sent, Deref(p, a).limiter), hist := st1.hist + [Record(Deref(p, a))])
  }

  /** The dispatches counted so far, after one more by limiter `l`. */
  function Charged(sent: Table, l: Option<nat>): Table {
    if l.Some? then Put(sent, l.value, At(sent, l.value) + 1) else sent
  }

  /** The round from `st` gets past the limiter of request `a` and is cut off there. */
  ghost predicate CutAt(p: Program, st: State, o: Oracle, a: Ptr)
    requires WellFormed(p) && Ok(p, st)
  {
    && st.interrupted == None && !st.cancel
    && Next(p, st).1 == Some(a)
    && (var l := Deref(p, a).limiter; RequestFacts(p, a); l.Some? ==> At(st.sent, l.value) < p.limits[l.value].max)
    && o(Handing(p, st, a).hist).finish.Cut?
  }

  /** The cut-off request is a loop that had steps left, and its handler has run. */
  ghost predicate StepWasSpent(p: Program, st: State, o: Oracle, a: Ptr)
    requires WellFormed(p) && Ok(p, st) && CutAt(p, st, o, a)
  {
    && o(Handing(p, st, a).hist).finish.ran
    && Deref(p, a).kind.Loop?
    && (RequestFacts(p, a);
        At(st.counter, Deref(p, a).kind.do) < p.loops[Deref(p, a).kind.do].maxSteps)
  }

  /** The cut-off request has jumped. */
  ghost predicate JumpWasMade(p: Program, st: State, o: Oracle, a: Ptr)
    requires WellFormed(p) && Ok(p, st) && CutAt(p, st, o, a)
  {
    var r := o(Handing(p, st, a).hist);
    r.finish.ran && Deref(p, a).kind.App? && r.jump.Some? && st.gotos <= MAX_GOTO && r.jump.value in p.tags
  }

  /** The cut-off attempt has used up something that lasts for the life of the flow: a dispatch of its
      limiter, a step of its loop, or a jump. */
  ghost predicate Spent(p: Program, st: State, o: Oracle, a: Ptr)
    requires WellFormed(p) && Ok(p, st) && CutAt(p, st, o, a)
  {
    Deref(p, a).limiter.Some? || StepWasSpent(p, st, o, a) || JumpWasMade(p, st, o, a)
  }

  /** The flow after the cut and after a RepeatInterrupted that succeeded, with the cancel flag cleared. */
  ghost predicate TakenUp(p: Program, st: State, o: Oracle, names: set<string>, up: State)
    requires WellFormed(p) && Ok(p, st)
  {
    var r := RepeatInterrupted(p, Turn(p, st, o).st, names);
    r.1 && up == r.0.(cancel := false)
  }

  /** Where the cut leaves the flow. */
  lemma CutLeaves(p: Program, st: State, o: Oracle, a: Ptr)
    requires WellFormed(p) && Ok(p, st) && CutAt(p, st, o, a)
    ensures var h := Handing(p, st, a);
            var r := o(h.hist);
            Turn(p, st, o).st
            == (if r.finish.ran then Handle(p, h, a, r) else h).(interrupted := Some(a), cancel := true)
  {
    hide WellFormed, OkPositions, OkSteps, Next, Handle;
    NextMoves(p, st);
    var st1 := Next(p, st).0;
    assert Turn(p, st, o) == Dispatch(p, st1.(sent := Charged(st1.sent, Deref(p, a).limiter)), a, o);
  }

  /** A handler that did not jump and is found with the cursor just behind its request has changed
      nothing, except that a loop may have ended its cycle. */
  lemma HandlerAtRest(p: Program, st: State, a: Ptr, r: Reply)
    requires WellFormed(p) && Ok(p, st) && Addresses(p, a)
    requires Deref(p, a).kind.App? && r.jump.Some? ==> st.gotos > MAX_GOTO || r.jump.value !in p.tags
    requires st.cur == a.node && Pos(st, a.node) == a.at + 1
    requires Handle(p, st, a, r).cur == a.node && Pos(Handle(p, st, a, r), a.node) == a.at + 1
    ensures var st' := Handle(p, st, a, r);
            match Deref(p, a).kind
            case Loop(d) =>
              && d in p.loops
              && (At(st.counter, d) >= p.loops[d].maxSteps ==>
                    st' == st.(cancel := st'.cancel, step := st'.step)
                    && (st'.step == st.step || (st'.step == Put(st.step, d, 0) && At(st.counter, d) != 0
                                                && st.prev == p.loops[d].originalParent)))
              && (At(st.counter, d) < p.loops[d].maxSteps ==>
                    st' == st.(cancel := st'.cancel, step := Put(st.step, d, 0),
                               counter := Put(st.counter, d, At(st.counter, d) + 1)))
            case _ => st' == st.(cancel := st'.cancel)
  {
    hide WellFormed, Ok, FindCase;
    RequestFacts(p, a);
    match Deref(p, a).kind
    case Choice(refs) =>
      FindCaseNested(p, refs, a.node, a.at, r.text);
      FindCaseNested(p, refs, a.node, a.at, "default");
    case _ =>
  }

  lemma PutBack(t: Table, k: nat, v: nat, w: nat)
    requires At(t, k) == w > 0
    ensures Put(Put(t, k, v), k, w) == t
  {
    assert t.entries[k := v][k := w] == t.entries;
  }

  /** What RepeatInterrupted leaves behind when it succeeds. */
  lemma RepeatRewinds(p: Program, cut: State, names: set<string>, a: Ptr)
    requires WellFormed(p) && Ok(p, cut) && cut.interrupted == Some(a) && RepeatInterrupted(p, cut, names).1
    ensures cut.cur == a.node && Pos(cut, a.node) == a.at + 1
    ensures RepeatInterrupted(p, cut, names).0 == cut.(interrupted := None, pos := Put(cut.pos, a.node, a.at))
  {
    hide WellFormed, OkPositions, OkSteps;
  }

  /** NextRequest on a flow rewound by one request of its node steps over that request again. */
  lemma NextAgain(p: Program, st: State, st1: State, a: Ptr)
    requires WellFormed(p) && Ok(p, st) && Addresses(p, a)
    requires st.cur == a.node && At(st1.pos, a.node) == a.at + 1 && st.pos == Put(st1.pos, a.node, a.at)
    requires st1 == st.(pos := st1.pos, prev := st1.prev) && st1.prev == Before(a.node, a.at)
    ensures Next(p, st) == (st1, Some(a))
  {
    hide WellFormed, OkPositions, OkSteps, Next;
    NextHere(p, st);
    PutBack(st1.pos, a.node, a.at, a.at + 1);
  }

  /** The flow taken up is about to dispatch the interrupted request, with everything as it was when that
      request was first dispatched, except for its limiter and that a loop may have ended its cycle. */
  lemma UpAgain(p: Program, st: State, o: Oracle, names: set<string>, a: Ptr, up: State)
    requires WellFormed(p) && Ok(p, st) && CutAt(p, st, o, a) && TakenUp(p, st, o, names, up)
    requires !JumpWasMade(p, st, o, a)
    ensures Ok(p, up) && up.interrupted == None && up.hist == Turn(p, st, o).st.hist
    ensures var cut := Turn(p, st, o).st;
            && cut.sent == Charged(st.sent, Deref(p, a).limiter)
            && Next(p, up).0
               == Next(p, st).0.(hist := cut.hist, sent := cut.sent, step := cut.step, counter := cut.counter)
            && Next(p, up).1 == Some(a)
    ensures var d := Deref(p, a).kind;
            var cut := Turn(p, st, o).st;
            if StepWasSpent(p, st, o, a) then
              cut.counter == Put(st.counter, d.do, At(st.counter, d.do) + 1) && cut.step == Put(st.step, d.do, 0)
            else
              && cut.counter == st.counter
              && (cut.step == st.step
                  || (d.Loop? && d.do in p.loops && cut.step == Put(st.step, d.do, 0)
                      && At(st.counter, d.do) >= p.loops[d.do].maxSteps && At(st.counter, d.do) != 0
                      && Next(p, st).0.prev == p.loops[d.do].originalParent))
  {
    hide WellFormed, OkPositions, OkSteps, Next, Handle, At, Put, Turn, RepeatInterrupted;
    NextMoves(p, st);
    NextAdvances(p, st);
    CutLeaves(p, st, o, a);
    var cut := Turn(p, st, o).st;
    RepeatRewinds(p, cut, names, a);
    var h := Handing(p, st, a);
    if o(h.hist).finish.ran {
      HandlerAtRest(p, h, a, o(h.hist));
    }
    NextAgain(p, up, Next(p, st).0.(hist := cut.hist, sent := cut.sent, step := cut.step, counter := cut.counter), a);
  }

  /** What RepeatInterrupted cannot take back. */
  lemma CutSpends(p: Program, st: State, o: Oracle, a: Ptr)
    requires WellFormed(p) && Ok(p, st) && CutAt(p, st, o, a)
    ensures var cut := Turn(p, st, o).st;
            && cut.sent == Charged(st.sent, Deref(p, a).limiter)
            && (StepWasSpent(p, st, o, a) ==>
                  At(cut.counter, Deref(p, a).kind.do) == At(st.counter, Deref(p, a).kind.do) + 1)
            && (JumpWasMade(p, st, o, a) ==> cut.gotos == st.gotos + 1)
  {
    hide WellFormed, OkPositions, OkSteps, Next, Turn;
    NextMoves(p, st);
    CutLeaves(p, st, o, a);
  }

  /** The flow taken up has the same loop steps, limiter dispatches and jumps left as before the cut exactly
      if the cut-off attempt had spent none. */
  lemma TakenUpBudget(p: Program, st: State, o: Oracle, names: set<string>, a: Ptr, up: State)
    requires WellFormed(p) && Ok(p, st) && CutAt(p, st, o, a) && TakenUp(p, st, o, names, up)
    ensures up.counter == st.counter && up.sent == st.sent && up.gotos == st.gotos <==> !Spent(p, st, o, a)
  {
    hide WellFormed, OkPositions, OkSteps, Next, CutAt, Turn, StepWasSpent, JumpWasMade;
    var cut := Turn(p, st, o).st;
    assert up.counter == cut.counter && up.sent == cut.sent && up.gotos == cut.gotos;
    CutSpends(p, st, o, a);
    CutFacts(p, st, o, a);
    NextMoves(p, st);
    if Spent(p, st, o, a) {
      if Deref(p, a).limiter.Some? {
        assert At(up.sent, Deref(p, a).limiter.value) == At(st.sent, Deref(p, a).limiter.value) + 1;
      }
    } else {
      UpAgain(p, st, o, names, a, up);
      NextMoves(p, up);
    }
  }

  /** A step of a loop with requests in its body was spent. */
  ghost predicate StepWasLost(p: Program, st: State, o: Oracle, a: Ptr)
    requires WellFormed(p) && Ok(p, st) && CutAt(p, st, o, a)
  {
    StepWasSpent(p, st, o, a) && (RequestFacts(p, a); |Children(p, Deref(p, a).kind.do)| >= 2)
  }

  /** A jump was made that has moved a node above the one it was made in. */
  ghost predicate JumpMovedNodes(p: Program, st: State, o: Oracle, a: Ptr)
    requires WellFormed(p) && Ok(p, st) && CutAt(p, st, o, a)
  {
    JumpWasMade(p, st, o, a) && !Settled(p, Next(p, st).0, a.node)
  }

  /** The cut-off attempt has used up the limiter of its request. */
  ghost predicate LimitReached(p: Program, st: State, a: Ptr)
    requires WellFormed(p) && Addresses(p, a)
  {
    RequestFacts(p, a);
    var l := Deref(p, a).limiter;
    l.Some? && At(st.sent, l.value) + 1 >= p.limits[l.value].max
  }

  /** The flow before the cut, with the dispatch and the jump of the attempt taken off its budgets. */
  ghost function Worn(p: Program, st: State, o: Oracle, a: Ptr): (st': State)
    requires WellFormed(p) && Ok(p, st) && CutAt(p, st, o, a)
    ensures Ok(p, st')
  {
    hide WellFormed;
    st.(sent := Charged(st.sent, Deref(p, a).limiter), gotos := st.gotos + if JumpWasMade(p, st, o, a) then 1 else 0)
  }

  lemma CutFacts(p: Program, st: State, o: Oracle, a: Ptr)
    requires WellFormed(p) && Ok(p, st) && CutAt(p, st, o, a)
    ensures Next(p, st).1 == Some(a) && !st.cancel
  {
    hide WellFormed, Next, Ok;
  }

  /** A flow taken up after its cut-off request has jumped: the jump was to the very next place. */
  lemma UpAfterJump(p: Program, st: State, o: Oracle, names: set<string>, a: Ptr, up: State) returns (t: string)
    requires WellFormed(p) && Ok(p, st) && CutAt(p, st, o, a) && TakenUp(p, st, o, names, up)
    requires JumpWasMade(p, st, o, a)
    ensures Ok(p, up) && Deref(p, a).kind.App? && st.gotos <= MAX_GOTO
    ensures t in p.tags && p.tags[t] == Ptr(a.node, a.at + 1)
    ensures var h, hu := Handing(p, st, a), Handing(p, up, a);
            && h.cur == a.node && Pos(h, a.node) == a.at + 1 && h.gotos == st.gotos
            && hu.gotos == st.gotos + 1 && SamePlace(p, Goto(p, h, t).0, hu)
    ensures Next(p, up).1 == Some(a)
    ensures Next(p, up).0 == Next(p, st).0.(pos := Next(p, up).0.pos, hist := up.hist,
                                            sent := Charged(st.sent, Deref(p, a).limiter), gotos := st.gotos + 1)
  {
    hide WellFormed, OkPositions, OkSteps, Next, Turn, RepeatInterrupted, Goto;
    NextMoves(p, st);
    NextAdvances(p, st);
    CutLeaves(p, st, o, a);
    var h := Handing(p, st, a);
    var r := o(h.hist);
    t := r.jump.value;
    var h0 := h.(cancel := h.cancel || r.cancel);
    assert Handle(p, h, a, r) == Goto(p, h0, t).0;
    var cut := Turn(p, st, o).st;
    RepeatRewinds(p, cut, names, a);
    JumpLands(p, h0, t);
    NextHere(p, up);
    JumpsAlike(p, h, h0, t);
  }

  lemma SettledAlike(p: Program, st: State, a: Ptr)
    requires WellFormed(p) && Ok(p, st) && Addresses(p, a)
    ensures Settled(p, Handing(p, st, a), a.node) <==> Settled(p, Next(p, st).0, a.node)
  {
    hide WellFormed, Next;
  }

  /** The flow taken up is close to the worn one when the interrupted request comes up. */
  lemma UpIsWorn(p: Program, st: State, o: Oracle, names: set<string>, a: Ptr, up: State)
    requires WellFormed(p) && Ok(p, st) && CutAt(p, st, o, a) && TakenUp(p, st, o, names, up)
    requires !StepWasLost(p, st, o, a) && !JumpMovedNodes(p, st, o, a)
    ensures Ok(p, up) && Ok(p, Rebased(Worn(p, st, o, a), up.hist))
    ensures var w := Rebased(Worn(p, st, o, a), up.hist);
            && Next(p, up).1 == Some(a) && Next(p, w).1 == Some(a) && Close(p, Next(p, w).0, Next(p, up).0)
  {
    var w := Rebased(Worn(p, st, o, a), up.hist);
    hide WellFormed, OkPositions, OkSteps, Next, Turn, RepeatInterrupted, CutAt, Settled, SamePlace, Goto;
    NextMoves(p, st);
    CutFacts(p, st, o, a);
    RequestFacts(p, a);
    NextApart(p, st, w);
    if JumpWasMade(p, st, o, a) {
      UpSettled(p, st, o, names, a, up);
    } else {
      UpAgain(p, st, o, names, a, up);
      assert SamePlace(p, Next(p, w).0, Next(p, up).0) by { SameHere(p, Next(p, w).0, Next(p, up).0); }
    }
    forall d: nat | d < |p.nodes| && d in p.loops ensures AlikeAt(p, Next(p, w).0, Next(p, up).0, d) {}
  }

  lemma SameHere(p: Program, st: State, st2: State)
    requires st2.cur == st.cur && st2.pos == st.pos
    ensures SamePlace(p, st, st2)
  {}

  lemma UpSettled(p: Program, st: State, o: Oracle, names: set<string>, a: Ptr, up: State)
    requires WellFormed(p) && Ok(p, st) && CutAt(p, st, o, a) && TakenUp(p, st, o, names, up)
    requires JumpWasMade(p, st, o, a) && Settled(p, Next(p, st).0, a.node)
    ensures Ok(p, up) && Next(p, up).1 == Some(a) && SamePlace(p, Next(p, st).0, Next(p, up).0)
    ensures Next(p, up).0 == Next(p, st).0.(pos := Next(p, up).0.pos, hist := up.hist,
                                            sent := Charged(st.sent, Deref(p, a).limiter), gotos := st.gotos + 1)
    ensures forall w: State | w.cur == Next(p, st).0.cur && w.pos == Next(p, st).0.pos :: SamePlace(p, w, Next(p, up).0)
  {
    hide WellFormed, OkPositions, OkSteps, Next, Turn, RepeatInterrupted, CutAt, Settled, SamePlace, Goto, JumpWasMade;
    var t := UpAfterJump(p, st, o, names, a, up);
    NextMoves(p, st);
    CutFacts(p, st, o, a);
    var h, hu := Handing(p, st, a), Handing(p, up, a);
    SettledAlike(p, st, a);
    JumpStays(p, h, t);
    SameJoins(p, Goto(p, h, t).0, h, hu);
    SameKept(p, h, hu, Next(p, st).0, Next(p, up).0);
    forall w: State | w.cur == Next(p, st).0.cur && w.pos == Next(p, st).0.pos ensures SamePlace(p, w, Next(p, up).0) {
      SameKept(p, h, hu, w, Next(p, up).0);
    }
  }

  /** Unless a step of a loop with requests in its body was spent or a jump has moved nodes, all that is lost
      by an interruption is a dispatch of the limiter and a jump: the flow taken up runs as the worn one. */
  lemma UpRounds(p: Program, st: State, o: Oracle, names: set<string>, a: Ptr, up: State, o2: Oracle)
    requires WellFormed(p) && Ok(p, st) && CutAt(p, st, o, a) && TakenUp(p, st, o, names, up)
    requires !StepWasLost(p, st, o, a) && !JumpMovedNodes(p, st, o, a)
    ensures Ok(p, up) && Rounds(p, up, o2).hist == Rounds(p, Rebased(Worn(p, st, o, a), up.hist), o2).hist
  {
    hide WellFormed, Ok, Next, CutAt, StepWasLost, JumpMovedNodes, TakenUp, Close, Worn;
    UpIsWorn(p, st, o, names, a, up);
    RoundsAlike(p, Rebased(Worn(p, st, o, a), up.hist), up, o2);
  }

  /** Interruption is transparent: in the same world, the flow taken up dispatches what the uninterrupted run
      would have dispatched with one dispatch of the limiter less and, if the attempt has jumped, one jump
      less; with neither limiter nor jump, exactly that. The interrupted request comes first, unless its
      limiter is used up. */
  lemma InterruptionIsTransparent(
    p: Program, st: State, o: Oracle, names: set<string>, a: Ptr, up: State, o1: Oracle, o2: Oracle)
    returns (t: seq<Event>)
    requires WellFormed(p) && Ok(p, st) && CutAt(p, st, o, a) && TakenUp(p, st, o, names, up)
    requires !StepWasLost(p, st, o, a) && !JumpMovedNodes(p, st, o, a)
    requires SameWorld(o1, st.hist, o2, up.hist)
    ensures Ok(p, up)
    ensures Rounds(p, Worn(p, st, o, a), o1).hist == st.hist + t
    ensures Route(p, up, o2).hist == up.hist + t
    ensures Deref(p, a).limiter == None && !JumpWasMade(p, st, o, a) ==> Rounds(p, st, o1).hist == st.hist + t
    ensures !LimitReached(p, st, a) ==> |t| > 0 && t[0] == Record(Deref(p, a))
  {
    hide WellFormed, Ok, Next, CutAt, StepWasLost, JumpMovedNodes, JumpWasMade, TakenUp, SameWorld, Rounds, Worn;
    hide LimitReached;
    var w := Worn(p, st, o, a);
    WornFacts(p, st, o, a);
    UpRounds(p, st, o, names, a, up, o2);
    UpMarks(p, st, o, names, a, up);
    assert up.(interrupted := None) == up;
    assert st.hist + [] == st.hist && up.hist + [] == up.hist;
    t := RoundsRebased(p, w, o1, st.hist, o2, up.hist, []);
    if !LimitReached(p, st, a) {
      FirstSent(p, w, o1, a, t);
    }
  }

  lemma WornFacts(p: Program, st: State, o: Oracle, a: Ptr)
    requires WellFormed(p) && Ok(p, st) && CutAt(p, st, o, a)
    ensures var w := Worn(p, st, o, a);
            && w.hist == st.hist && !w.cancel && Next(p, w).1 == Some(a)
            && (Deref(p, a).limiter == None && !JumpWasMade(p, st, o, a) ==> w == st)
            && (!LimitReached(p, st, a) && Deref(p, a).limiter.Some? ==>
                  var l := Deref(p, a).limiter.value; l < |p.limits| && At(w.sent, l) < p.limits[l].max)
  {
    hide WellFormed, OkPositions, OkSteps, Next, JumpWasMade;
    RequestFacts(p, a);
    NextApart(p, st, Worn(p, st, o, a));
  }

  lemma UpMarks(p: Program, st: State, o: Oracle, names: set<string>, a: Ptr, up: State)
    requires WellFormed(p) && Ok(p, st) && CutAt(p, st, o, a) && TakenUp(p, st, o, names, up)
    ensures up.interrupted == None && !up.cancel
  {
    hide WellFormed, Ok, Next, Turn;
  }

  /** The first request of a run that starts with request `a`, whose limiter is not used up. */
  lemma FirstSent(p: Program, st: State, o: Oracle, a: Ptr, t: seq<Event>)
    requires WellFormed(p) && Ok(p, st) && !st.cancel && Next(p, st).1 == Some(a)
    requires var l := Deref(p, a).limiter;
             l.Some? ==> l.value < |p.limits| && At(st.sent, l.value) < p.limits[l.value].max
    requires Rounds(p, st, o).hist == st.hist + t
    ensures |t| > 0 && t[0] == Record(Deref(p, a))
  {
    hide WellFormed, OkPositions, OkSteps, Next, Handle;
    NextMoves(p, st);
    var h := st.hist + [Record(Deref(p, a))];
    assert Turn(p, st, o).st.hist == h;
    match Turn(p, st, o) {
      case Halt(_) =>
      case Continue(st') => RoundsExtend(p, st', o);
    }
    assert h <= st.hist + t;
    assert (st.hist + t)[|st.hist|] == h[|st.hist|];
  }
}
