/** What the rounds of Route do at limits, jumps, loops and interruptions, wherever in a run they come. */
module Steps {
  import opened Common
  import opened World
  import opened Tree
  import opened Parsing
  import opened Machine
  import opened Termination
  import opened Jumps
  import opened Interruption
  import opened Repetition

  // ----- when a repeat succeeds -----

  /** RepeatInterrupted succeeds exactly if there is a marked request, it has one of the names, and the cursor
      stands right behind it. */
  lemma RepeatSucceedsExactlyIf(p: Program, st: State, names: set<string>)
    requires WellFormed(p) && Ok(p, st)
    ensures RepeatInterrupted(p, st, names).1
       <==> && st.interrupted.Some? && Deref(p, st.interrupted.value).h.name in names
            && st.cur == st.interrupted.value.node
            && Pos(st, st.cur) == st.interrupted.value.at + 1
  {
    hide WellFormed, OkSteps;
    assert At(st.pos, st.cur) <= |Children(p, st.cur)|;
  }

  /** A request that was cut off can be repeated exactly if it has one of the names and its handler, if it ran,
      has left the cursor where it was. */
  lemma CutRepeatsExactlyIf(p: Program, st: State, o: Oracle, a: Ptr, names: set<string>)
    requires WellFormed(p) && Ok(p, st) && CutAt(p, st, o, a)
    ensures var cut := Turn(p, st, o).st;
            RepeatInterrupted(p, cut, names).1
            <==> Deref(p, a).h.name in names && cut.cur == a.node && Pos(cut, a.node) == a.at + 1
  {
    hide WellFormed, OkPositions, OkSteps, Next, Turn, Handle, RepeatInterrupted;
    CutLeaves(p, st, o, a);
    RepeatSucceedsExactlyIf(p, Turn(p, st, o).st, names);
  }

  /** A handler that did not run leaves the cursor alone, and so does a plain application that does not jump:
      such a request can be repeated exactly if it has one of the names. */
  lemma PlainCutRepeats(p: Program, st: State, o: Oracle, a: Ptr, names: set<string>)
    requires WellFormed(p) && Ok(p, st) && CutAt(p, st, o, a)
    requires var r := o(Handing(p, st, a).hist); r.finish.ran ==> Deref(p, a).kind.App? && r.jump == None
    ensures RepeatInterrupted(p, Turn(p, st, o).st, names).1 <==> Deref(p, a).h.name in names
  {
    CutRepeatsExactlyIf(p, st, o, a, names);
    hide WellFormed, OkPositions, OkSteps, Next, Turn, RepeatInterrupted;
    CutLeaves(p, st, o, a);
    NextAdvances(p, st);
  }

  // ----- limits -----

  /** The failover of an exhausted limit cannot be jumped to. */
  ghost predicate Refused(p: Program, st: State, failover: string) {
    failover !in p.tags || st.gotos > MAX_GOTO
  }

  /** A run that comes to a request over its limit. If the failover can be jumped to, the run goes on with the
      request that the failover's tag names; if not, the run is over and nothing more is dispatched. */
  lemma LimitDecides(p: Program, st: State, a: Ptr, l: nat, o: Oracle)
    requires WellFormed(p) && Ok(p, st) && Next(p, st).1 == Some(a) && !st.cancel
    requires Deref(p, a).limiter == Some(l) && l < |p.limits| && At(st.sent, l) >= p.limits[l].max
    ensures var f := p.limits[l].failover;
            var turn := Turn(p, st, o);
            if Refused(p, st, f) then turn.Halt? && Rounds(p, st, o).hist == st.hist
            else && turn.Continue? && turn.st.hist == st.hist && turn.st.gotos == st.gotos + 1
                 && Next(p, turn.st).1 == Some(p.tags[f]) && Rounds(p, st, o) == Rounds(p, turn.st, o)
  {
    hide WellFormed, OkPositions, OkSteps, Next, Handle, Dispatch, Goto, Rounds;
    NextMoves(p, st);
    var x, f := Next(p, st).0, p.limits[l].failover;
    assert Next(p, st) == (x, Some(a));
    TurnBeyond(p, st, o, x, a, l);
    hide Turn;
    if !Refused(p, st, f) {
      JumpReachesTag(p, x, f);
    }
    RoundsUnfold(p, st, o);
  }

  lemma RoundsUnfold(p: Program, st: State, o: Oracle)
    requires WellFormed(p) && Ok(p, st)
    ensures var turn := Turn(p, st, o);
            Rounds(p, st, o) == if turn.Halt? then turn.st else Rounds(p, turn.st, o)
  {
    hide WellFormed, Ok, Turn;
  }

  // ----- cancelled flows -----

  /** A cancelled flow dispatches nothing and stays cancelled; but the run steps over the next request all the
      same, so a later run goes on behind it. */
  lemma CancelledIsSilent(p: Program, st: State, o: Oracle)
    requires WellFormed(p) && Ok(p, st) && st.cancel
    ensures var end := Route(p, st, o);
            && end.hist == st.hist && end.cancel && end.interrupted == None
            && end.pos == Next(p, st.(interrupted := None)).0.pos && end.cur == Next(p, st.(interrupted := None)).0.cur
  {
    hide WellFormed, OkPositions, OkSteps, Next, Handle, Dispatch, Goto;
    var st1 := st.(interrupted := None);
    NextMoves(p, st1);
    assert Turn(p, st1, o).Halt?;
  }

  // ----- jumps -----

  /** An application that is told to jump. If there is such a tag and jumps are left, the next request is the
      one the tag names; if not, the run goes on as if nothing had been said. */
  lemma JumpDecides(p: Program, st: State, a: Ptr, t: string)
    requires WellFormed(p) && Ok(p, st) && Next(p, st).1 == Some(a) && !st.cancel && LimiterLets(p, st, a)
    requires Deref(p, a).kind.App? && !Deref(p, a).h.isBreak
    ensures var turn := Turn(p, st, Always(Reply(No, "", Some(t), false, Finished)));
            && turn.Continue? && turn.st.hist == st.hist + [Record(Deref(p, a))]
            && if t in p.tags && st.gotos <= MAX_GOTO then Next(p, turn.st).1 == Some(p.tags[t])
               else turn.st.cur == a.node && turn.st.pos == Next(p, st).0.pos
  {
    hide WellFormed, OkPositions, OkSteps, Next, Turn, Goto, LimiterLets;
    var r := Reply(No, "", Some(t), false, Finished);
    TurnHandles(p, st, a, r);
    NextMoves(p, st);
    NextAdvances(p, st);
    var h := Handing(p, st, a);
    assert h.(cancel := false) == h;
    if t in p.tags && st.gotos <= MAX_GOTO {
      JumpLands(p, h, t);
      TagFacts(p, t);
      NextHere(p, Turn(p, st, Always(r)).st);
    }
  }

  // ----- loops -----

  /** Whether a loop goes round: it has steps left, and it is reached where it was written, or it is not under
      way, or its condition is true. */
  ghost predicate GoesRound(p: Program, st: State, a: Ptr, d: nat, v: Verdict)
    requires d in p.loops
  {
    At(st.counter, d) < p.loops[d].maxSteps && (a.node != d || At(st.step, d) == 0 || v.Yes?)
  }

  /** A loop with requests in its body, wherever it is reached from: it enters its body exactly if it goes
      round, and is otherwise passed over. */
  lemma LoopGoesRoundExactlyIf(p: Program, st: State, a: Ptr, d: nat, v: Verdict)
    requires WellFormed(p) && Ok(p, st) && Next(p, st).1 == Some(a) && !st.cancel && LimiterLets(p, st, a)
    requires Deref(p, a).kind == Loop(d) && d < |p.nodes| && |Children(p, d)| >= 2
    ensures d in p.loops
    ensures var turn := Turn(p, st, Always(Reply(v, "", None, false, Finished))).st;
            if GoesRound(p, st, a, d, v) then turn.cur == d && Pos(turn, d) == 0
            else turn.cur == a.node && Pos(turn, a.node) == a.at + 1
  {
    hide WellFormed, OkPositions, OkSteps, Next, Turn, LimiterLets, WhileHandler, GoesRound, Handle;
    var r := Reply(v, "", None, false, Finished);
    TurnHandles(p, st, a, r);
    NextMoves(p, st);
    NextAdvances(p, st);
    LoopKnowsItsCaller(p, st, d);
    var h := Handing(p, st, a);
    LoopHandles(p, h, a, d, v);
    WhileGoesRound(p, h, a, d, v);
    SameRound(p, st, h, a, d, v);
  }

  lemma LoopHandles(p: Program, h: State, a: Ptr, d: nat, v: Verdict)
    requires WellFormed(p) && Ok(p, h) && Addresses(p, a) && !h.cancel
    requires Deref(p, a).kind == Loop(d) && d < |p.nodes| && d in p.loops
    ensures Handle(p, h, a, Reply(v, "", None, false, Finished)) == WhileHandler(p, h, d, v)
  {
    hide WellFormed, OkPositions, OkSteps, WhileHandler;
    assert h.(cancel := false) == h;
  }

  lemma SameRound(p: Program, st: State, h: State, a: Ptr, d: nat, v: Verdict)
    requires d in p.loops && h.counter == st.counter && h.step == st.step
    ensures GoesRound(p, h, a, d, v) <==> GoesRound(p, st, a, d, v)
  {}

  lemma WhileGoesRound(p: Program, h: State, a: Ptr, d: nat, v: Verdict)
    requires Ok(p, h) && d < |p.nodes| && d in p.loops && |Children(p, d)| >= 2
    requires h.prev == p.loops[d].originalParent <==> a.node != d
    ensures var to := WhileHandler(p, h, d, v);
            if GoesRound(p, h, a, d, v) then to.cur == d && Pos(to, d) == 0 else to.cur == h.cur && to.pos == h.pos
  {
    hide OkPositions;
  }

  /** A loop that never ran goes round whatever its condition says, even if a jump led into its body. */
  lemma FreshLoopGoesRound(p: Program, st: State, a: Ptr, d: nat, v: Verdict)
    requires Ok(p, st) && d in p.loops && At(st.counter, d) == 0 && p.loops[d].maxSteps > 0
    ensures GoesRound(p, st, a, d, v)
  {}

  // ----- the mark of a cut-off request -----

  /** No round that goes on marks a request, and only a cut does. */
  lemma TurnMarks(p: Program, st: State, o: Oracle)
    requires WellFormed(p) && Ok(p, st) && st.interrupted == None
    ensures var turn := Turn(p, st, o);
            if turn.st.hist == st.hist then turn.st.interrupted == None
            else turn.st.interrupted.Some? <==> o(turn.st.hist).finish.Cut?
    ensures Turn(p, st, o).Continue? ==> Turn(p, st, o).st.interrupted == None
  {
    hide WellFormed, OkPositions, OkSteps, Next, Handle, Goto;
    NextMoves(p, st);
  }

  lemma {:induction false} RoundsMark(p: Program, st: State, o: Oracle, g: seq<Event>)
    requires WellFormed(p) && Ok(p, st) && st.interrupted == None && (st.hist == g || o(st.hist).finish.Finished?)
    requires g <= st.hist
    ensures var end := Rounds(p, st, o);
            end.interrupted.Some? <==> end.hist != g && o(end.hist).finish.Cut?
    decreases JumpsLeft(st), LoopsLeft(p, st), WorkLeft(p, st)
  {
    hide WellFormed, Ok, Turn, Work, StepsLeft;
    TurnMarks(p, st, o);
    TurnSends(p, st, o);
    RoundsUnfold(p, st, o);
    if Turn(p, st, o).Continue? {
      TurnLowers(p, st, o);
      RoundsMark(p, Turn(p, st, o).st, o, g);
    }
  }

  /** Whatever mark was there before, a run leaves one exactly if its last dispatch was cut off. */
  lemma MarkedExactlyIfCut(p: Program, st: State, o: Oracle)
    requires WellFormed(p) && Ok(p, st)
    ensures var end := Route(p, st, o);
            end.interrupted.Some? <==> |end.hist| > |st.hist| && o(end.hist).finish.Cut?
  {
    hide WellFormed, OkPositions, OkSteps, Rounds;
    var st1 := st.(interrupted := None);
    RoundsExtend(p, st1, o);
    RoundsMark(p, st1, o, st.hist);
  }
}
