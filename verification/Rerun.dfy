/** A run that has used up its requests leaves the flow ready to run again. */
module Rerun {
  import opened Common
  import opened Schema
  import opened World
  import opened Tree
  import opened Parsing
  import opened Machine
  import opened Termination
  import opened Semantics
  import opened Interruption
  import opened Simulation

  /** The run is held up by a limit: the request just passed is over its limit, and its jump is refused. */
  ghost predicate HeldByLimit(p: Program, st: State) {
    && st.cur < |p.nodes| && 0 < Pos(st, st.cur) <= |Children(p, st.cur)|
    && var l := Children(p, st.cur)[Pos(st, st.cur) - 1].limiter;
       && l.Some? && l.value < |p.limits| && At(st.sent, l.value) >= p.limits[l.value].max
       && !(st.gotos <= MAX_GOTO && p.limits[l.value].failover in p.tags)
  }

  lemma TurnEndsAtStart(p: Program, st: State, o: Oracle)
    requires WellFormed(p) && Ok(p, st) && Turn(p, st, o).Halt? && !Turn(p, st, o).st.cancel
    ensures AtStart(Turn(p, st, o).st) || HeldByLimit(p, Turn(p, st, o).st)
  {
    hide WellFormed, OkPositions, OkSteps, Next, Handle, Repair;
    NextMoves(p, st);
    NextAdvances(p, st);
    if Next(p, st).1.Some? {
      RequestFacts(p, Next(p, st).1.value);
    }
  }

  /** Whatever happened on the way, jumps and limits included, a run that was not cancelled ends at the start
      of the root unless a limit holds it up. */
  lemma {:induction false} RunEndsAtStart(p: Program, st: State, o: Oracle)
    requires WellFormed(p) && Ok(p, st) && !Rounds(p, st, o).cancel
    ensures AtStart(Rounds(p, st, o)) || HeldByLimit(p, Rounds(p, st, o))
    decreases JumpsLeft(st), LoopsLeft(p, st), WorkLeft(p, st)
  {
    hide WellFormed, Ok, Turn, Work, StepsLeft, AtStart, HeldByLimit;
    match Turn(p, st, o)
    case Halt(_) => TurnEndsAtStart(p, st, o);
    case Continue(st') =>
      TurnLowers(p, st, o);
      RunEndsAtStart(p, st', o);
  }

  // ----- Reset -----

  /** Reset rewinds the node the cursor is in, so it leads back to the start only from the root; apart from the
      cancel flag it leaves everything else alone: the loops under way, the budgets and the mark. */
  lemma ResetLeadsToStart(st: State, k: nat)
    ensures AtStart(Reset(st)) <==> st.cur == 0
    ensures Pos(Reset(st), k) == if k == st.cur then 0 else Pos(st, k)
    ensures Reset(st) == st.(pos := Reset(st).pos, cancel := false)
  {}

  /** Otherwise the next run starts with the first request of the block in which the last one ended. */
  lemma ResetStartsHere(p: Program, st: State)
    requires WellFormed(p) && Ok(p, st) && Children(p, st.cur) != []
    ensures Ok(p, Reset(st)) && Next(p, Reset(st)).1 == Some(Ptr(st.cur, 0))
  {
    hide WellFormed, Next;
    NextHere(p, Reset(st));
  }

  // ----- without loops, a rerun repeats the run -----

  predicate Loopless(b: Block) {
    match b
    case End => true
    case Then(s, rest) => LooplessStmt(s) && Loopless(rest)
  }

  predicate LooplessStmt(s: Stmt) {
    match s
    case If(_, thn, els) => Loopless(thn) && Loopless(els)
    case Switch(_, cases) => LooplessCases(cases)
    case While(_, _, _) => false
    case HollowWhile(_) => false
    case _ => true
  }

  predicate LooplessCases(cs: Cases) {
    match cs
    case NoCases => true
    case Case(_, body, rest) => Loopless(body) && LooplessCases(rest)
  }

  /** Two executions in the same world have dispatched the same requests `t`, each after its own past. */
  ghost predicate InStep(m: Outcome, g: seq<Event>, m2: Outcome, g2: seq<Event>, t: seq<Event>) {
    m.hist == g + t && m2.hist == g2 + t && m.stopped == m2.stopped
  }

  lemma {:induction false} BlockInStep(
    b: Block, base: nat, m: Outcome, o: Oracle, g: seq<Event>, m2: Outcome, o2: Oracle, g2: seq<Event>, t: seq<Event>)
    returns (t': seq<Event>)
    requires Loopless(b) && SameWorld(o, g, o2, g2) && InStep(m, g, m2, g2, t)
    ensures InStep(ExecBlock(b, base, m, o), g, ExecBlock(b, base, m2, o2), g2, t')
    decreases b
  {
    match b
    case End => t' := t;
    case Then(s, rest) =>
      t' := StmtInStep(s, base, m, o, g, m2, o2, g2, t);
      var n, n2 := ExecStmt(s, base, m, o), ExecStmt(s, base, m2, o2);
      t' := BlockInStep(rest, base + StmtNodes(s), n, o, g, n2, o2, g2, t');
  }

  lemma {:induction false} StmtInStep(
    s: Stmt, base: nat, m: Outcome, o: Oracle, g: seq<Event>, m2: Outcome, o2: Oracle, g2: seq<Event>, t: seq<Event>)
    returns (t': seq<Event>)
    requires LooplessStmt(s) && SameWorld(o, g, o2, g2) && InStep(m, g, m2, g2, t)
    ensures InStep(ExecStmt(s, base, m, o), g, ExecStmt(s, base, m2, o2), g2, t')
    decreases s
  {
    t' := t;
    if !m.stopped && !s.Skipped? {
      var e := Sent(s.h, None, IsBreak(s));
      t' := t + [e];
      var m1, m12 := Tell(m, s.h, IsBreak(s), o), Tell(m2, s.h, IsBreak(s), o2);
      assert m1.hist == g + t' && m12.hist == g2 + t';
      assert o2(g2 + t') == o(g + t');
      if !m1.stopped {
        match s
        case If(_, thn, els) =>
          if o(m1.hist).verdict.Yes? {
            t' := BlockInStep(thn, base + 2, m1, o, g, m12, o2, g2, t');
          } else if o(m1.hist).verdict.No? {
            t' := BlockInStep(els, base + 2 + BlockNodes(thn), m1, o, g, m12, o2, g2, t');
          }
        case Switch(_, cases) =>
          var text := o(m1.hist).text;
          t' := CaseInStep(if HasCase(cases, text) then text else "default", cases, base, m1, o, g, m12, o2, g2, t');
        case _ =>
      }
    }
  }

  lemma {:induction false} CaseInStep(
    name: string, cs: Cases, base: nat, m: Outcome, o: Oracle, g: seq<Event>, m2: Outcome, o2: Oracle, g2: seq<Event>,
    t: seq<Event>)
    returns (t': seq<Event>)
    requires LooplessCases(cs) && SameWorld(o, g, o2, g2) && InStep(m, g, m2, g2, t)
    ensures InStep(ExecCase(name, cs, base, m, o), g, ExecCase(name, cs, base, m2, o2), g2, t')
    decreases cs
  {
    match cs
    case NoCases => t' := t;
    case Case(n, body, rest) =>
      if n == name {
        t' := BlockInStep(body, base + 1, m, o, g, m2, o2, g2, t);
      } else {
        t' := CaseInStep(name, rest, base + 1 + BlockNodes(body), m, o, g, m2, o2, g2, t);
      }
  }

  /** A flow without loops and limits that has used up its requests, run again in the same world, dispatches
      the same requests again. */
  lemma RerunRepeats(b: Block, st: State, o: Oracle, o2: Oracle) returns (t: seq<Event>)
    requires Unlimited(b) && Loopless(b) && NeverJumps(o) && NeverJumps(o2)
    requires Ok(Compile(b), st) && AtStart(st) && WellFormed(Compile(b)) && !Route(Compile(b), st, o).cancel
    requires SameWorld(o, st.hist, o2, Route(Compile(b), st, o).hist)
    ensures var p := Compile(b);
            var end := Route(p, st, o);
            && end.hist == st.hist + t
            && Route(p, end, o2).hist == end.hist + t
  {
    hide WellFormed, Ok, Route, Loopless, Unlimited, NeverJumps, ExecBlock, SameWorld, Compile, AtStart;
    var end := Route(Compile(b), st, o);
    RouteMeansSchema(b, st, o);
    RouteMeansSchema(b, end, o2);
    assert st.hist + [] == st.hist && end.hist + [] == end.hist;
    t := BlockInStep(b, 1, OutcomeOf(st), o, st.hist, OutcomeOf(end), o2, end.hist, []);
  }
}
