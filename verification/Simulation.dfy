/** The cursor machine does what the schema means: for every schema without limits and every oracle that
    does not jump, Route dispatches exactly the requests of the structured semantics. */
module Simulation {
  import opened Common
  import opened Schema
  import opened World
  import opened Tree
  import opened Parsing
  import opened Machine
  import opened Termination
  import opened Semantics

  /** Between `st` and `st'` only node `n` and the nodes in [lo, lo + count) were touched. */
  ghost predicate Framed(st: State, st': State, n: nat, lo: nat, count: nat) {
    && (forall k: nat {:trigger At(st'.pos, k)} | k != n && !(lo <= k < lo + count) :: At(st'.pos, k) == At(st.pos, k))
    && (forall k: nat {:trigger At(st'.step, k)} | !(lo <= k < lo + count) :: At(st'.step, k) == At(st.step, k))
  }

  /** The machine has got to place `i` of node `n` with the history and loop counters of `m`. */
  ghost predicate Arrived(p: Program, st: State, n: nat, i: nat, m: Outcome) {
    && Ok(p, st) && !st.cancel
    && st.cur == n && Pos(st, n) == i
    && st.hist == m.hist && st.counter == m.counter
  }

  /** From `st` the machine either stops with the history of `m`, or gets through `st'` to the same end. */
  ghost predicate Simulates(p: Program, o: Oracle, st: State, st': State, n: nat, i: nat, m: Outcome)
    requires WellFormed(p) && Ok(p, st)
  {
    if m.stopped
    then Rounds(p, st, o).hist == m.hist && Rounds(p, st, o).cancel
    else Arrived(p, st', n, i, m) && Rounds(p, st', o) == Rounds(p, st, o)
  }

  function OutcomeOf(st: State): Outcome {
    Outcome(st.hist, st.counter, false)
  }

  // ----- one round -----

  /** The state in which the handler of the request at the cursor starts. */
  ghost function Told(p: Program, st: State, o: Oracle): (st': State)
    requires WellFormed(p) && Ok(p, st) && Pos(st, st.cur) < |Children(p, st.cur)|
    ensures Ok(p, st')
  {
    var i := Pos(st, st.cur);
    SetPrevious(p, st).(pos := Put(st.pos, st.cur, i + 1),
                        hist := st.hist + [Sent(Children(p, st.cur)[i].h, None, Breaks(Children(p, st.cur)[i]))])
  }

  /** The request at the cursor. */
  ghost function Here(p: Program, st: State): Request
    requires st.cur < |p.nodes| && Pos(st, st.cur) < |Children(p, st.cur)|
  {
    Children(p, st.cur)[Pos(st, st.cur)]
  }

  /** A request that stops the flow is the last one dispatched. */
  lemma TurnStops(p: Program, st: State, o: Oracle)
    requires WellFormed(p) && Ok(p, st) && !st.cancel
    requires Pos(st, st.cur) < |Children(p, st.cur)| && Here(p, st).limiter.None?
    requires Tell(OutcomeOf(st), Here(p, st).h, Breaks(Here(p, st)), o).stopped
    ensures Rounds(p, st, o).hist == Tell(OutcomeOf(st), Here(p, st).h, Breaks(Here(p, st)), o).hist
    ensures Rounds(p, st, o).cancel
  {
    hide WellFormed, Next, Handle, OkPositions, OkSteps;
    NextHere(p, st);
  }

  /** Otherwise its handler acts and the run goes on. */
  lemma TurnHandles(p: Program, st: State, o: Oracle)
    requires WellFormed(p) && Ok(p, st) && !st.cancel
    requires Pos(st, st.cur) < |Children(p, st.cur)| && Here(p, st).limiter.None?
    requires !Tell(OutcomeOf(st), Here(p, st).h, Breaks(Here(p, st)), o).stopped
    ensures var a := Ptr(st.cur, Pos(st, st.cur));
            var st1 := Told(p, st, o);
            && st1.hist == Tell(OutcomeOf(st), Here(p, st).h, Breaks(Here(p, st)), o).hist
            && (!Handle(p, st1, a, o(st1.hist)).cancel ==>
                Rounds(p, st, o) == Rounds(p, Handle(p, st1, a, o(st1.hist)), o))
  {
    hide WellFormed, Next, Handle, OkPositions, OkSteps;
    NextHere(p, st);
    var st1 := Told(p, st, o);
    var a := Ptr(st.cur, Pos(st, st.cur));
    var st2 := Handle(p, st1, a, o(st1.hist));
    if !st2.cancel {
      assert Turn(p, st, o) == Continue(st2);
    }
  }

  /** At the end of a block, the run goes on in the parent. */
  lemma RoundsLeave(p: Program, st: State, o: Oracle)
    requires WellFormed(p) && Ok(p, st) && 0 < st.cur && Pos(st, st.cur) == |Children(p, st.cur)|
    ensures p.nodes[st.cur].parent.Some? && p.nodes[st.cur].parent.value < |p.nodes|
    ensures var st1 := Leave(p, SetPrevious(p, st), p.nodes[st.cur].parent.value);
            Rounds(p, st1, o) == Rounds(p, st, o)
  {
    hide WellFormed, Next, Handle, OkPositions, OkSteps, Dispatch;
    NextLeaves(p, st);
    assert Turn(p, Leave(p, SetPrevious(p, st), p.nodes[st.cur].parent.value), o) == Turn(p, st, o);
  }

  // ----- framing -----

  lemma FramedSame(a: State, n: nat, lo: nat, count: nat)
    ensures Framed(a, a, n, lo, count)
  {}

  lemma FramedTold(p: Program, a: State, o: Oracle, lo: nat, count: nat)
    requires WellFormed(p) && Ok(p, a) && Pos(a, a.cur) < |Children(p, a.cur)|
    ensures Framed(a, Told(p, a, o), a.cur, lo, count)
  {}

  lemma FramedTrans(a: State, b: State, c: State, n: nat, lo: nat, count: nat)
    requires Framed(a, b, n, lo, count) && Framed(b, c, n, lo, count)
    ensures Framed(a, c, n, lo, count)
  {}

  lemma FramedWiden(a: State, b: State, n: nat, lo: nat, count: nat, n': nat, lo': nat, count': nat)
    requires Framed(a, b, n, lo, count)
    requires lo' <= lo && lo + count <= lo' + count'
    requires n == n' || lo' <= n < lo' + count'
    ensures Framed(a, b, n', lo', count')
  {}

  // ----- statements, blocks and loops -----

  /** What a lemma below needs to know at the place where a statement or block starts. */
  ghost predicate Ready(p: Program, st: State, o: Oracle, n: nat, i: nat, base: nat, count: nat) {
    && WellFormed(p) && Ok(p, st) && !st.cancel && NeverJumps(o)
    && st.cur == n && Pos(st, n) == i
    && n < base && base + count <= |p.nodes|
  }

  lemma {:induction false} SimBlock(p: Program, st: State, o: Oracle, n: nat, i: nat, b: Block, base: nat)
    returns (st': State)
    requires Ready(p, st, o, n, i, base, BlockNodes(b))
    requires Mirrors(p, n, i, b, base) && Unlimited(b)
    ensures Simulates(p, o, st, st', n, i + Length(b), ExecBlock(b, base, OutcomeOf(st), o))
    ensures Framed(st, st', n, base, BlockNodes(b))
    decreases b, 2, 0
  {
    hide WellFormed, OkPositions, OkSteps, Rounds, MirrorsStmt, UnlimitedStmt, ExecStmt, At, NeverJumps, Framed;
    match b
    case End =>
      st' := st;
      FramedSame(st, n, base, 0);
    case Then(s, rest) =>
      var m := ExecStmt(s, base, OutcomeOf(st), o);
      var st1 := SimStmt(p, st, o, n, i, s, base);
      if m.stopped {
        StoppedStays(rest, base + StmtNodes(s), m, o);
        st' := st;
        FramedSame(st, n, base, BlockNodes(b));
      } else {
        assert OutcomeOf(st1) == m;
        st' := SimBlock(p, st1, o, n, i + Width(s), rest, base + StmtNodes(s));
        FramedWiden(st, st1, n, base, StmtNodes(s), n, base, BlockNodes(b));
        FramedWiden(st1, st', n, base + StmtNodes(s), BlockNodes(rest), n, base, BlockNodes(b));
        FramedTrans(st, st1, st', n, base, BlockNodes(b));
      }
  }

  /** Once stopped, nothing more is dispatched. */
  lemma {:induction false} StoppedStays(b: Block, base: nat, m: Outcome, o: Oracle)
    requires m.stopped
    ensures ExecBlock(b, base, m, o) == m
  {
    match b
    case End =>
    case Then(s, rest) => StoppedStays(rest, base + StmtNodes(s), m, o);
  }

  /** A statement whose request was handed over without stopping the flow. */
  ghost predicate Started(p: Program, st: State, st1: State, o: Oracle, n: nat, i: nat, s: Stmt, base: nat) {
    && Ready(p, st, o, n, i, base, StmtNodes(s))
    && MirrorsStmt(p, n, i, s, base) && UnlimitedStmt(s) && !s.Skipped? && !s.Break?
    && i < |Children(p, n)| && st1 == Told(p, st, o)
    && !Tell(OutcomeOf(st), s.h, IsBreak(s), o).stopped
    && OutcomeOf(st1) == Tell(OutcomeOf(st), s.h, IsBreak(s), o)
  }

  lemma {:induction false} SimStmt(p: Program, st: State, o: Oracle, n: nat, i: nat, s: Stmt, base: nat)
    returns (st': State)
    requires Ready(p, st, o, n, i, base, StmtNodes(s))
    requires MirrorsStmt(p, n, i, s, base) && UnlimitedStmt(s)
    ensures Simulates(p, o, st, st', n, i + Width(s), ExecStmt(s, base, OutcomeOf(st), o))
    ensures Framed(st, st', n, base, StmtNodes(s))
    decreases s, 3, 0
  {
    hide WellFormed, OkPositions, OkSteps, Rounds, At, Handle, MirrorsKind, ExecBlock, ExecCase, ExecLoop, Framed;
    st' := st;
    if s.Skipped? {
      FramedSame(st, n, base, StmtNodes(s));
      return;
    }
    BreaksAlike(p, n, i, s, base);
    if Tell(OutcomeOf(st), s.h, IsBreak(s), o).stopped {
      TurnStops(p, st, o);
      FramedSame(st, n, base, StmtNodes(s));
    } else {
      TurnHandles(p, st, o);
      var st1 := Told(p, st, o);
      st' := SimHandled(p, st, st1, o, n, i, s, base);
      FramedTold(p, st, o, base, StmtNodes(s));
      FramedTrans(st, st1, st', n, base, StmtNodes(s));
    }
  }

  lemma BreaksAlike(p: Program, n: nat, i: nat, s: Stmt, base: nat)
    requires MirrorsStmt(p, n, i, s, base) && !s.Skipped?
    ensures Breaks(Children(p, n)[i]) == IsBreak(s)
  {
    assert MirrorsKind(p, n, i, Children(p, n)[i], s, base);
  }

  /** The handler is done: `st2` is where it left the flow, still on the way of the whole run. */
  ghost predicate Resumed(p: Program, o: Oracle, st: State, st2: State)
    requires WellFormed(p) && Ok(p, st)
  {
    Ok(p, st2) && !st2.cancel && Rounds(p, st2, o) == Rounds(p, st, o)
  }

  /** The statement's handler and the blocks it leads into. */
  lemma {:induction false} SimHandled(
    p: Program, st: State, st1: State, o: Oracle, n: nat, i: nat, s: Stmt, base: nat)
    returns (st': State)
    requires Started(p, st, st1, o, n, i, s, base) && !s.Skipped? && !s.Break?
    ensures Simulates(p, o, st, st', n, i + 1, ExecStmt(s, base, OutcomeOf(st), o))
    ensures Framed(st1, st', n, base, StmtNodes(s))
    decreases s, 2, 0
  {
    hide *;
    match s
    case Plain(_) => SimPlain(p, st, st1, o, n, i, s, base); st' := st1;
    case If(_, _, _) => st' := SimIf(p, st, st1, o, n, i, s, base);
    case Switch(_, _) => st' := SimSwitch(p, st, st1, o, n, i, s, base);
    case While(_, _, _) => st' := SimWhile(p, st, st1, o, n, i, s, base);
    case HollowWhile(_) => st' := SimHollow(p, st, st1, o, n, i, s, base);
  }

  lemma SimPlain(p: Program, st: State, st1: State, o: Oracle, n: nat, i: nat, s: Stmt, base: nat)
    requires Started(p, st, st1, o, n, i, s, base) && s.Plain?
    ensures Simulates(p, o, st, st1, n, i + 1, ExecStmt(s, base, OutcomeOf(st), o))
    ensures Framed(st1, st1, n, base, StmtNodes(s))
  {
    hide WellFormed, OkPositions, OkSteps, Rounds, Framed;
    assert MirrorsKind(p, n, i, Here(p, st), s, base);
    TurnHandles(p, st, o);
    assert Handle(p, st1, Ptr(n, i), o(st1.hist)) == st1;
    FramedSame(st1, n, base, StmtNodes(s));
  }

  /** A block of the statement at (n, i), from its start until the cursor is back behind the statement. */
  lemma {:induction false} SimInner(
    p: Program, st: State, o: Oracle, n: nat, i: nat, k: nat, b: Block, base: nat)
    returns (st': State)
    requires Ready(p, st, o, k, 0, base, BlockNodes(b)) && Pos(st, n) == i + 1
    requires IsBlock(p, k, n, i, Length(b)) && Mirrors(p, k, 0, b, base) && Unlimited(b)
    ensures Simulates(p, o, st, st', n, i + 1, ExecBlock(b, base, OutcomeOf(st), o))
    ensures Framed(st, st', k, base, BlockNodes(b))
    decreases b, 3, 0
  {
    hide WellFormed, OkPositions, OkSteps, Rounds, Mirrors, Unlimited, ExecBlock, At, Framed;
    var m := ExecBlock(b, base, OutcomeOf(st), o);
    var st1 := SimBlock(p, st, o, k, 0, b, base);
    st' := st1;
    if !m.stopped {
      st' := SimLeave(p, st, st1, o, n, i, k, base, BlockNodes(b));
    }
  }

  /** Leaving block `k` at its end. */
  lemma SimLeave(p: Program, st: State, st1: State, o: Oracle, n: nat, i: nat, k: nat, base: nat, count: nat)
    returns (st': State)
    requires WellFormed(p) && Ok(p, st1) && !st1.cancel
    requires n < base && n < k < |p.nodes| && p.nodes[k].parent == Some(n)
    requires st1.cur == k && Pos(st1, k) == |Children(p, k)|
    requires Framed(st, st1, k, base, count) && Pos(st, n) == i + 1
    ensures Ok(p, st') && st' == st1.(cur := n, pos := st'.pos, prev := st'.prev)
    ensures Pos(st', n) == i + 1
    ensures Rounds(p, st', o) == Rounds(p, st1, o)
    ensures Framed(st, st', k, base, count)
  {
    hide WellFormed, OkPositions, OkSteps, Rounds;
    RoundsLeave(p, st1, o);
    st' := Leave(p, SetPrevious(p, st1), n);
  }

  /** The handler of the statement at (n, i) has made the cursor enter block `k`. */
  lemma {:induction false} SimEnter(
    p: Program, st: State, st1: State, o: Oracle, n: nat, i: nat, k: nat, b: Block, base: nat, lo: nat, count: nat)
    returns (st': State)
    requires Ready(p, st1, o, n, i + 1, lo, count) && lo <= k < base && base + BlockNodes(b) <= lo + count
    requires IsBlock(p, k, n, i, Length(b)) && Mirrors(p, k, 0, b, base) && Unlimited(b)
    requires Ok(p, st) && Rounds(p, Enter(p, st1, k), o) == Rounds(p, st, o)
    ensures Simulates(p, o, st, st', n, i + 1, ExecBlock(b, base, OutcomeOf(st1), o))
    ensures Framed(st1, st', n, lo, count)
    decreases b, 4, 0
  {
    hide WellFormed, OkPositions, OkSteps, Rounds, Mirrors, Unlimited, ExecBlock, Framed, NeverJumps;
    var st2 := Enter(p, st1, k);
    st' := SimInner(p, st2, o, n, i, k, b, base);
    FramedEnter(p, st1, st2, st', k, base, BlockNodes(b), n, lo, count);
  }

  lemma FramedEnter(
    p: Program, a: State, b: State, c: State, k: nat, lo: nat, count: nat, n: nat, lo': nat, count': nat)
    requires k < |p.nodes| && b == Enter(p, a, k)
    requires Framed(b, c, k, lo, count)
    requires lo' <= lo && lo + count <= lo' + count' && lo' <= k < lo' + count'
    ensures Framed(a, c, n, lo', count')
  {}

  /** A handler that is neither a break nor told to jump leaves the flow running. */
  lemma Handled(p: Program, st: State, st1: State, o: Oracle, n: nat, i: nat, s: Stmt, base: nat)
    returns (st2: State)
    requires Started(p, st, st1, o, n, i, s, base)
    ensures Addresses(p, Ptr(n, i)) && st2 == Handle(p, st1, Ptr(n, i), o(st1.hist))
    ensures Resumed(p, o, st, st2)
  {
    hide WellFormed, OkPositions, OkSteps, Rounds, Mirrors, MirrorsCases, FindCase;
    assert MirrorsKind(p, n, i, Here(p, st), s, base);
    TurnHandles(p, st, o);
    st2 := Handle(p, st1, Ptr(n, i), o(st1.hist));
  }

  lemma {:induction false} SimIf(
    p: Program, st: State, st1: State, o: Oracle, n: nat, i: nat, s: Stmt, base: nat)
    returns (st': State)
    requires Started(p, st, st1, o, n, i, s, base) && s.If?
    ensures Simulates(p, o, st, st', n, i + 1, ExecStmt(s, base, OutcomeOf(st), o))
    ensures Framed(st1, st', n, base, StmtNodes(s))
    decreases s, 1, 0
  {
    hide WellFormed, OkPositions, OkSteps, Rounds, Mirrors, Unlimited, ExecBlock, Framed, NeverJumps, Enter;
    assert MirrorsKind(p, n, i, Here(p, st), s, base);
    var st2 := Handled(p, st, st1, o, n, i, s, base);
    match o(st1.hist).verdict
    case Yes =>
      st' := SimEnter(p, st, st1, o, n, i, base, s.thn, base + 2, base, StmtNodes(s));
    case No =>
      st' := SimEnter(p, st, st1, o, n, i, base + 1, s.els, base + 2 + BlockNodes(s.thn), base, StmtNodes(s));
    case Fault =>
      st' := st1;
      FramedSame(st1, n, base, StmtNodes(s));
  }

  // ----- switch -----

  lemma CasesFound(p: Program, n: nat, i: nat, refs: CaseRefs, cs: Cases, base: nat, name: string)
    requires MirrorsCases(p, n, i, refs, cs, base)
    ensures FindCase(refs, name).Some? <==> HasCase(cs, name)
  {}

  lemma {:induction false} SimSwitch(
    p: Program, st: State, st1: State, o: Oracle, n: nat, i: nat, s: Stmt, base: nat)
    returns (st': State)
    requires Started(p, st, st1, o, n, i, s, base) && s.Switch?
    ensures Simulates(p, o, st, st', n, i + 1, ExecStmt(s, base, OutcomeOf(st), o))
    ensures Framed(st1, st', n, base, StmtNodes(s))
    decreases s, 1, 0
  {
    hide WellFormed, OkPositions, OkSteps, Rounds, UnlimitedCases, ExecCase;
    hide Framed, NeverJumps, Enter, FindCase, HasCase;
    assert MirrorsKind(p, n, i, Here(p, st), s, base);
    var refs := Here(p, st).kind.cases;
    var text := o(st1.hist).text;
    CasesFound(p, n, i, refs, s.cases, base, text);
    var name := if HasCase(s.cases, text) then text else "default";
    assert PickCase(refs, text) == FindCase(refs, name);
    var st2 := Handled(p, st, st1, o, n, i, s, base);
    RequestFacts(p, Ptr(n, i));
    FindCaseNested(p, refs, n, i, name);
    st' := SimCase(p, st, st1, st2, o, n, i, refs, s.cases, base, name, base, StmtNodes(s));
  }

  /** Run the case called `name` among the cases from `base` on. */
  lemma {:induction false} SimCase(
    p: Program, st: State, st1: State, st2: State, o: Oracle, n: nat, i: nat, refs: CaseRefs, cs: Cases, base: nat,
    name: string, lo: nat, count: nat)
    returns (st': State)
    requires Ready(p, st1, o, n, i + 1, lo, count) && lo <= base && base + CaseNodes(cs) <= lo + count
    requires MirrorsCases(p, n, i, refs, cs, base) && UnlimitedCases(cs)
    requires Ok(p, st) && Resumed(p, o, st, st2)
    requires match FindCase(refs, name) case None => st2 == st1 case Some(k) => k < |p.nodes| && st2 == Enter(p, st1, k)
    ensures Simulates(p, o, st, st', n, i + 1, ExecCase(name, cs, base, OutcomeOf(st1), o))
    ensures Framed(st1, st', n, lo, count)
    decreases cs
  {
    hide WellFormed, OkPositions, OkSteps, Rounds, Mirrors, Unlimited, ExecBlock, Framed, NeverJumps, Enter;
    match cs
    case NoCases =>
      st' := st1;
      FramedSame(st1, n, lo, count);
    case Case(c, body, rest) =>
      if c == name {
        st' := SimEnter(p, st, st1, o, n, i, base, body, base + 1, lo, count);
      } else {
        st' := SimCase(p, st, st1, st2, o, n, i, refs.rest, rest, base + 1 + BlockNodes(body), name, lo, count);
      }
  }

  // ----- while -----

  /** Reached from outside, a loop with budget left starts a pass without looking at its condition. */
  lemma WhileOutside(p: Program, st: State, d: nat, v: Verdict)
    requires d < |p.nodes| && d in p.loops && Ok(p, st) && st.prev == p.loops[d].originalParent
    ensures var st' := WhileHandler(p, st, d, v);
            && (forall k: nat {:trigger At(st'.step, k)} | k != d :: At(st'.step, k) == At(st.step, k))
            && if At(st.counter, d) >= p.loops[d].maxSteps then st' == st.(step := st'.step)
               else if |Children(p, d)| == 1 then
                 st' == st.(step := st'.step, counter := Put(st.counter, d, At(st.counter, d) + 1))
               else
                 && st' == Enter(p, st, d).(step := st'.step, counter := Put(st.counter, d, At(st.counter, d) + 1),
                                            entries := st'.entries)
                 && At(st'.step, d) == 1
  {}

  /** Reached from the end of its body, a loop with budget left goes by its condition. */
  lemma WhileInside(p: Program, st: State, d: nat, v: Verdict)
    requires d < |p.nodes| && d in p.loops && Ok(p, st) && st.prev != p.loops[d].originalParent
    requires At(st.step, d) >= 1 && |Children(p, d)| != 1
    ensures var st' := WhileHandler(p, st, d, v);
            && (forall k: nat {:trigger At(st'.step, k)} | k != d :: At(st'.step, k) == At(st.step, k))
            && if At(st.counter, d) >= p.loops[d].maxSteps then st' == st
               else if v.Yes? then
                 && st' == Enter(p, st, d).(step := st'.step, counter := Put(st.counter, d, At(st.counter, d) + 1),
                                            entries := st'.entries)
                 && At(st'.step, d) >= 1
               else
                 st' == st.(step := st'.step, counter := Put(st.counter, d, At(st.counter, d) + 1))
  {}

  lemma ToldPrevious(p: Program, st: State, o: Oracle)
    requires WellFormed(p) && Ok(p, st) && Pos(st, st.cur) < |Children(p, st.cur)|
    ensures Told(p, st, o).prev == Before(st.cur, Pos(st, st.cur))
  {}

  /** A step of loop `d`: the frame of a state in which its handler has just moved on. */
  lemma FramedStep(p: Program, a: State, b: State, n: nat, d: nat, count: nat)
    requires d < |p.nodes| && count > 0
    requires b.pos == a.pos || b.pos == Enter(p, a, d).pos
    requires forall k: nat {:trigger At(b.step, k)} | k != d :: At(b.step, k) == At(a.step, k)
    ensures Framed(a, b, n, d, count)
  {}

  /** The steps loop `s` has left. */
  ghost function Budget(s: Stmt, base: nat, st: State): nat
    requires s.While?
  {
    if At(st.counter, base) < s.maxSteps then s.maxSteps - At(st.counter, base) else 0
  }

  lemma {:induction false} SimWhile(
    p: Program, st: State, st1: State, o: Oracle, n: nat, i: nat, s: Stmt, base: nat)
    returns (st': State)
    requires Started(p, st, st1, o, n, i, s, base) && s.While?
    ensures Simulates(p, o, st, st', n, i + 1, ExecStmt(s, base, OutcomeOf(st), o))
    ensures Framed(st1, st', n, base, StmtNodes(s))
    decreases s, 1, 0
  {
    hide WellFormed, OkPositions, OkSteps, Rounds, Mirrors, Unlimited, ExecBlock, ExecLoop, Framed, NeverJumps,
      WhileHandler, At, Length, BlockNodes;
    assert MirrorsKind(p, n, i, Here(p, st), s, base);
    var st2 := Handled(p, st, st1, o, n, i, s, base);
    ToldPrevious(p, st, o);
    WhileOutside(p, st1, base, o(st1.hist).verdict);
    FramedStep(p, st1, st2, n, base, StmtNodes(s));
    if At(st1.counter, base) < s.maxSteps && Length(s.body) != 0 {
      st' := SimEntered(p, st, st2, o, n, i, s, base);
      FramedTrans(st1, st2, st', n, base, StmtNodes(s));
    } else {
      st' := st2;
    }
  }

  /** The whole loop, once the cursor has entered its body. */
  lemma {:induction false} SimEntered(
    p: Program, st: State, st2: State, o: Oracle, n: nat, i: nat, s: Stmt, base: nat)
    returns (st': State)
    requires s.While? && Ready(p, st2, o, base, 0, base + 1, BlockNodes(s.body)) && n < base && Pos(st2, n) == i + 1
    requires MirrorsStmt(p, n, i, s, base) && UnlimitedStmt(s) && Length(s.body) > 0 && At(st2.step, base) >= 1
    requires Ok(p, st) && Resumed(p, o, st, st2)
    ensures var m := ExecLoop(s, base, ExecBlock(s.body, base + 1, OutcomeOf(st2), o), o);
            Simulates(p, o, st, st', n, i + 1, m)
    ensures Framed(st2, st', n, base, StmtNodes(s))
    decreases s, 0, Budget(s, base, st2), 3
  {
    hide WellFormed, OkPositions, OkSteps, Rounds, Mirrors, Unlimited, ExecBlock, ExecLoop, Framed, NeverJumps, At;
    assert MirrorsKind(p, n, i, Children(p, n)[i], s, base);
    var m := ExecLoop(s, base, ExecBlock(s.body, base + 1, OutcomeOf(st2), o), o);
    var st3 := SimPasses(p, st2, o, n, i, s, base);
    st' := st3;
    if !m.stopped {
      st' := SimLeave(p, st2, st3, o, n, i, base, base, StmtNodes(s));
    }
    FramedWiden(st2, st', base, base, StmtNodes(s), n, base, StmtNodes(s));
  }

  /** The body and all further passes, from a fresh entry into the body to its end. */
  lemma {:induction false} SimPasses(p: Program, st: State, o: Oracle, n: nat, i: nat, s: Stmt, base: nat)
    returns (st': State)
    requires s.While? && Ready(p, st, o, base, 0, base + 1, BlockNodes(s.body)) && n < base
    requires MirrorsStmt(p, n, i, s, base) && UnlimitedStmt(s) && Length(s.body) > 0 && At(st.step, base) >= 1
    ensures var m := ExecLoop(s, base, ExecBlock(s.body, base + 1, OutcomeOf(st), o), o);
            Simulates(p, o, st, st', base, Length(s.body) + 1, m)
    ensures Framed(st, st', base, base, StmtNodes(s))
    decreases s, 0, Budget(s, base, st), 2
  {
    hide WellFormed, OkPositions, OkSteps, Rounds, Mirrors, Unlimited, ExecBlock, Framed, NeverJumps, At;
    assert MirrorsKind(p, n, i, Children(p, n)[i], s, base);
    var m := ExecBlock(s.body, base + 1, OutcomeOf(st), o);
    var st1 := SimBlock(p, st, o, base, 0, s.body, base + 1);
    FramedWiden(st, st1, base, base + 1, BlockNodes(s.body), base, base, StmtNodes(s));
    st' := st1;
    if !m.stopped {
      FramedAt(st, st1, base, base + 1, BlockNodes(s.body), base);
      assert OutcomeOf(st1) == m;
      st' := SimLoop(p, st1, o, n, i, s, base);
      FramedTrans(st, st1, st', base, base, StmtNodes(s));
    }
  }

  lemma FramedAt(a: State, b: State, n: nat, lo: nat, count: nat, k: nat)
    requires Framed(a, b, n, lo, count) && k < lo
    ensures At(b.step, k) == At(a.step, k)
  {}

  /** The self-request at the end of the body. */
  lemma {:induction false} SimLoop(p: Program, st: State, o: Oracle, n: nat, i: nat, s: Stmt, base: nat)
    returns (st': State)
    requires s.While? && Ready(p, st, o, base, Length(s.body), base + 1, BlockNodes(s.body)) && n < base
    requires MirrorsStmt(p, n, i, s, base) && UnlimitedStmt(s) && Length(s.body) > 0 && At(st.step, base) >= 1
    ensures Simulates(p, o, st, st', base, Length(s.body) + 1, ExecLoop(s, base, OutcomeOf(st), o))
    ensures Framed(st, st', base, base, StmtNodes(s))
    decreases s, 0, Budget(s, base, st), 1
  {
    hide WellFormed, OkPositions, OkSteps, Rounds, Mirrors, Unlimited, ExecBlock, Framed, At, Handle, Length;
    assert MirrorsKind(p, n, i, Children(p, n)[i], s, base);
    if Tell(OutcomeOf(st), s.h, IsBreak(s), o).stopped {
      TurnStops(p, st, o);
      FramedSame(st, base, base, StmtNodes(s));
      st' := st;
    } else {
      var st1 := Told(p, st, o);
      FramedTold(p, st, o, base, StmtNodes(s));
      st' := SimAgain(p, st, st1, o, n, i, s, base);
      FramedTrans(st, st1, st', base, base, StmtNodes(s));
    }
  }

  /** The self-request decides whether to go round again. */
  lemma {:induction false} SimAgain(
    p: Program, st: State, st1: State, o: Oracle, n: nat, i: nat, s: Stmt, base: nat)
    returns (st': State)
    requires s.While? && Ready(p, st, o, base, Length(s.body), base + 1, BlockNodes(s.body)) && n < base
    requires MirrorsStmt(p, n, i, s, base) && UnlimitedStmt(s) && Length(s.body) > 0 && At(st.step, base) >= 1
    requires Length(s.body) < |Children(p, base)| && st1 == Told(p, st, o)
    requires !Tell(OutcomeOf(st), s.h, IsBreak(s), o).stopped
    ensures Simulates(p, o, st, st', base, Length(s.body) + 1, ExecLoop(s, base, OutcomeOf(st), o))
    ensures Framed(st1, st', base, base, StmtNodes(s))
    decreases s, 0, Budget(s, base, st), 0
  {
    hide WellFormed, OkPositions, OkSteps, Rounds, Mirrors, Unlimited, ExecBlock, Framed, At, Length, WhileHandler;
    assert MirrorsKind(p, n, i, Children(p, n)[i], s, base);
    TurnHandles(p, st, o);
    ToldPrevious(p, st, o);
    ToldFrames(p, st, o);
    var v := o(st1.hist).verdict;
    WhileInside(p, st1, base, v);
    var st2 := Handle(p, st1, Ptr(base, Length(s.body)), o(st1.hist));
    assert st2 == WhileHandler(p, st1, base, v);
    FramedStep(p, st1, st2, base, base, StmtNodes(s));
    st' := st2;
    if At(st1.counter, base) < s.maxSteps && v.Yes? {
      st' := SimPasses(p, st2, o, n, i, s, base);
      FramedTrans(st1, st2, st', base, base, StmtNodes(s));
    }
  }

  lemma ToldFrames(p: Program, st: State, o: Oracle)
    requires WellFormed(p) && Ok(p, st) && Pos(st, st.cur) < |Children(p, st.cur)|
    ensures Told(p, st, o).step == st.step && Told(p, st, o).counter == st.counter
  {}

  lemma SimHollow(
    p: Program, st: State, st1: State, o: Oracle, n: nat, i: nat, s: Stmt, base: nat)
    returns (st': State)
    requires Started(p, st, st1, o, n, i, s, base) && s.HollowWhile?
    ensures Simulates(p, o, st, st', n, i + 1, ExecStmt(s, base, OutcomeOf(st), o))
    ensures Framed(st1, st', n, base, StmtNodes(s))
  {
    hide WellFormed, OkPositions, OkSteps, Rounds, Framed, NeverJumps, WhileHandler, At;
    assert MirrorsKind(p, n, i, Here(p, st), s, base);
    var st2 := Handled(p, st, st1, o, n, i, s, base);
    WhileHollow(p, st1, base, o(st1.hist).verdict);
    FramedStep(p, st1, st2, n, base, 1);
    st' := st2;
    if st2.cur == base {
      FramedSame(st2, base, base, 1);
      st' := SimLeave(p, st2, st2, o, n, i, base, base, 1);
      FramedWiden(st2, st', base, base, 1, n, base, 1);
      FramedTrans(st1, st2, st', n, base, 1);
    }
  }

  /** A hollow loop spends a step and at most enters its empty body. */
  lemma WhileHollow(p: Program, st: State, d: nat, v: Verdict)
    requires d < |p.nodes| && d in p.loops && Ok(p, st) && Children(p, d) == []
    ensures var st' := WhileHandler(p, st, d, v);
            && (forall k: nat {:trigger At(st'.step, k)} | k != d :: At(st'.step, k) == At(st.step, k))
            && if At(st.counter, d) >= p.loops[d].maxSteps then st' == st.(step := st'.step)
               else
                 var c := Put(st.counter, d, At(st.counter, d) + 1);
                 || st' == st.(step := st'.step, counter := c)
                 || st' == Enter(p, st, d).(step := st'.step, counter := c, entries := st'.entries)
  {}

  // ----- whole runs -----

  /** The cursor is at the start of the root: the flow is new, or a run has used up its requests. */
  predicate AtStart(st: State) {
    st.cur == 0 && Pos(st, 0) == 0 && !st.cancel
  }

  /** For every schema without limits, every oracle that never jumps and every point of the flow's life at
      which it is at the start, Route dispatches what the structured semantics dispatches; unless it was
      stopped, it ends at the start again with the same loop budgets spent. */
  lemma RouteMeansSchema(b: Block, st: State, o: Oracle)
    requires Unlimited(b) && NeverJumps(o)
    requires Ok(Compile(b), st) && AtStart(st)
    ensures WellFormed(Compile(b))
    ensures var m := ExecBlock(b, 1, OutcomeOf(st), o);
            var end := Route(Compile(b), st, o);
            && end.hist == m.hist
            && (end.cancel <==> m.stopped)
            && (!m.stopped ==> AtStart(end) && end.counter == m.counter)
  {
    CompileWellFormed(b);
    hide WellFormed, OkPositions, OkSteps, Mirrors, Unlimited, ExecBlock, NeverJumps, Framed, Dispatch, Compile;
    var p := Compile(b);
    var st1 := st.(interrupted := None);
    var m := ExecBlock(b, 1, OutcomeOf(st), o);
    var st2 := SimBlock(p, st1, o, 0, 0, b, 1);
    if !m.stopped {
      NextEnds(p, st2);
    }
  }
}
