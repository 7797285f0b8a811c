/** Every run ends, whatever the oracle answers: each round of the driver lowers
    (jumps left, loop steps left, requests ahead of the cursor) lexicographically. */
module Termination {
  import opened Common
  import opened Schema
  import opened Tree
  import opened Parsing
  import opened World
  import opened Machine

  // ----- requests ahead of the cursor -----

  /** Node `n`'s requests from place `i` on, with all the requests nested in them. */
  ghost function Ahead(p: Program, n: nat, i: nat): nat
    requires n < |p.nodes|
    decreases |p.nodes| - n, 1, 0
  {
    (if i < |Children(p, n)| then |Children(p, n)| - i else 0) + Nestings(p, n, i, n + 1)
  }

  /** The requests in the blocks numbered from `k` that belong to statements of `n` from place `i` on. */
  ghost function Nestings(p: Program, n: nat, i: nat, k: nat): nat
    requires n < k && n < |p.nodes|
    decreases |p.nodes| - n, 0, |p.nodes| - k
  {
    if k >= |p.nodes| then 0
    else
      (if p.nodes[k].parent == Some(n) && p.nodes[k].idx >= i then Ahead(p, k, 0) else 0)
      + Nestings(p, n, i, k + 1)
  }

  /** What is ahead in `n` and in the nodes above it, at the positions `pos`. */
  ghost function Work(p: Program, pos: Table, n: nat): nat
    requires WellFormed(p) && n < |p.nodes|
    decreases n
  {
    ParentFacts(p, n);
    Ahead(p, n, At(pos, n)) + if n == 0 then 0 else Work(p, pos, p.nodes[n].parent.value)
  }

  lemma {:induction false} NestingsShrink(p: Program, n: nat, i: nat, k: nat)
    requires n < k && n < |p.nodes|
    ensures Nestings(p, n, i + 1, k) <= Nestings(p, n, i, k)
    decreases |p.nodes| - k
  {
    if k < |p.nodes| {
      NestingsShrink(p, n, i, k + 1);
    }
  }

  lemma {:induction false} NestingsPast(p: Program, n: nat, i: nat, k: nat, m: nat)
    requires n < k <= m && Nested(p, m, n, i)
    ensures Ahead(p, m, 0) + Nestings(p, n, i + 1, k) <= Nestings(p, n, i, k)
    decreases |p.nodes| - k
  {
    if k == m {
      NestingsShrink(p, n, i, k + 1);
    } else {
      NestingsPast(p, n, i, k + 1, m);
    }
  }

  lemma AheadPast(p: Program, n: nat, i: nat)
    requires n < |p.nodes| && i < |Children(p, n)|
    ensures 1 + Ahead(p, n, i + 1) <= Ahead(p, n, i)
    ensures forall m: nat | Nested(p, m, n, i) :: 1 + Ahead(p, m, 0) + Ahead(p, n, i + 1) <= Ahead(p, n, i)
  {
    NestingsShrink(p, n, i, n + 1);
    forall m: nat | Nested(p, m, n, i) {
      NestingsPast(p, n, i, n + 1, m);
    }
  }

  /** Work looks only at nodes up to `n`. */
  lemma {:induction false} WorkFrame(p: Program, pos: Table, pos': Table, n: nat)
    requires WellFormed(p) && n < |p.nodes|
    requires forall k: nat | k <= n :: At(pos', k) == At(pos, k)
    ensures Work(p, pos', n) == Work(p, pos, n)
    decreases n
  {
    ParentFacts(p, n);
    if n > 0 {
      WorkFrame(p, pos, pos', p.nodes[n].parent.value);
    }
  }

  /** Stepping over request `a` leaves less ahead, even counting any block of `a` twice over. */
  ghost predicate Passed(p: Program, before: nat, st: State, a: Ptr)
    requires WellFormed(p) && st.cur < |p.nodes|
  {
    && 1 + Work(p, st.pos, st.cur) <= before
    && (forall m: nat | Nested(p, m, a.node, a.at) :: 1 + Ahead(p, m, 0) + Work(p, st.pos, st.cur) <= before)
  }

  lemma WorkPast(p: Program, pos: Table, n: nat, pos': Table)
    requires WellFormed(p) && n < |p.nodes| && At(pos, n) < |Children(p, n)|
    requires pos' == Put(pos, n, At(pos, n) + 1)
    ensures 1 + Work(p, pos', n) <= Work(p, pos, n)
    ensures forall m: nat | Nested(p, m, n, At(pos, n)) :: 1 + Ahead(p, m, 0) + Work(p, pos', n) <= Work(p, pos, n)
  {
    hide WellFormed, Ahead, Nested;
    ParentFacts(p, n);
    AheadPast(p, n, At(pos, n));
    if n > 0 {
      WorkFrame(p, pos, pos', p.nodes[n].parent.value);
    }
  }

  lemma WorkLeave(p: Program, pos: Table, n: nat)
    requires WellFormed(p) && 0 < n < |p.nodes|
    ensures p.nodes[n].parent.Some? && p.nodes[n].parent.value < n
    ensures Work(p, Put(pos, n, 0), p.nodes[n].parent.value) <= Work(p, pos, n)
  {
    ParentFacts(p, n);
    WorkFrame(p, pos, Put(pos, n, 0), p.nodes[n].parent.value);
  }

  lemma {:induction false} NextWork(p: Program, st: State)
    requires WellFormed(p) && Ok(p, st) && Next(p, st).1.Some?
    ensures Passed(p, Work(p, st.pos, st.cur), Next(p, st).0, Next(p, st).1.value)
    decreases st.cur
  {
    hide WellFormed, Ahead, Work, Next, OkPositions, OkSteps, Nested, SetPrevious, At, Put;
    var n, i := st.cur, Pos(st, st.cur);
    if i < |Children(p, n)| {
      NextHere(p, st);
      WorkPast(p, st.pos, n, Put(st.pos, n, i + 1));
    } else if n == 0 {
      NextEnds(p, st);
    } else {
      NextLeaves(p, st);
      NextWork(p, Leave(p, SetPrevious(p, st), p.nodes[n].parent.value));
      WorkLeave(p, st.pos, n);
    }
  }

  /** Entering block `m` costs no more than was ahead in the statement it belongs to. */
  lemma EnterWork(p: Program, st: State, m: nat)
    requires WellFormed(p) && Ok(p, st) && m < |p.nodes| && p.nodes[m].parent == Some(st.cur)
    ensures Work(p, Enter(p, st, m).pos, m) == Ahead(p, m, 0) + Work(p, st.pos, st.cur)
  {
    ParentFacts(p, m);
    WorkFrame(p, st.pos, Enter(p, st, m).pos, st.cur);
  }

  // ----- loop steps left -----

  ghost function Left(p: Program, counter: Table, d: nat): nat {
    if d in p.loops && At(counter, d) < p.loops[d].maxSteps then p.loops[d].maxSteps - At(counter, d) else 0
  }

  /** Loop steps left in the loops numbered below `k`. */
  ghost function StepsLeft(p: Program, counter: Table, k: nat): nat {
    if k == 0 then 0 else StepsLeft(p, counter, k - 1) + Left(p, counter, k - 1)
  }

  lemma {:induction false} StepTaken(p: Program, counter: Table, counter': Table, d: nat, k: nat)
    requires d in p.loops && At(counter, d) < p.loops[d].maxSteps
    requires counter' == Put(counter, d, At(counter, d) + 1)
    ensures StepsLeft(p, counter', k) == StepsLeft(p, counter, k) - if d < k then 1 else 0
  {
    if k > 0 {
      StepTaken(p, counter, counter', d, k - 1);
    }
  }

  // ----- the measure -----

  ghost function JumpsLeft(st: State): nat
    requires st.gotos <= MAX_GOTO + 1
  {
    MAX_GOTO + 1 - st.gotos
  }

  ghost function LoopsLeft(p: Program, st: State): nat {
    StepsLeft(p, st.counter, |p.nodes|)
  }

  ghost function WorkLeft(p: Program, st: State): nat
    requires WellFormed(p) && Ok(p, st)
  {
    Work(p, st.pos, st.cur)
  }

  /** `st'` is lexicographically below (jumps, loops, work). */
  ghost predicate Below(p: Program, st': State, jumps: nat, loops: nat, work: nat)
    requires WellFormed(p) && Ok(p, st')
  {
    || JumpsLeft(st') < jumps
    || (JumpsLeft(st') == jumps && LoopsLeft(p, st') < loops)
    || (JumpsLeft(st') == jumps && LoopsLeft(p, st') == loops && WorkLeft(p, st') < work)
  }

  lemma EnterLowers(p: Program, st: State, a: Ptr, k: nat, work: nat)
    requires WellFormed(p) && Ok(p, st) && Addresses(p, a) && st.cur == a.node
    requires Passed(p, work, st, a) && Nested(p, k, a.node, a.at)
    ensures Below(p, Enter(p, st, k), JumpsLeft(st), LoopsLeft(p, st), work)
  {
    hide WellFormed, Work, Ahead, StepsLeft;
    EnterWork(p, st, k);
  }

  lemma WhileLowers(p: Program, st: State, d: nat, v: Verdict, work: nat)
    requires WellFormed(p) && Ok(p, st) && d in p.loops && d < |p.nodes|
    requires WorkLeft(p, st) < work
    ensures Below(p, WhileHandler(p, st, d, v), JumpsLeft(st), LoopsLeft(p, st), work)
  {
    hide WellFormed, Work, StepsLeft;
    var st' := WhileHandler(p, st, d, v);
    if At(st.counter, d) < p.loops[d].maxSteps {
      StepTaken(p, st.counter, st'.counter, d, |p.nodes|);
    }
  }

  lemma HandleLowers(p: Program, st: State, a: Ptr, r: Reply, work: nat)
    requires WellFormed(p) && Ok(p, st) && Addresses(p, a) && st.cur == a.node
    requires Passed(p, work, st, a)
    ensures Below(p, Handle(p, st, a, r), JumpsLeft(st), LoopsLeft(p, st), work)
  {
    hide WellFormed, Work, Ahead, StepsLeft, OkPositions, OkSteps, Goto, Enter, WhileHandler, FindCase;
    var st0 := st.(cancel := st.cancel || r.cancel);
    assert Passed(p, work, st0, a);
    RequestFacts(p, a);
    match Deref(p, a).kind
    case App =>
    case BreakApp =>
    case Cond(t, e) =>
      EnterLowers(p, st0, a, t, work);
      EnterLowers(p, st0, a, e, work);
    case Choice(refs) =>
      FindCaseNested(p, refs, a.node, a.at, r.text);
      FindCaseNested(p, refs, a.node, a.at, "default");
      match PickCase(refs, r.text) {
        case Some(k) => EnterLowers(p, st0, a, k, work);
        case None =>
      }
    case Loop(d) =>
      WhileLowers(p, st0, d, r.verdict, work);
  }

  /** Each round that goes on lowers the measure. */
  lemma TurnLowers(p: Program, st: State, o: Oracle)
    requires WellFormed(p) && Ok(p, st) && Turn(p, st, o).Continue?
    ensures Below(p, Turn(p, st, o).st, JumpsLeft(st), LoopsLeft(p, st), WorkLeft(p, st))
  {
    hide WellFormed, Next, Handle, Work, StepsLeft, Goto;
    NextMoves(p, st);
    NextAdvances(p, st);
    NextWork(p, st);
    var (st1, next) := Next(p, st);
    var a := next.value;
    RequestFacts(p, a);
    var req := Deref(p, a);
    if req.limiter.Some? && At(st1.sent, req.limiter.value) >= p.limits[req.limiter.value].max {
    } else {
      var st2 := if req.limiter.None? then st1 else
        st1.(sent := Put(st1.sent, req.limiter.value, At(st1.sent, req.limiter.value) + 1));
      var st3 := st2.(hist := st2.hist + [Record(req)]);
      HandleLowers(p, st3, a, o(st3.hist), WorkLeft(p, st));
    }
  }

  /** Route's loop, from its first round to its return. */
  ghost function Rounds(p: Program, st: State, o: Oracle): (st': State)
    requires WellFormed(p) && Ok(p, st)
    ensures Ok(p, st')
    decreases JumpsLeft(st), LoopsLeft(p, st), WorkLeft(p, st)
  {
    match Turn(p, st, o)
    case Halt(st') => st'
    case Continue(st') => TurnLowers(p, st, o); Rounds(p, st', o)
  }

  /** Route */
  ghost function Route(p: Program, st: State, o: Oracle): (st': State)
    requires WellFormed(p) && Ok(p, st)
    ensures Ok(p, st')
  {
    Rounds(p, st.(interrupted := None), o)
  }

  // ----- an explicit bound -----

  /** All the requests the cursor could ever have ahead of it, summed over the nodes below `k`. */
  ghost function TotalAhead(p: Program, k: nat): nat
    requires k <= |p.nodes|
  {
    if k == 0 then 0 else TotalAhead(p, k - 1) + Ahead(p, k - 1, 0)
  }

  lemma {:induction false} AheadAtMost(p: Program, n: nat, i: nat)
    requires n < |p.nodes|
    ensures Ahead(p, n, i) <= Ahead(p, n, 0)
    decreases i
  {
    if i > 0 {
      AheadAtMost(p, n, i - 1);
      NestingsShrink(p, n, i - 1, n + 1);
    }
  }

  lemma {:induction false} TotalGrows(p: Program, j: nat, k: nat)
    requires j <= k <= |p.nodes|
    ensures TotalAhead(p, j) <= TotalAhead(p, k)
  {
    if j < k {
      TotalGrows(p, j, k - 1);
    }
  }

  lemma {:induction false} WorkAtMost(p: Program, pos: Table, n: nat)
    requires WellFormed(p) && n < |p.nodes|
    ensures Work(p, pos, n) <= TotalAhead(p, n + 1)
    decreases n
  {
    ParentFacts(p, n);
    AheadAtMost(p, n, At(pos, n));
    if n > 0 {
      WorkAtMost(p, pos, p.nodes[n].parent.value);
      TotalGrows(p, p.nodes[n].parent.value + 1, n);
    }
  }

  lemma {:induction false} StepsAtMost(p: Program, counter: Table, k: nat)
    ensures StepsLeft(p, counter, k) <= StepsLeft(p, ZERO, k)
  {
    if k > 0 {
      StepsAtMost(p, counter, k - 1);
    }
  }

  /** The loop steps of the whole program. */
  ghost function AllSteps(p: Program): nat {
    StepsLeft(p, ZERO, |p.nodes|)
  }

  /** The lexicographic measure as one number. */
  ghost function Rank(p: Program, jumps: nat, loops: nat, work: nat): nat {
    (jumps * (AllSteps(p) + 1) + loops) * (TotalAhead(p, |p.nodes|) + 1) + work
  }

  ghost function RankOf(p: Program, st: State): nat
    requires WellFormed(p) && Ok(p, st)
  {
    Rank(p, JumpsLeft(st), LoopsLeft(p, st), WorkLeft(p, st))
  }

  lemma LexRank(j: nat, l: nat, w: nat, j': nat, l': nat, w': nat, s: nat, m: nat)
    requires l' <= s && w' <= m
    requires j' < j || (j' == j && l' < l) || (j' == j && l' == l && w' < w)
    ensures (j' * (s + 1) + l') * (m + 1) + w' < (j * (s + 1) + l) * (m + 1) + w
  {
    if j' < j {
      assert j' * (s + 1) + (s + 1) <= j * (s + 1) by { assert (j' + 1) * (s + 1) <= j * (s + 1); }
      LexStep(j' * (s + 1) + l', j * (s + 1) + l, m, w', w);
    } else if l' < l {
      LexStep(j' * (s + 1) + l', j * (s + 1) + l, m, w', w);
    }
  }

  lemma LexStep(x: nat, y: nat, m: nat, w': nat, w: nat)
    requires x < y && w' <= m
    ensures x * (m + 1) + w' < y * (m + 1) + w
  {
    assert (x + 1) * (m + 1) <= y * (m + 1);
    assert (x + 1) * (m + 1) == x * (m + 1) + (m + 1);
  }

  /** A round dispatches at most one request. */
  lemma TurnSends(p: Program, st: State, o: Oracle)
    requires WellFormed(p) && Ok(p, st)
    ensures st.hist <= Turn(p, st, o).st.hist && |Turn(p, st, o).st.hist| <= |st.hist| + 1
  {
    hide WellFormed, Next, OkPositions, OkSteps, Goto, Handle;
    NextMoves(p, st);
  }

  /** A run only adds to the history. */
  lemma {:induction false} RoundsExtend(p: Program, st: State, o: Oracle)
    requires WellFormed(p) && Ok(p, st)
    ensures st.hist <= Rounds(p, st, o).hist
    decreases JumpsLeft(st), LoopsLeft(p, st), WorkLeft(p, st)
  {
    hide WellFormed, Ok, Turn, Work, StepsLeft;
    TurnSends(p, st, o);
    match Turn(p, st, o)
    case Halt(_) =>
    case Continue(st') =>
      TurnLowers(p, st, o);
      RoundsExtend(p, st', o);
  }

  /** A run from any state dispatches at most `1 + RankOf(p, st)` requests. */
  lemma {:induction false} RoundsBound(p: Program, st: State, o: Oracle)
    requires WellFormed(p) && Ok(p, st)
    ensures |Rounds(p, st, o).hist| <= |st.hist| + 1 + RankOf(p, st)
    decreases JumpsLeft(st), LoopsLeft(p, st), WorkLeft(p, st)
  {
    hide WellFormed, Turn, Work, StepsLeft, TotalAhead, Ahead;
    TurnSends(p, st, o);
    match Turn(p, st, o)
    case Halt(_) =>
    case Continue(st') =>
      TurnLowers(p, st, o);
      RoundsBound(p, st', o);
      StepsAtMost(p, st'.counter, |p.nodes|);
      WorkAtMost(p, st'.pos, st'.cur);
      TotalGrows(p, st'.cur + 1, |p.nodes|);
      LexRank(JumpsLeft(st), LoopsLeft(p, st), WorkLeft(p, st),
              JumpsLeft(st'), LoopsLeft(p, st'), WorkLeft(p, st'), AllSteps(p), TotalAhead(p, |p.nodes|));
  }

  /** Every run of every parsed schema, from whatever state of its life, dispatches at most
      1002 * (all loop steps + 1) * (requests ahead + 1) requests. */
  lemma RunBound(b: Block, st: State, o: Oracle)
    requires Ok(Compile(b), st)
    ensures WellFormed(Compile(b))
    ensures var p := Compile(b);
            |Route(p, st, o).hist| <= |st.hist| + (MAX_GOTO + 2) * (AllSteps(p) + 1) * (TotalAhead(p, |p.nodes|) + 1)
  {
    hide WellFormed, Work, StepsLeft, TotalAhead, Ahead, Compile, Rounds;
    CompileWellFormed(b);
    var p := Compile(b);
    var st1 := st.(interrupted := None);
    var s, m := AllSteps(p), TotalAhead(p, |p.nodes|);
    RoundsBound(p, st1, o);
    StepsAtMost(p, st.counter, |p.nodes|);
    WorkAtMost(p, st.pos, st.cur);
    TotalGrows(p, st.cur + 1, |p.nodes|);
    LexRank(MAX_GOTO + 2, 0, 0, JumpsLeft(st1), LoopsLeft(p, st1), WorkLeft(p, st1), s, m);
  }
}
