/** Every request has a limiter of its own, shared only by the two places of a `while`. */
module Limits {
  import opened Common
  import opened Schema
  import opened World
  import opened Tree
  import opened Parsing
  import opened Machine
  import opened Termination
  import opened Life

  // ----- limiters and loops are given to one request each -----

  /** Requests with the same limiter, or of the same loop. */
  predicate Related(x: Request, y: Request) {
    (x.limiter.Some? && x.limiter == y.limiter) || (x.kind.Loop? && x.kind == y.kind)
  }

  predicate InRange(p: Program, x: Request) {
    (x.limiter.Some? ==> x.limiter.value < |p.limits|) && (x.kind.Loop? ==> x.kind.do < |p.nodes|)
  }

  /** Request `r`, about to be placed, is related only to copies of itself, and to none unless it is a loop. */
  ghost predicate Free(p: Program, r: Request) {
    forall a: Ptr {:trigger Addresses(p, a)} | Addresses(p, a) && Related(Deref(p, a), r) ::
      Deref(p, a) == r && r.kind.Loop?
  }

  ghost predicate AllInRange(p: Program) {
    forall a: Ptr {:trigger Addresses(p, a)} | Addresses(p, a) :: InRange(p, Deref(p, a))
  }

  /** Requests at different places are related only if they are one and the same loop. */
  ghost predicate Apart(p: Program) {
    forall a: Ptr, b: Ptr {:trigger Addresses(p, a), Addresses(p, b)}
      | Addresses(p, a) && Addresses(p, b) && a != b && Related(Deref(p, a), Deref(p, b)) ::
      Deref(p, a) == Deref(p, b) && Deref(p, a).kind.Loop?
  }

  /** `q` has the same requests as `p`. */
  ghost predicate SameRequests(p: Program, q: Program) {
    && |p.nodes| <= |q.nodes| && |p.limits| <= |q.limits|
    && (forall k | 0 <= k < |p.nodes| :: q.nodes[k].children == p.nodes[k].children)
    && (forall k | |p.nodes| <= k < |q.nodes| :: q.nodes[k].children == [])
  }

  lemma SameKeeps(p: Program, q: Program)
    requires SameRequests(p, q) && AllInRange(p) && Apart(p)
    ensures AllInRange(q) && Apart(q)
  {
    forall a: Ptr | Addresses(q, a) ensures Addresses(p, a) && Deref(p, a) == Deref(q, a) {}
  }

  lemma SameFree(p: Program, q: Program, r: Request)
    requires SameRequests(p, q) && Free(p, r)
    ensures Free(q, r)
  {
    forall a: Ptr | Addresses(q, a) ensures Addresses(p, a) && Deref(p, a) == Deref(q, a) {}
  }

  /** What is out of range is related to nothing placed. */
  lemma NewIsFree(p: Program, r: Request)
    requires AllInRange(p)
    requires r.limiter.Some? ==> r.limiter.value >= |p.limits|
    requires r.kind.Loop? ==> r.kind.do >= |p.nodes|
    ensures Free(p, r)
  {}

  /** Request `r` placed at the end of node `n`. */
  lemma PlacedKeeps(p: Program, n: nat, r: Request, q: Program)
    requires n < |p.nodes| && AllInRange(p) && Apart(p) && Free(p, r) && InRange(p, r)
    requires q.nodes == AddSelf(p, n, r).nodes && q.limits == p.limits
    ensures AllInRange(q) && Apart(q)
  {
    var last := Ptr(n, |p.nodes[n].children|);
    forall a: Ptr | Addresses(q, a) ensures a == last || (Addresses(p, a) && Deref(p, a) == Deref(q, a)) {}
    assert Deref(q, last) == r;
  }

  lemma PlacedFree(p: Program, n: nat, r: Request, q: Program, x: Request)
    requires n < |p.nodes| && Free(p, x) && (Related(r, x) ==> r == x && x.kind.Loop?)
    requires q.nodes == AddSelf(p, n, r).nodes
    ensures Free(q, x)
  {
    var last := Ptr(n, |p.nodes[n].children|);
    forall a: Ptr | Addresses(q, a) ensures a == last || (Addresses(p, a) && Deref(p, a) == Deref(q, a)) {}
    assert Deref(q, last) == r;
  }

  // ----- what is reserved stays free -----

  lemma {:induction false} ParseBlockFree(p: Program, n: nat, b: Block, x: Request)
    requires n < |p.nodes| && Free(p, x) && InRange(p, x)
    ensures Free(ParseBlock(p, n, b), x)
    decreases b
  {
    hide Free;
    match b
    case End =>
    case Then(s, rest) =>
      ParseStmtFree(p, n, s, x);
      ParseBlockFree(ParseStmt(p, n, s), n, rest, x);
  }

  lemma {:induction false} ParseStmtFree(p: Program, n: nat, s: Stmt, x: Request)
    requires n < |p.nodes| && Free(p, x) && InRange(p, x)
    ensures Free(ParseStmt(p, n, s), x)
    decreases s, 1
  {
    hide Free, ParseArgs;
    if !s.Skipped? {
      var (p0, lim) := AddLimiter(p, s.h);
      var (p1, kind) := ParseArgs(p0, n, s, lim);
      SameFree(p, p0, x);
      ParseArgsFree(p0, n, s, lim, x);
      KindIsNew(p0, n, s, lim);
      PlacedFree(p1, n, Request(s.h, lim, kind), ParseStmt(p, n, s), x);
    }
  }

  lemma KindIsNew(p: Program, n: nat, s: Stmt, lim: Option<nat>)
    requires n < |p.nodes| && !s.Skipped?
    ensures var kind := ParseArgs(p, n, s, lim).1; kind.Loop? ==> kind.do == |p.nodes|
  {}

  lemma {:induction false} ParseArgsFree(p: Program, n: nat, s: Stmt, lim: Option<nat>, x: Request)
    requires n < |p.nodes| && !s.Skipped? && Free(p, x) && InRange(p, x)
    requires lim.Some? ==> x.limiter != lim
    ensures Free(ParseArgs(p, n, s, lim).0, x)
    decreases s, 0
  {
    hide Free, ParseBlock;
    var p1 := AddNode(p, n);
    SameFree(p, p1, x);
    match s
    case If(_, thn, els) =>
      var p2 := AddNode(p1, n);
      SameFree(p1, p2, x);
      ParseBlockFree(p2, |p.nodes|, thn, x);
      ParseBlockFree(ParseBlock(p2, |p.nodes|, thn), |p.nodes| + 1, els, x);
    case Switch(_, cases) =>
      ParseCasesFree(p, n, cases, x);
    case While(h, body, _) =>
      ParseBlockFree(p1, |p.nodes|, body, x);
      var r := Request(h, lim, Loop(|p.nodes|));
      PlacedFree(ParseBlock(p1, |p.nodes|, body), |p.nodes|, r, ParseWhile(p, n, s, r), x);
    case HollowWhile(_) =>
      SameFree(p1, ParseArgs(p, n, s, lim).0, x);
    case _ =>
  }

  lemma {:induction false} ParseCasesFree(p: Program, n: nat, cs: Cases, x: Request)
    requires n < |p.nodes| && Free(p, x) && InRange(p, x)
    ensures Free(ParseCases(p, n, cs).0, x)
    decreases cs
  {
    hide Free, ParseBlock;
    match cs
    case NoCases =>
    case Case(_, body, rest) =>
      SameFree(p, AddNode(p, n), x);
      ParseBlockFree(AddNode(p, n), |p.nodes|, body, x);
      ParseCasesFree(ParseBlock(AddNode(p, n), |p.nodes|, body), n, rest, x);
  }

  // ----- parsing keeps requests apart -----

  ghost predicate Tidy(p: Program) {
    AllInRange(p) && Apart(p)
  }

  lemma {:induction false} ParseBlockTidy(p: Program, n: nat, b: Block)
    requires n < |p.nodes| && Tidy(p)
    ensures Tidy(ParseBlock(p, n, b))
    decreases b
  {
    hide Tidy;
    match b
    case End =>
    case Then(s, rest) =>
      ParseStmtTidy(p, n, s);
      ParseBlockTidy(ParseStmt(p, n, s), n, rest);
  }

  lemma {:induction false} ParseStmtTidy(p: Program, n: nat, s: Stmt)
    requires n < |p.nodes| && Tidy(p)
    ensures Tidy(ParseStmt(p, n, s))
    decreases s, 1
  {
    hide AllInRange, Apart, Free, ParseArgs;
    if !s.Skipped? {
      var (p0, lim) := AddLimiter(p, s.h);
      var (p1, kind) := ParseArgs(p0, n, s, lim);
      var r := Request(s.h, lim, kind);
      SameKeeps(p, p0);
      NewIsFree(p, Request(s.h, lim, Loop(|p.nodes|)));
      SameFree(p, p0, Request(s.h, lim, Loop(|p.nodes|)));
      ParseArgsTidy(p0, n, s, lim);
      PlacedKeeps(p1, n, r, ParseStmt(p, n, s));
    }
  }

  /** A request that is free as a loop with that limiter is free as anything else. */
  lemma FreeAnyway(p: Program, r: Request, kind: Kind)
    requires Free(p, r) && AllInRange(p) && r.kind == Loop(|p.nodes|) && !kind.Loop?
    ensures Free(p, r.(kind := kind))
  {}

  /** The arguments of a statement, and then the request itself can be placed. */
  lemma {:induction false} ParseArgsTidy(p: Program, n: nat, s: Stmt, lim: Option<nat>)
    requires n < |p.nodes| && !s.Skipped? && Tidy(p) && (lim.Some? ==> lim.value < |p.limits|)
    requires Free(p, Request(s.h, lim, Loop(|p.nodes|)))
    ensures var (q, kind) := ParseArgs(p, n, s, lim);
            Tidy(q) && Free(q, Request(s.h, lim, kind)) && InRange(q, Request(s.h, lim, kind))
    decreases s, 0
  {
    hide AllInRange, Apart, Free, ParseBlock;
    var r := Request(s.h, lim, Loop(|p.nodes|));
    var r0 := Request(s.h, lim, App);
    FreeAnyway(p, r, App);
    var p1 := AddNode(p, n);
    SameKeeps(p, p1);
    SameFree(p, p1, r);
    SameFree(p, p1, r0);
    match s
    case Plain(_) =>
    case Break(_) => FreeAnyway(p, r, BreakApp);
    case If(_, thn, els) =>
      var p2 := AddNode(p1, n);
      SameKeeps(p1, p2);
      SameFree(p1, p2, r0);
      var p3 := ParseBlock(p2, |p.nodes|, thn);
      ParseBlockTidy(p2, |p.nodes|, thn);
      ParseBlockFree(p2, |p.nodes|, thn, r0);
      ParseBlockTidy(p3, |p.nodes| + 1, els);
      ParseBlockFree(p3, |p.nodes| + 1, els, r0);
      PlainFree(ParseIf(p, n, s), r0, Cond(|p.nodes|, |p.nodes| + 1));
    case Switch(_, cases) =>
      ParseCasesTidy(p, n, cases);
      ParseCasesFree(p, n, cases, r0);
      PlainFree(ParseCases(p, n, cases).0, r0, Choice(ParseCases(p, n, cases).1));
    case While(_, body, _) =>
      var p2 := ParseBlock(p1, |p.nodes|, body);
      ParseBlockTidy(p1, |p.nodes|, body);
      ParseBlockFree(p1, |p.nodes|, body, r);
      PlacedKeeps(p2, |p.nodes|, r, ParseWhile(p, n, s, r));
      PlacedFree(p2, |p.nodes|, r, ParseWhile(p, n, s, r), r);
    case HollowWhile(_) =>
      SameKeeps(p1, ParseArgs(p, n, s, lim).0);
      SameFree(p1, ParseArgs(p, n, s, lim).0, r);
  }

  lemma PlainFree(p: Program, r: Request, kind: Kind)
    requires Free(p, r) && !r.kind.Loop? && !kind.Loop?
    ensures Free(p, r.(kind := kind))
  {}

  lemma {:induction false} ParseCasesTidy(p: Program, n: nat, cs: Cases)
    requires n < |p.nodes| && Tidy(p)
    ensures Tidy(ParseCases(p, n, cs).0)
    decreases cs
  {
    hide AllInRange, Apart, ParseBlock;
    match cs
    case NoCases =>
    case Case(_, body, rest) =>
      SameKeeps(p, AddNode(p, n));
      ParseBlockTidy(AddNode(p, n), |p.nodes|, body);
      ParseCasesTidy(ParseBlock(AddNode(p, n), |p.nodes|, body), n, rest);
  }

  lemma CompileTidy(b: Block)
    ensures Tidy(Compile(b))
  {
    ParseBlockTidy(FRESH, 0, b);
  }

  // ----- main results -----

  /** Places `a` and `c` are the two places of one `while`: where it was written, and the end of its body. */
  ghost predicate PlacesOfOneLoop(p: Program, a: Ptr, c: Ptr)
    requires Addresses(p, a) && Addresses(p, c)
  {
    var kind := Deref(p, a).kind;
    && kind.Loop? && Deref(p, c).kind == kind
    && ((EndOfBody(p, a, kind.do) && AsWritten(p, c, kind.do))
        || (EndOfBody(p, c, kind.do) && AsWritten(p, a, kind.do)))
  }

  ghost predicate EndOfBody(p: Program, a: Ptr, d: nat)
    requires Addresses(p, a)
  {
    a.node == d && a.at + 1 == |Children(p, d)|
  }

  ghost predicate AsWritten(p: Program, a: Ptr, d: nat) {
    d < |p.nodes| && p.nodes[d].parent == Some(a.node) && p.nodes[d].idx == a.at
  }

  /** In every parsed schema, requests at two different places have the same limiter exactly if they are the
      two places of one `while` with a limit. */
  lemma LimitersAreOwn(b: Block, a: Ptr, c: Ptr)
    requires a != c && Addresses(Compile(b), a) && Addresses(Compile(b), c)
    requires Deref(Compile(b), a).limiter.Some?
    ensures var p := Compile(b);
            Deref(p, c).limiter == Deref(p, a).limiter <==> PlacesOfOneLoop(p, a, c)
  {
    var p := Compile(b);
    CompileWellFormed(b);
    CompileTidy(b);
    hide WellFormed, Compile;
    RequestFacts(p, a);
    RequestFacts(p, c);
  }

  /** How often event `e` is in the history. */
  function Times(hist: seq<Event>, e: Event): nat {
    if hist == [] then 0 else Times(hist[..|hist| - 1], e) + if hist[|hist| - 1] == e then 1 else 0
  }

  ghost predicate Placed(p: Program, e: Event) {
    exists a: Ptr :: Addresses(p, a) && e == Record(Deref(p, a))
  }

  /** Only requests of the tree are dispatched. */
  ghost predicate AllPlaced(p: Program, hist: seq<Event>) {
    forall i | 0 <= i < |hist| :: Placed(p, hist[i])
  }

  lemma TurnPlaced(p: Program, st: State, o: Oracle)
    requires WellFormed(p) && Ok(p, st) && AllPlaced(p, st.hist)
    ensures AllPlaced(p, Turn(p, st, o).st.hist)
  {
    hide WellFormed, OkPositions, OkSteps, Next, Handle, Goto;
    NextMoves(p, st);
  }

  lemma {:induction false} RoundsPlaced(p: Program, st: State, o: Oracle)
    requires WellFormed(p) && Ok(p, st) && AllPlaced(p, st.hist)
    ensures AllPlaced(p, Rounds(p, st, o).hist)
    decreases JumpsLeft(st), LoopsLeft(p, st), WorkLeft(p, st)
  {
    hide WellFormed, Ok, Turn, Work, StepsLeft, AllPlaced;
    TurnPlaced(p, st, o);
    match Turn(p, st, o)
    case Halt(_) =>
    case Continue(st') =>
      TurnLowers(p, st, o);
      RoundsPlaced(p, st', o);
  }

  lemma {:induction false} LifePlaced(p: Program, acts: seq<Act>)
    requires WellFormed(p)
    ensures AllPlaced(p, DoAll(p, acts).hist)
  {
    hide WellFormed, OkPositions, OkSteps, Rounds;
    if acts != [] {
      LifePlaced(p, acts[..|acts| - 1]);
      var st, act := DoAll(p, acts[..|acts| - 1]), acts[|acts| - 1];
      if act.Run? {
        RoundsPlaced(p, st.(interrupted := None), act.o);
      }
    }
  }

  /** What a limiter counts is the dispatches of its own request. */
  lemma {:induction false} LimiterCountsOwn(p: Program, hist: seq<Event>, a: Ptr, l: nat)
    requires Apart(p) && AllPlaced(p, hist) && Addresses(p, a) && Deref(p, a).limiter == Some(l)
    ensures Dispatched(hist, l) == Times(hist, Record(Deref(p, a)))
  {
    if hist != [] {
      LimiterCountsOwn(p, hist[..|hist| - 1], a, l);
      var e := hist[|hist| - 1];
      assert Placed(p, e);
      var c: Ptr :| Addresses(p, c) && e == Record(Deref(p, c));
      assert Related(Deref(p, a), Deref(p, c)) <== e.limiter == Some(l);
    }
  }

  /** Over the whole life of any parsed flow, a limiter stands at the number of times its own request was
      dispatched; so the request is refused exactly if it was dispatched `max` times, and never more often. */
  lemma RefusedExactlyAfterMax(b: Block, acts: seq<Act>, a: Ptr)
    requires Addresses(Compile(b), a) && Deref(Compile(b), a).limiter.Some?
    ensures WellFormed(Compile(b))
    ensures var p := Compile(b);
            var st := DoAll(p, acts);
            var l := Deref(p, a).limiter.value;
            && l < |p.limits| && Deref(p, a).h.limit == Some(p.limits[l])
            && At(st.sent, l) == Times(st.hist, Record(Deref(p, a))) <= p.limits[l].max
            && (At(st.sent, l) >= p.limits[l].max <==> Times(st.hist, Record(Deref(p, a))) == p.limits[l].max)
  {
    var p := Compile(b);
    CompileWellFormed(b);
    CompileTidy(b);
    hide WellFormed, Compile, DoAll, Times, Dispatched, Apart;
    RequestFacts(p, a);
    LifePlaced(p, acts);
    LifeIsThrifty(p, acts);
    var st, l := DoAll(p, acts), Deref(p, a).limiter.value;
    LimiterCountsOwn(p, st.hist, a, l);
    assert ThriftyLimiter(p, st.sent, st.hist, l);
  }
}
