/** Reachable flows in which repeating an interrupted request shows. */
module Witnesses {
  import opened Common
  import opened Schema
  import opened World
  import opened Tree
  import opened Parsing
  import opened Machine
  import opened Termination
  import opened Jumps
  import opened Interruption
  import opened Repetition

  // ----- a lost step -----

  /** A `while` with one plain request in its body. */
  function SmallLoop(w: Header, x: Header): Block {
    Then(While(w, Then(Plain(x), End), 10), End)
  }

  /** At the end of the first pass of that loop: the `while` and the plain request have been dispatched. */
  function EndOfPass(w: Header, x: Header): State {
    INITIAL.(pos := Put(Put(Put(ZERO, 0, 1), 1, 0), 1, 1), cur := 1, step := Put(ZERO, 1, 1),
             counter := Put(ZERO, 1, 1), entries := Put(ZERO, 1, 1),
             hist := [Sent(w, None, w.isBreak), Sent(x, None, x.isBreak)])
  }

  const ENDS_LOOP: Reply := Reply(No, "", None, false, Finished)

  lemma SmallLoopTree(w: Header, x: Header)
    requires w.limit == None && x.limit == None
    ensures var p := Compile(SmallLoop(w, x));
            && WellFormed(p) && |p.nodes| == 2
            && Children(p, 0) == [Request(w, None, Loop(1))]
            && Children(p, 1) == [Request(x, None, App), Request(w, None, Loop(1))]
            && p.nodes[1].parent == Some(0)
            && 1 in p.loops && p.loops[1] == LoopArgs(10, None)
            && Ok(p, EndOfPass(w, x))
  {
    var b := SmallLoop(w, x);
    var body := b.first.body;
    var p := Compile(b);
    CompileWellFormed(b);
    hide WellFormed, Compile;
    assert BlockNodes(body) == 0 && Length(body) == 1 && StmtNodes(b.first) == 1;
    assert BlockNodes(b) == 1 && Length(b) == 1;
    assert MirrorsStmt(p, 0, 0, b.first, 1);
    assert MirrorsKind(p, 0, 0, Children(p, 0)[0], b.first, 1);
    assert Mirrors(p, 1, 0, body, 2);
    assert MirrorsStmt(p, 1, 0, Plain(x), 2);
    assert MirrorsKind(p, 1, 0, Children(p, 1)[0], Plain(x), 2);
  }

  /** The world says no to the loop's condition and never interrupts. */
  const SAYS_NO: Oracle := h => ENDS_LOOP

  /** The same world, but the context is done just after each handler has run. */
  const SAYS_NO_AND_CUTS: Oracle := h => ENDS_LOOP.(finish := Cut(true))

  /** A new flow over that schema gets there in two rounds. */
  lemma SmallLoopPass(w: Header, x: Header)
    requires w.limit == None && x.limit == None && !w.isBreak && !x.isBreak
    ensures var p := Compile(SmallLoop(w, x));
            && WellFormed(p) && Ok(p, INITIAL)
            && After(p, INITIAL, SAYS_NO, 2) == Some(EndOfPass(w, x))
  {
    var p := Compile(SmallLoop(w, x));
    SmallLoopTree(w, x);
    hide WellFormed, Compile, Next, OkPositions, OkSteps;
    InitialOk(p);
    NextHere(p, INITIAL);
    var st1 := Turn(p, INITIAL, SAYS_NO).st;
    assert Turn(p, INITIAL, SAYS_NO) == Continue(st1);
    NextHere(p, st1);
    assert Turn(p, st1, SAYS_NO) == Continue(EndOfPass(w, x));
    assert After(p, INITIAL, SAYS_NO, 0) == Some(INITIAL);
    assert After(p, INITIAL, SAYS_NO, 1) == Some(st1);
  }

  lemma SmallLoopEnds(w: Header, x: Header)
    requires w.limit == None && x.limit == None && !w.isBreak
    ensures var p := Compile(SmallLoop(w, x));
            WellFormed(p) && Ok(p, EndOfPass(w, x)) && |Rounds(p, EndOfPass(w, x), SAYS_NO).hist| == 3
  {
    var p := Compile(SmallLoop(w, x));
    SmallLoopTree(w, x);
    hide WellFormed, Compile, Next, OkPositions, OkSteps;
    NextHere(p, EndOfPass(w, x));
    var st1 := Turn(p, EndOfPass(w, x), SAYS_NO).st;
    assert st1.cur == 1 && Pos(st1, 1) == 2 && Pos(st1, 0) == 1;
    assert Turn(p, EndOfPass(w, x), SAYS_NO) == Continue(st1);
    NextLeaves(p, st1);
    NextEnds(p, Leave(p, SetPrevious(p, st1), 0));
    assert Turn(p, st1, SAYS_NO).Halt?;
  }

  /** A flow about to dispatch the loop at step 0 goes round: it dispatches the loop and its body's request. */
  lemma SmallLoopGoesRound(w: Header, x: Header, up: State)
    requires w.limit == None && x.limit == None && !w.isBreak
    requires WellFormed(Compile(SmallLoop(w, x))) && Ok(Compile(SmallLoop(w, x)), up) && !up.cancel
    requires up.cur == 1 && Pos(up, 1) == 1 && At(up.step, 1) == 0 && At(up.counter, 1) == 2
    ensures |Rounds(Compile(SmallLoop(w, x)), up, SAYS_NO).hist| >= |up.hist| + 2
  {
    hide WellFormed, Compile, Next, OkPositions, OkSteps, Rounds, Turn, Handle, SmallLoop;
    var p := Compile(SmallLoop(w, x));
    SmallLoopTree(w, x);
    var st1 := SmallLoopEnters(w, x, up);
    RoundsGoOn(p, up, SAYS_NO, st1);
    NextHere(p, st1);
    RoundsExtend(p, st1, SAYS_NO);
    FirstSent(p, st1, SAYS_NO, Ptr(1, 0), Rounds(p, st1, SAYS_NO).hist[|st1.hist|..]);
  }

  lemma RoundsGoOn(p: Program, st: State, o: Oracle, st1: State)
    requires WellFormed(p) && Ok(p, st) && Ok(p, st1) && Turn(p, st, o) == Continue(st1)
    ensures Rounds(p, st, o) == Rounds(p, st1, o)
  {
    hide WellFormed, Ok, Turn;
  }

  lemma SmallLoopEnters(w: Header, x: Header, up: State) returns (st1: State)
    requires w.limit == None && x.limit == None && !w.isBreak
    requires WellFormed(Compile(SmallLoop(w, x))) && Ok(Compile(SmallLoop(w, x)), up) && !up.cancel
    requires up.cur == 1 && Pos(up, 1) == 1 && At(up.step, 1) == 0 && At(up.counter, 1) == 2
    ensures Ok(Compile(SmallLoop(w, x)), st1) && Turn(Compile(SmallLoop(w, x)), up, SAYS_NO) == Continue(st1)
    ensures st1.cur == 1 && Pos(st1, 1) == 0 && !st1.cancel && |st1.hist| == |up.hist| + 1
  {
    var p := Compile(SmallLoop(w, x));
    SmallLoopTree(w, x);
    hide WellFormed, Compile, Next, OkPositions, OkSteps;
    NextHere(p, up);
    st1 := Turn(p, up, SAYS_NO).st;
  }

  /** Cut off at the end of its first pass. */
  lemma SmallLoopCut(w: Header, x: Header)
    requires w.limit == None && x.limit == None && !w.isBreak
    ensures var p := Compile(SmallLoop(w, x));
            && WellFormed(p) && Ok(p, EndOfPass(w, x)) && CutAt(p, EndOfPass(w, x), SAYS_NO_AND_CUTS, Ptr(1, 1))
            && StepWasSpent(p, EndOfPass(w, x), SAYS_NO_AND_CUTS, Ptr(1, 1))
            && var cut := Turn(p, EndOfPass(w, x), SAYS_NO_AND_CUTS).st;
               && cut.cur == 1 && Pos(cut, 1) == 2 && cut.interrupted == Some(Ptr(1, 1))
               && At(cut.step, 1) == 0 && At(cut.counter, 1) == 2
  {
    var p := Compile(SmallLoop(w, x));
    SmallLoopTree(w, x);
    hide WellFormed, Compile, Next, OkPositions, OkSteps;
    NextHere(p, EndOfPass(w, x));
  }

  /** A flow cut off in that way, in a world that does not change: uninterrupted, the run dispatches one more
      request; taken up after the interruption, at least two. */
  lemma SpentStepShows(w: Header, x: Header) returns (up: State)
    requires w.limit == None && x.limit == None && !w.isBreak && !x.isBreak
    ensures var p := Compile(SmallLoop(w, x));
            && WellFormed(p) && Ok(p, INITIAL) && After(p, INITIAL, SAYS_NO, 2) == Some(EndOfPass(w, x))
            && Ok(p, EndOfPass(w, x)) && CutAt(p, EndOfPass(w, x), SAYS_NO_AND_CUTS, Ptr(1, 1))
            && TakenUp(p, EndOfPass(w, x), SAYS_NO_AND_CUTS, {w.name}, up) && Ok(p, up)
            && StepWasSpent(p, EndOfPass(w, x), SAYS_NO_AND_CUTS, Ptr(1, 1))
            && SameWorld(SAYS_NO, EndOfPass(w, x).hist, SAYS_NO, up.hist)
            && |Rounds(p, EndOfPass(w, x), SAYS_NO).hist| == |EndOfPass(w, x).hist| + 1
            && |Route(p, up, SAYS_NO).hist| >= |up.hist| + 2
  {
    var p := Compile(SmallLoop(w, x));
    SmallLoopTree(w, x);
    SmallLoopPass(w, x);
    SmallLoopEnds(w, x);
    SmallLoopCut(w, x);
    hide WellFormed, Compile, Next, OkPositions, OkSteps, Rounds, Turn, CutAt, StepWasSpent, After;
    up := RepeatInterrupted(p, Turn(p, EndOfPass(w, x), SAYS_NO_AND_CUTS).st, {w.name}).0.(cancel := false);
    SmallLoopGoesRound(w, x, up);
    assert up.(interrupted := None) == up;
  }

  // ----- a limiter used up -----

  /** One request that may be dispatched once. */
  function Once(h: Header): Block {
    Then(Plain(h), End)
  }

  /** The context is done before any handler runs. */
  const CUTS: Oracle := h => Reply(No, "", None, false, Cut(false))

  lemma OnceTree(h: Header, f: string)
    requires h.limit == Some(Limit(1, f))
    ensures var p := Compile(Once(h));
            && WellFormed(p) && Ok(p, INITIAL) && |p.nodes| == 1 && |Children(p, 0)| == 1
            && var r := Children(p, 0)[0];
               r.h == h && r.kind == App && r.limiter.Some? && r.limiter.value < |p.limits|
               && p.limits[r.limiter.value] == Limit(1, f)
  {
    var b := Once(h);
    CompileWellFormed(b);
    var p := Compile(b);
    InitialOk(p);
    hide WellFormed, Compile;
    assert BlockNodes(b) == 0 && Length(b) == 1;
    assert MirrorsStmt(p, 0, 0, Plain(h), 1);
    assert MirrorsKind(p, 0, 0, Children(p, 0)[0], Plain(h), 1);
  }

  /** The cut-off attempt was the only dispatch the limiter allows: taken up, the flow does not dispatch the
      request, although no step was lost and no jump was made. */
  lemma LastDispatchIsLost(h: Header, f: string, o2: Oracle) returns (up: State)
    requires h.limit == Some(Limit(1, f))
    ensures var p := Compile(Once(h));
            && WellFormed(p) && Ok(p, INITIAL) && CutAt(p, INITIAL, CUTS, Ptr(0, 0))
            && TakenUp(p, INITIAL, CUTS, {h.name}, up) && Ok(p, up)
            && LimitReached(p, INITIAL, Ptr(0, 0))
            && !StepWasLost(p, INITIAL, CUTS, Ptr(0, 0)) && !JumpShows(p, INITIAL, CUTS, Ptr(0, 0))
            && Turn(p, up, o2).st.hist == up.hist
  {
    var p := Compile(Once(h));
    OnceTree(h, f);
    hide WellFormed, Compile, Next, OkPositions, OkSteps;
    NextHere(p, INITIAL);
    var cut := Turn(p, INITIAL, CUTS).st;
    assert CutAt(p, INITIAL, CUTS, Ptr(0, 0));
    assert cut.cur == 0 && Pos(cut, 0) == 1 && cut.interrupted == Some(Ptr(0, 0));
    up := RepeatInterrupted(p, cut, {h.name}).0.(cancel := false);
    UpReady(p, INITIAL, CUTS, {h.name}, Ptr(0, 0), up);
    LimitStops(p, up, Ptr(0, 0), o2);
  }

  // ----- a jump that has moved a node -----

  function Named(name: string, tag: string): Header {
    Header("", name, tag, "", false, None)
  }

  /** The innermost block but one: an `if` around `x`, then `a` and `b`. */
  function Inner(): Block {
    Then(If(Named("if", ""), Then(Plain(Named("x", "deep")), End), End),
    Then(Plain(Named("a", "")), Then(Plain(Named("b", "next")), End)))
  }

  /** An `if` around that block, then `c`. */
  function Middle(): Block {
    Then(If(Named("if", ""), Inner(), End), Then(Plain(Named("c", "")), End))
  }

  /** A request that jumps, then an `if` around all that. */
  function Nest(): Block {
    Then(Plain(Named("go", "")), Then(If(Named("if", ""), Middle(), End), End))
  }

  /** What an `if` without an else block looks like in the tree. */
  lemma IfMirrored(p: Program, n: nat, i: nat, h: Header, thn: Block, base: nat)
    requires MirrorsStmt(p, n, i, If(h, thn, End), base)
    ensures n < |p.nodes| && i < |Children(p, n)| && base < |p.nodes|
    ensures Children(p, n)[i].h == h && Children(p, n)[i].kind == Cond(base, base + 1)
    ensures p.nodes[base].parent == Some(n) && p.nodes[base].idx == i && |Children(p, base)| == Length(thn)
    ensures Mirrors(p, base, 0, thn, base + 2)
  {
    assert MirrorsKind(p, n, i, Children(p, n)[i], If(h, thn, End), base);
  }

  lemma PlainMirrored(p: Program, n: nat, i: nat, h: Header, base: nat)
    requires MirrorsStmt(p, n, i, Plain(h), base)
    ensures n < |p.nodes| && i < |Children(p, n)|
    ensures Children(p, n)[i].h == h && Children(p, n)[i].kind == App
    ensures h.limit == None ==> Children(p, n)[i].limiter == None
  {
    assert MirrorsKind(p, n, i, Children(p, n)[i], Plain(h), base);
  }

  lemma InnerTree(p: Program, n: nat, base: nat)
    requires n < |p.nodes| && Mirrors(p, n, 0, Inner(), base)
    ensures base < |p.nodes| && |Children(p, n)| >= 2 && |Children(p, base)| == 1
    ensures p.nodes[base].parent == Some(n) && p.nodes[base].idx == 0
    ensures Children(p, base)[0] == Request(Named("x", "deep"), None, App)
    ensures Children(p, n)[1] == Request(Named("a", ""), None, App)
  {
    var x := Then(Plain(Named("x", "deep")), End);
    assert Inner().first == If(Named("if", ""), x, End) && Inner().rest.first == Plain(Named("a", ""));
    NamedIsUnlimited("x", "deep");
    NamedIsUnlimited("a", "");
    hide MirrorsStmt, Named;
    assert Length(x) == 1 && BlockNodes(x) == 0 && StmtNodes(Inner().first) == 2;
    assert Mirrors(p, n, 1, Inner().rest, base + 2);
    IfMirrored(p, n, 0, Named("if", ""), x, base);
    PlainMirrored(p, n, 1, Named("a", ""), base + 2);
    PlainMirrored(p, base, 0, Named("x", "deep"), base + 2);
  }

  lemma NamedIsUnlimited(name: string, tag: string)
    ensures Named(name, tag).limit == None
  {}

  lemma MiddleTree(p: Program, n: nat, base: nat)
    requires n < |p.nodes| && Mirrors(p, n, 0, Middle(), base)
    ensures base < |p.nodes| && |Children(p, n)| >= 2 && |Children(p, base)| == 3
    ensures p.nodes[base].parent == Some(n) && p.nodes[base].idx == 0
    ensures Mirrors(p, base, 0, Inner(), base + 2)
  {
    assert Middle().first == If(Named("if", ""), Inner(), End) && Length(Inner()) == 3;
    hide MirrorsStmt, Named;
    IfMirrored(p, n, 0, Named("if", ""), Inner(), base);
    assert Mirrors(p, n, 1, Middle().rest, base + StmtNodes(Middle().first));
    PlainMirrored(p, n, 1, Named("c", ""), base + StmtNodes(Middle().first));
  }

  /** The blocks are nodes 1, 3 and 5. */
  lemma NestTree(p: Program)
    requires |p.nodes| > 0 && Mirrors(p, 0, 0, Nest(), 1)
    ensures IsNestTree(p)
  {
    assert Length(Middle()) == 2;
    assert Nest() == Then(Plain(Named("go", "")), Then(If(Named("if", ""), Middle(), End), End));
    NamedIsUnlimited("go", "");
    hide Mirrors, Middle, Inner, Named, Length, Nest;
    OuterTree(p, Named("go", ""), Named("if", ""), Middle());
    MiddleTree(p, 1, 3);
    InnerTree(p, 3, 5);
  }

  ghost predicate IsNestTree(p: Program) {
    && |p.nodes| > 5
    && |Children(p, 0)| >= 1 && |Children(p, 1)| == 2 && |Children(p, 3)| == 3 && |Children(p, 5)| == 1
    && p.nodes[1].parent == Some(0) && p.nodes[3].parent == Some(1) && p.nodes[5].parent == Some(3)
    && p.nodes[3].idx == 0 && p.nodes[5].idx == 0
    && Children(p, 0)[0] == Request(Named("go", ""), None, App)
    && Children(p, 5)[0] == Request(Named("x", "deep"), None, App)
    && Children(p, 3)[1] == Request(Named("a", ""), None, App)
  }

  /** An `if` after a request, at the root. */
  lemma OuterTree(p: Program, g: Header, h: Header, thn: Block)
    requires |p.nodes| > 0 && g.limit == None && Mirrors(p, 0, 0, Then(Plain(g), Then(If(h, thn, End), End)), 1)
    ensures |p.nodes| > 1 && |Children(p, 0)| >= 1 && |Children(p, 1)| == Length(thn) && p.nodes[1].parent == Some(0)
    ensures Children(p, 0)[0] == Request(g, None, App) && Mirrors(p, 1, 0, thn, 3)
  {
    hide MirrorsStmt;
    assert Mirrors(p, 0, 1, Then(If(h, thn, End), End), 1);
    PlainMirrored(p, 0, 0, g, 1);
    IfMirrored(p, 0, 1, h, thn, 1);
  }

  lemma InnerTags(t: string)
    requires t == "deep" || t == "next"
    ensures LastTagged(Inner(), 3, 0, 5, t) == Some(if t == "deep" then Ptr(5, 0) else Ptr(3, 2))
  {
    var x := Then(Plain(Named("x", "deep")), End);
    var i := Inner().first;
    assert StmtNodes(i) == 2;
    var ab := Inner().rest;
    assert LastTagged(x, 5, 0, 7, t) == if t == "deep" then Some(Ptr(5, 0)) else None;
    assert LastTagged(End, 6, 0, 7, t) == None;
    assert LastTaggedIn(i, 3, 0, 5, t) == if t == "deep" then Some(Ptr(5, 0)) else None;
    assert LastTagged(ab.rest, 3, 2, 7, t) == if t == "deep" then None else Some(Ptr(3, 2));
    assert LastTagged(ab, 3, 1, 7, t) == if t == "deep" then None else Some(Ptr(3, 2));
  }

  lemma MiddleTags(t: string)
    requires t == "deep" || t == "next"
    ensures LastTagged(Middle(), 1, 0, 3, t) == LastTagged(Inner(), 3, 0, 5, t)
    ensures LastTagged(Inner(), 3, 0, 5, t).Some?
  {
    InnerTags(t);
    hide Inner;
    var m := Middle().first;
    assert LastTagged(End, 4, 0, 5 + BlockNodes(Inner()), t) == None;
    assert LastTaggedIn(m, 1, 0, 3, t) == LastTagged(Inner(), 3, 0, 5, t);
    assert LastTagged(Middle().rest, 1, 1, 3 + StmtNodes(m), t) == None;
  }

  /** A tag inside an `if` that comes after a request. */
  lemma TagInside(g: Header, h: Header, thn: Block, t: string)
    requires g.tag != t && h.tag != t && LastTagged(thn, 1, 0, 3, t).Some?
    ensures LastTagged(Then(Plain(g), Then(If(h, thn, End), End)), 0, 0, 1, t) == LastTagged(thn, 1, 0, 3, t)
  {
    var i := If(h, thn, End);
    assert LastTagged(End, 2, 0, 3 + BlockNodes(thn), t) == None;
    assert LastTaggedIn(i, 0, 1, 1, t) == LastTagged(thn, 1, 0, 3, t);
    assert LastTagged(Then(i, End), 0, 1, 1, t) == LastTaggedIn(i, 0, 1, 1, t);
  }

  lemma NestTags(t: string)
    requires t == "deep" || t == "next"
    ensures t in Compile(Nest()).tags
    ensures Compile(Nest()).tags[t] == if t == "deep" then Ptr(5, 0) else Ptr(3, 2)
  {
    hide LastTagged, Compile, Middle, Inner;
    LastRegistrationWins(Nest(), t);
    InnerTags(t);
    MiddleTags(t);
    TagInside(Named("go", ""), Named("if", ""), Middle(), t);
  }

  /** The program of that schema, as far as the run below looks at it. */
  ghost predicate IsNest(p: Program) {
    && WellFormed(p) && Ok(p, INITIAL) && IsNestTree(p)
    && "deep" in p.tags && p.tags["deep"] == Ptr(5, 0) && "next" in p.tags && p.tags["next"] == Ptr(3, 2)
  }

  lemma NestIsNest()
    ensures IsNest(Compile(Nest()))
  {
    var p := Compile(Nest());
    CompileWellFormed(Nest());
    NestTags("deep");
    NestTags("next");
    hide WellFormed, OkPositions, OkSteps, Compile, IsNestTree, Nest;
    InitialOk(p);
    NestTree(p);
  }

  /** The first request jumps to `deep`; the third one jumps to `next` and is cut off. */
  function Scripted(h: seq<Event>): Reply {
    if |h| == 1 then Reply(No, "", Some("deep"), false, Finished)
    else if |h| == 3 then Reply(No, "", Some("next"), false, Cut(true))
    else Reply(No, "", None, false, Finished)
  }

  const SCRIPTED: Oracle := Scripted

  /** After the jump, the block around the target's parent stands at its end. */
  ghost predicate Jumped(st: State, at: nat) {
    && st.cur == 5 && Pos(st, 5) == at && Pos(st, 3) == 1 && Pos(st, 1) == 2
    && st.gotos == 1 && !st.cancel && st.interrupted == None && |st.hist| == at + 1
  }

  lemma FirstRound(p: Program) returns (st: State)
    requires IsNest(p)
    ensures Turn(p, INITIAL, SCRIPTED) == Continue(st) && Jumped(st, 0)
  {
    hide WellFormed, OkPositions, OkSteps, Next, Goto, Untouched;
    NextHere(p, INITIAL);
    var x := Next(p, INITIAL).0;
    assert Next(p, INITIAL) == (x, Some(Ptr(0, 0)));
    TurnUnlimited(p, INITIAL, SCRIPTED, x, Ptr(0, 0));
    var h := x.(hist := x.hist + [Record(Children(p, 0)[0])]);
    hide Turn;
    st := Goto(p, h, "deep").0;
    assert Handle(p, h, Ptr(0, 0), SCRIPTED(h.hist)) == Goto(p, h.(cancel := false), "deep").0;
    assert h.(cancel := false) == h;
    JumpLands(p, h, "deep");
    JumpPositions(p, h, "deep", 3);
    JumpPositions(p, h, "deep", 1);
    UntouchedSelf(p, Put(h.pos, h.cur, 0), 1);
  }

  lemma SecondRound(p: Program, st: State) returns (st2: State)
    requires IsNest(p) && Ok(p, st) && Jumped(st, 0)
    ensures Turn(p, st, SCRIPTED) == Continue(st2) && Jumped(st2, 1)
  {
    hide WellFormed, OkPositions, OkSteps, Next, Goto;
    NextHere(p, st);
    var x := Next(p, st).0;
    assert Next(p, st) == (x, Some(Ptr(5, 0)));
    TurnUnlimited(p, st, SCRIPTED, x, Ptr(5, 0));
    hide Turn;
    st2 := x.(hist := x.hist + [Record(Children(p, 5)[0])]);
    assert st2.(cancel := false) == st2;
  }

  /** The third request is cut off after it has jumped to its own successor. */
  lemma ThirdRound(p: Program, st: State) returns (up: State)
    requires IsNest(p) && Ok(p, st) && Jumped(st, 1)
    ensures CutAt(p, st, SCRIPTED, Ptr(3, 1)) && TakenUp(p, st, SCRIPTED, {"a"}, up)
    ensures JumpShows(p, st, SCRIPTED, Ptr(3, 1))
  {
    hide WellFormed, OkPositions, OkSteps, Next, Goto, Turn;
    NextLeaves(p, st);
    var st1 := Leave(p, SetPrevious(p, st), 3);
    NextHere(p, st1);
    var x := Next(p, st).0;
    assert Next(p, st).1 == Some(Ptr(3, 1)) && x.cur == 3 && Pos(x, 3) == 2 && Pos(x, 1) == 2;
    assert CutAt(p, st, SCRIPTED, Ptr(3, 1));
    assert !Settled(p, x, 3);
    CutLeaves(p, st, SCRIPTED, Ptr(3, 1));
    var h := Handing(p, st, Ptr(3, 1));
    JumpLands(p, h, "next");
    assert h.(cancel := false) == h;
    var cut := Turn(p, st, SCRIPTED).st;
    assert cut.cur == 3 && Pos(cut, 3) == 2 && cut.interrupted == Some(Ptr(3, 1));
    up := RepeatInterrupted(p, cut, {"a"}).0.(cancel := false);
  }

  /** A flow over that schema gets, in two rounds, to where a cut-off jump shows when it is repeated. */
  ghost predicate ShowsMovedNode(p: Program, st: State, up: State)
    requires WellFormed(p) && Ok(p, INITIAL)
  {
    && After(p, INITIAL, SCRIPTED, 2) == Some(st) && Ok(p, st)
    && CutAt(p, st, SCRIPTED, Ptr(3, 1)) && TakenUp(p, st, SCRIPTED, {"a"}, up) && Ok(p, up)
    && JumpShows(p, st, SCRIPTED, Ptr(3, 1)) && !RepeatsAlike(p, st, up, Ptr(3, 1))
  }

  lemma RunsToMovedNode(p: Program) returns (st: State, up: State)
    requires IsNest(p)
    ensures WellFormed(p) && Ok(p, INITIAL) && ShowsMovedNode(p, st, up)
  {
    assert WellFormed(p) && Ok(p, INITIAL);
    hide WellFormed, Ok, Turn, IsNest, CutAt, TakenUp, JumpShows, Jumped, RepeatsAlike;
    var st1 := FirstRound(p);
    st := SecondRound(p, st1);
    up := ThirdRound(p, st);
    assert After(p, INITIAL, SCRIPTED, 0) == Some(INITIAL);
    assert After(p, INITIAL, SCRIPTED, 1) == Some(st1);
    RepeatsAlikeExactlyIf(p, st, SCRIPTED, {"a"}, Ptr(3, 1), up);
  }

  lemma MovedNodeShows() returns (st: State, up: State)
    ensures var p := Compile(Nest()); WellFormed(p) && Ok(p, INITIAL) && ShowsMovedNode(p, st, up)
  {
    hide *;
    NestIsNest();
    st, up := RunsToMovedNode(Compile(Nest()));
  }
}
