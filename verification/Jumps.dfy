/** Tags, jumps, and how a `while` tells being reached from outside from reaching its own end. */
module Jumps {
  import opened Common
  import opened Schema
  import opened World
  import opened Tree
  import opened Parsing
  import opened Machine

  // ----- the while request and the request before it -----

  /** The test `previous request == originalParent` of a loop with a body is true exactly when the loop is
      reached where it was written (fall-through, outer loop or jump), and false at the end of its body. */
  lemma LoopKnowsItsCaller(p: Program, st: State, d: nat)
    requires WellFormed(p) && Ok(p, st) && Next(p, st).1.Some?
    requires Deref(p, Next(p, st).1.value).kind == Loop(d) && d < |p.nodes| && |Children(p, d)| >= 2
    ensures d in p.loops
    ensures Next(p, st).0.prev == p.loops[d].originalParent <==> Next(p, st).1.value.node != d
  {
    hide WellFormed, Next, OkPositions, OkSteps;
    NextAdvances(p, st);
    RequestFacts(p, Next(p, st).1.value);
  }

  // ----- which request a tag names -----

  /** The last request tagged `t` in a block, where a statement comes after the blocks nested in it. */
  function LastTagged(b: Block, n: nat, i: nat, base: nat, t: string): Option<Ptr>
    decreases b
  {
    match b
    case End => None
    case Then(s, rest) =>
      var later := LastTagged(rest, n, i + Width(s), base + StmtNodes(s), t);
      if later.Some? then later else LastTaggedIn(s, n, i, base, t)
  }

  function LastTaggedIn(s: Stmt, n: nat, i: nat, base: nat, t: string): Option<Ptr>
    decreases s
  {
    if s.Skipped? then None
    else if s.h.tag == t then Some(Ptr(n, i))
    else
      match s
      case If(_, thn, els) =>
        var inElse := LastTagged(els, base + 1, 0, base + 2 + BlockNodes(thn), t);
        if inElse.Some? then inElse else LastTagged(thn, base, 0, base + 2, t)
      case Switch(_, cases) => LastTaggedCase(cases, base, t)
      case While(_, body, _) => LastTagged(body, base, 0, base + 1, t)
      case _ => None
  }

  function LastTaggedCase(cs: Cases, base: nat, t: string): Option<Ptr>
    decreases cs
  {
    match cs
    case NoCases => None
    case Case(_, body, rest) =>
      var later := LastTaggedCase(rest, base + 1 + BlockNodes(body), t);
      if later.Some? then later else LastTagged(body, base, 0, base + 1, t)
  }

  function Lookup(p: Program, t: string): Option<Ptr> {
    if t in p.tags then Some(p.tags[t]) else None
  }

  function Or(a: Option<Ptr>, b: Option<Ptr>): Option<Ptr> {
    if a.Some? then a else b
  }

  lemma {:induction false} ParseBlockLast(p: Program, n: nat, b: Block, t: string)
    requires n < |p.nodes| && t != ""
    ensures Lookup(ParseBlock(p, n, b), t) == Or(LastTagged(b, n, |Children(p, n)|, |p.nodes|, t), Lookup(p, t))
    decreases b
  {
    match b
    case End =>
    case Then(s, rest) =>
      ParseStmtLast(p, n, s, t);
      ParseBlockLast(ParseStmt(p, n, s), n, rest, t);
  }

  lemma {:induction false} ParseStmtLast(p: Program, n: nat, s: Stmt, t: string)
    requires n < |p.nodes| && t != ""
    ensures Lookup(ParseStmt(p, n, s), t) == Or(LastTaggedIn(s, n, |Children(p, n)|, |p.nodes|, t), Lookup(p, t))
    decreases s, 1
  {
    hide ParseArgs, Grown;
    if !s.Skipped? {
      var (p0, lim) := AddLimiter(p, s.h);
      ParseArgsLast(p0, n, s, lim, t);
    }
  }

  /** The part of LastTaggedIn that looks into the nested blocks. */
  function LastNested(s: Stmt, base: nat, t: string): Option<Ptr>
  {
    match s
    case If(_, thn, els) =>
      Or(LastTagged(els, base + 1, 0, base + 2 + BlockNodes(thn), t), LastTagged(thn, base, 0, base + 2, t))
    case Switch(_, cases) => LastTaggedCase(cases, base, t)
    case While(_, body, _) => LastTagged(body, base, 0, base + 1, t)
    case _ => None
  }

  lemma {:induction false} ParseArgsLast(p: Program, n: nat, s: Stmt, lim: Option<nat>, t: string)
    requires n < |p.nodes| && !s.Skipped? && t != ""
    ensures Lookup(ParseArgs(p, n, s, lim).0, t) == Or(LastNested(s, |p.nodes|, t), Lookup(p, t))
    decreases s, 0
  {
    hide ParseBlock;
    match s
    case If(_, thn, els) =>
      var p1 := AddNode(AddNode(p, n), n);
      ParseBlockLast(p1, |p.nodes|, thn, t);
      ParseBlockLast(ParseBlock(p1, |p.nodes|, thn), |p.nodes| + 1, els, t);
    case Switch(_, cases) => ParseCasesLast(p, n, cases, t);
    case While(_, body, _) => ParseBlockLast(AddNode(p, n), |p.nodes|, body, t);
    case _ =>
  }

  lemma {:induction false} ParseCasesLast(p: Program, n: nat, cs: Cases, t: string)
    requires n < |p.nodes| && t != ""
    ensures Lookup(ParseCases(p, n, cs).0, t) == Or(LastTaggedCase(cs, |p.nodes|, t), Lookup(p, t))
    decreases cs
  {
    hide ParseBlock;
    match cs
    case NoCases =>
    case Case(_, body, rest) =>
      ParseBlockLast(AddNode(p, n), |p.nodes|, body, t);
      ParseCasesLast(ParseBlock(AddNode(p, n), |p.nodes|, body), n, rest, t);
  }

  /** In a parsed schema a tag names the request that carries it last. */
  lemma LastRegistrationWins(b: Block, t: string)
    requires t != ""
    ensures t in Compile(b).tags <==> LastTagged(b, 0, 0, 1, t).Some?
    ensures t in Compile(b).tags ==> Compile(b).tags[t] == LastTagged(b, 0, 0, 1, t).value
  {
    ParseBlockLast(FRESH, 0, b, t);
  }

  // ----- after a jump -----

  /** A jump at any depth is followed by the request the tag names. */
  lemma JumpReachesTag(p: Program, st: State, t: string)
    requires WellFormed(p) && Ok(p, st) && Goto(p, st, t).1
    ensures Next(p, Goto(p, st, t).0).1 == Some(p.tags[t])
    ensures Addresses(p, p.tags[t]) && Deref(p, p.tags[t]).h.tag == t
  {
    hide OkPositions, OkSteps, Next, CompleteUp;
    var st1 := Goto(p, st, t).0;
    NextHere(p, st1);
  }

  /** Node `k` is `n` or nested in it at some depth. */
  ghost predicate Inside(p: Program, k: nat, n: nat)
    requires WellFormed(p) && k < |p.nodes|
    decreases k
  {
    ParentFacts(p, k);
    k == n || (k > n && Inside(p, p.nodes[k].parent.value, n))
  }

  lemma {:induction false} InsideIsAfter(p: Program, k: nat, n: nat)
    requires WellFormed(p) && k < |p.nodes| && Inside(p, k, n)
    ensures k >= n
  {}

  // ----- what NextRequest finds, and where it leaves every node -----

  ghost predicate UsedUp(p: Program, st: State, k: nat)
    requires k < |p.nodes|
  {
    Pos(st, k) >= |Children(p, k)|
  }

  /** Node `n` is the innermost one around the cursor that is not used up. */
  ghost predicate Innermost(p: Program, st: State, n: nat)
    requires WellFormed(p) && Ok(p, st)
  {
    && Inside(p, st.cur, n) && !(n < |p.nodes| && UsedUp(p, st, n))
    && forall k: nat | n < k < |p.nodes| && Inside(p, st.cur, k) :: UsedUp(p, st, k)
  }

  /** The next request is the one at the position of the innermost node that is not used up; that node moves on
      by one, the nodes left on the way are rewound, and all others stay. If all nodes around the cursor are
      used up there is no next request, and they are all rewound. */
  lemma {:induction false} NextFinds(p: Program, st: State, k: nat)
    requires WellFormed(p) && Ok(p, st) && k < |p.nodes|
    ensures var (x, next) := Next(p, st);
            if next.Some? then
              && Innermost(p, st, next.value.node) && next.value.at == Pos(st, next.value.node)
              && Pos(x, k) == if k == next.value.node then Pos(st, k) + 1
                              else if k > next.value.node && Inside(p, st.cur, k) then 0 else Pos(st, k)
            else
              && (Inside(p, st.cur, k) ==> UsedUp(p, st, k))
              && Pos(x, k) == if Inside(p, st.cur, k) then 0 else Pos(st, k)
    decreases st.cur
  {
    hide WellFormed, OkPositions, OkSteps, Next;
    var n := st.cur;
    assert Inside(p, n, n);
    if Pos(st, n) < |Children(p, n)| {
      NextHere(p, st);
      forall j: nat | Inside(p, n, j) ensures j <= n {
        InsideIsAfter(p, n, j);
      }
    } else if n == 0 {
      NextEnds(p, st);
      if Inside(p, n, k) {
        InsideIsAfter(p, n, k);
      }
    } else {
      NextLeaves(p, st);
      var m := p.nodes[n].parent.value;
      var to := Leave(p, SetPrevious(p, st), m);
      NextFinds(p, to, k);
      if Inside(p, m, k) {
        InsideIsAfter(p, m, k);
      }
      var next := Next(p, st).1;
      if next.Some? {
        var a := next.value.node;
        InsideIsAfter(p, m, a);
        forall j: nat | a < j < |p.nodes| && Inside(p, n, j) ensures UsedUp(p, st, j) {
          if j != n {
            InsideIsAfter(p, m, j);
            assert UsedUp(p, to, j);
          }
        }
      }
    }
  }

  /** Node `k`, not the root, is `n` or above it, and it and everything between them stands at position 0. */
  ghost predicate Untouched(p: Program, pos: Table, n: nat, k: nat)
    requires WellFormed(p) && n < |p.nodes|
  {
    0 < k && Inside(p, n, k) && forall m: nat | k <= m <= n && Inside(p, n, m) :: At(pos, m) == 0
  }

  lemma {:induction false} UntouchedUp(p: Program, pos: Table, n: nat, k: nat, pos': Table)
    requires WellFormed(p) && 0 < n < |p.nodes| && At(pos, n) == 0 && k != n
    requires p.nodes[n].parent.Some? && p.nodes[n].parent.value < n && pos' == Put(pos, n, |Children(p, n)|)
    ensures Untouched(p, pos, n, k) <==> Untouched(p, pos', p.nodes[n].parent.value, k)
  {
    hide WellFormed;
    var q := p.nodes[n].parent.value;
    forall m: nat | m < n ensures Inside(p, n, m) <==> Inside(p, q, m) {}
    if Inside(p, q, k) {
      InsideIsAfter(p, q, k);
    }
    if k < n && Untouched(p, pos, n, k) {
      forall m: nat | k <= m <= q && Inside(p, q, m) ensures At(pos', m) == 0 {
        assert Inside(p, n, m);
      }
    }
    if k < n && Untouched(p, pos', q, k) {
      forall m: nat | k <= m <= n && Inside(p, n, m) ensures At(pos, m) == 0 {
        if m < n {
          InsideIsAfter(p, q, m);
          assert At(pos', m) == 0;
        }
      }
    }
  }

  /** CompleteTreeTraversal from node `n` moves exactly the untouched nodes on the way up to their ends. */
  lemma {:induction false} CompletesUntouched(p: Program, pos: Table, n: nat, k: nat)
    requires WellFormed(p) && n < |p.nodes| && k < |p.nodes|
    ensures At(CompleteUp(p, pos, Some(n)), k)
         == if Untouched(p, pos, n, k) then |Children(p, k)| else At(pos, k)
    decreases n
  {
    hide WellFormed;
    ParentFacts(p, n);
    if n > 0 && At(pos, n) == 0 {
      var q := p.nodes[n].parent.value;
      var pos1 := Put(pos, n, |Children(p, n)|);
      assert CompleteUp(p, pos, Some(n)) == CompleteUp(p, pos1, Some(q));
      CompletesUntouched(p, pos1, q, k);
      if k == n {
        assert Inside(p, n, n);
        NotInside(p, q, n);
      } else {
        UntouchedUp(p, pos, n, k, pos1);
      }
    } else if Untouched(p, pos, n, k) {
      assert Inside(p, n, n);
      InsideIsAfter(p, n, k);
      assert false;
    }
  }

  lemma NotInside(p: Program, k: nat, n: nat)
    requires WellFormed(p) && k < |p.nodes| && k < n
    ensures !Inside(p, k, n)
  {}

  lemma UntouchedBelow(p: Program, pos: Table, pos': Table, n: nat, k: nat)
    requires WellFormed(p) && n < |p.nodes| && forall j: nat | j <= n :: At(pos', j) == At(pos, j)
    ensures Untouched(p, pos', n, k) <==> Untouched(p, pos, n, k)
  {
    hide WellFormed;
  }

  /** The position of every node after a jump: the target block stands at the tag, the node left is rewound,
      the parent of the target block stands behind the statement that holds it, and of the nodes above that
      exactly the untouched ones are taken to their ends. */
  lemma JumpPositions(p: Program, st: State, t: string, k: nat)
    requires WellFormed(p) && Ok(p, st) && Goto(p, st, t).1 && k < |p.nodes|
    ensures p.tags[t].node < |p.nodes|
    ensures var n := p.tags[t].node;
            var m := p.nodes[n].parent;
            var kept := if k == st.cur then 0 else Pos(st, k);
            && (m.Some? ==> m.value < n && (p.nodes[m.value].parent.Some? ==> p.nodes[m.value].parent.value < m.value))
            && Pos(Goto(p, st, t).0, k) ==
               if k == n then p.tags[t].at
               else if m.None? then kept
               else if k == m.value then p.nodes[n].idx + 1
               else if p.nodes[m.value].parent.None? then kept
               else if Untouched(p, Put(st.pos, st.cur, 0), p.nodes[m.value].parent.value, k) then |Children(p, k)|
               else kept
  {
    hide OkPositions, OkSteps, Untouched, CompleteUp;
    var n := p.tags[t].node;
    ParentFacts(p, n);
    var pos0 := Put(st.pos, st.cur, 0);
    var pos1 := Put(pos0, n, p.tags[t].at);
    if n > 0 {
      var m := p.nodes[n].parent.value;
      ParentFacts(p, m);
      if m > 0 {
        var q := p.nodes[m].parent.value;
        var pos2 := Put(pos1, m, p.nodes[n].idx + 1);
        CompletesUntouched(p, pos2, q, k);
        UntouchedBelow(p, pos0, pos2, q, k);
        if k > q {
          assert At(CompleteUp(p, pos2, Some(q)), k) == At(pos2, k);
        }
      }
    }
  }

  /** The cursor and all positions are the same. */
  ghost predicate SamePlace(p: Program, st: State, st2: State) {
    st2.cur == st.cur && forall k: nat | k < |p.nodes| :: Pos(st2, k) == Pos(st, k)
  }

  lemma JumpLands(p: Program, st: State, t: string)
    requires WellFormed(p) && Ok(p, st) && Goto(p, st, t).1
    ensures var a := p.tags[t]; Goto(p, st, t).0.cur == a.node && Pos(Goto(p, st, t).0, a.node) == a.at
  {
    hide WellFormed, OkPositions, OkSteps;
  }

  /** From the same place a jump goes to the same place. */
  lemma JumpsAlike(p: Program, x: State, x2: State, t: string)
    requires WellFormed(p) && Ok(p, x) && Ok(p, x2) && SamePlace(p, x, x2)
    requires Goto(p, x, t).1 && Goto(p, x2, t).1
    ensures SamePlace(p, Goto(p, x, t).0, Goto(p, x2, t).0)
  {
    hide WellFormed, OkPositions, OkSteps, Goto, Untouched;
    JumpLands(p, x, t);
    JumpLands(p, x2, t);
    forall k: nat | k < |p.nodes| ensures Pos(Goto(p, x2, t).0, k) == Pos(Goto(p, x, t).0, k) {
      JumpPositions(p, x, t, k);
      JumpPositions(p, x2, t, k);
      var m := p.nodes[p.tags[t].node].parent;
      if m.Some? && p.nodes[m.value].parent.Some? {
        var q := p.nodes[m.value].parent.value;
        forall j: nat | j <= q ensures At(Put(x2.pos, x2.cur, 0), j) == At(Put(x.pos, x.cur, 0), j) {
          assert Pos(x2, j) == Pos(x, j);
        }
        UntouchedBelow(p, Put(x.pos, x.cur, 0), Put(x2.pos, x2.cur, 0), q, k);
      }
    }
  }

  /** The parent of node `n` stands behind the statement that holds it, and the node above that is the root or
      is under way. */
  ghost predicate Settled(p: Program, st: State, n: nat)
    requires WellFormed(p) && n < |p.nodes|
  {
    ParentFacts(p, n);
    var m := p.nodes[n].parent;
    m.None? ||
      (ParentFacts(p, m.value);
       var q := p.nodes[m.value].parent;
       Pos(st, m.value) == p.nodes[n].idx + 1 && (q.None? || q.value == 0 || Pos(st, q.value) != 0))
  }

  /** A jump to where the cursor stands leaves all positions alone exactly if its node is settled. */
  lemma JumpStays(p: Program, st: State, t: string)
    requires WellFormed(p) && Ok(p, st) && Goto(p, st, t).1 && p.tags[t] == Ptr(st.cur, Pos(st, st.cur))
    ensures SamePlace(p, st, Goto(p, st, t).0) <==> Settled(p, st, st.cur)
  {
    hide WellFormed, OkPositions, OkSteps, Goto, Untouched;
    var n := st.cur;
    ParentFacts(p, n);
    var to := Goto(p, st, t).0;
    assert to.cur == n by { JumpLands(p, st, t); }
    if Settled(p, st, n) {
      forall k: nat | k < |p.nodes| ensures Pos(to, k) == Pos(st, k) {
        JumpStaysAt(p, st, t, k);
      }
    } else {
      var m := p.nodes[n].parent.value;
      ParentFacts(p, m);
      JumpPositions(p, st, t, m);
      if Pos(st, m) == p.nodes[n].idx + 1 {
        var q := p.nodes[m].parent.value;
        JumpPositions(p, st, t, q);
        UntouchedSelf(p, Put(st.pos, n, 0), q);
        ParentFacts(p, q);
        assert Pos(to, q) != Pos(st, q);
      }
    }
  }

  lemma UntouchedSelf(p: Program, pos: Table, q: nat)
    requires WellFormed(p) && 0 < q < |p.nodes|
    ensures Untouched(p, pos, q, q) <==> At(pos, q) == 0
  {
    hide WellFormed;
    assert Inside(p, q, q);
  }

  lemma NotUntouched(p: Program, pos: Table, q: nat, k: nat)
    requires WellFormed(p) && q < |p.nodes| && (q == 0 || At(pos, q) != 0)
    ensures !Untouched(p, pos, q, k)
  {
    hide WellFormed;
    assert Inside(p, q, q);
    if Untouched(p, pos, q, k) {
      InsideIsAfter(p, q, k);
      assert false;
    }
  }

  lemma JumpStaysAt(p: Program, st: State, t: string, k: nat)
    requires WellFormed(p) && Ok(p, st) && Goto(p, st, t).1 && p.tags[t] == Ptr(st.cur, Pos(st, st.cur))
    requires Settled(p, st, st.cur) && k < |p.nodes|
    ensures Pos(Goto(p, st, t).0, k) == Pos(st, k)
  {
    hide WellFormed, OkPositions, OkSteps, Goto, Untouched;
    ParentFacts(p, st.cur);
    JumpPositions(p, st, t, k);
    var m := p.nodes[st.cur].parent;
    if m.Some? && p.nodes[m.value].parent.Some? {
      NotUntouched(p, Put(st.pos, st.cur, 0), p.nodes[m.value].parent.value, k);
    }
  }

  lemma SettledMarked(p: Program, st: State, st2: State, n: nat)
    requires WellFormed(p) && n < |p.nodes| && st2.pos == st.pos
    ensures Settled(p, st2, n) <==> Settled(p, st, n)
  {
    hide WellFormed;
  }

  /** The cursor is inside block `n`, and the parent `m` of `n` will go on at place `i`. */
  ghost predicate Held(p: Program, st: State, n: nat, m: nat, i: nat)
    requires WellFormed(p) && Ok(p, st)
  {
    && 0 < n < |p.nodes| && p.nodes[n].parent == Some(m) && m < n
    && Inside(p, st.cur, n) && Pos(st, m) == i
  }

  /** Right after a jump into a nested block, the parent is set to go on behind the statement it is in. */
  lemma JumpHolds(p: Program, st: State, t: string)
    requires WellFormed(p) && Ok(p, st) && Goto(p, st, t).1 && p.tags[t].node > 0
    ensures var n := p.tags[t].node;
            && n < |p.nodes| && p.nodes[n].parent.Some?
            && Held(p, Goto(p, st, t).0, n, p.nodes[n].parent.value, p.nodes[n].idx + 1)
  {
    hide OkPositions, OkSteps, CompleteUp;
    var n := p.tags[t].node;
    ParentFacts(p, n);
    ParentFacts(p, p.nodes[n].parent.value);
  }

  /** The next request is looked for at place `i` of node `m`. */
  ghost predicate GoesOnAt(p: Program, st: State, m: nat, i: nat)
    requires WellFormed(p) && Ok(p, st)
  {
    exists st2 :: Ok(p, st2) && st2.cur == m && Pos(st2, m) == i && Next(p, st) == Next(p, st2)
  }

  /** NextRequest either stays inside the block or leaves it for place `i` of its parent. */
  lemma {:induction false} NextHolds(p: Program, st: State, n: nat, m: nat, i: nat)
    requires WellFormed(p) && Ok(p, st) && Held(p, st, n, m, i)
    ensures (Next(p, st).1.Some? && Held(p, Next(p, st).0, n, m, i)) || GoesOnAt(p, st, m, i)
    decreases st.cur
  {
    hide WellFormed, Next, OkPositions, OkSteps;
    InsideIsAfter(p, st.cur, n);
    if Pos(st, st.cur) < |Children(p, st.cur)| {
      NextHere(p, st);
    } else {
      NextLeaves(p, st);
      var st1 := Leave(p, SetPrevious(p, st), p.nodes[st.cur].parent.value);
      if st.cur != n {
        NextHolds(p, st1, n, m, i);
        if GoesOnAt(p, st1, m, i) {
          var st2 :| Ok(p, st2) && st2.cur == m && Pos(st2, m) == i && Next(p, st1) == Next(p, st2);
          assert GoesOnAt(p, st, m, i);
        }
      }
    }
  }

  lemma EnterHolds(p: Program, st: State, n: nat, m: nat, i: nat, k: nat)
    requires WellFormed(p) && Ok(p, st) && Held(p, st, n, m, i)
    requires k < |p.nodes| && (p.nodes[k].parent == Some(st.cur) || k == st.cur)
    ensures Held(p, Enter(p, st, k), n, m, i)
  {
    hide WellFormed, OkPositions, OkSteps;
    ParentFacts(p, k);
    InsideIsAfter(p, st.cur, n);
  }

  lemma WhileHolds(p: Program, st: State, n: nat, m: nat, i: nat, d: nat, v: Verdict)
    requires WellFormed(p) && Ok(p, st) && Held(p, st, n, m, i)
    requires d < |p.nodes| && d in p.loops && (p.nodes[d].parent == Some(st.cur) || d == st.cur)
    ensures Held(p, WhileHandler(p, st, d, v), n, m, i)
  {
    hide WellFormed, OkPositions, OkSteps, Inside, WhileHandler;
    WhileMoves(p, st, d, v);
    EnterHolds(p, st, n, m, i, d);
  }

  /** A handler that does not jump keeps the cursor inside the block. */
  lemma HandleHolds(p: Program, st: State, a: Ptr, r: Reply, n: nat, m: nat, i: nat)
    requires WellFormed(p) && Ok(p, st) && Held(p, st, n, m, i) && Addresses(p, a) && st.cur == a.node
    requires Handle(p, st, a, r).gotos == st.gotos
    ensures Held(p, Handle(p, st, a, r), n, m, i)
  {
    hide WellFormed, OkPositions, OkSteps, Inside, Goto, FindCase, Enter, WhileHandler, At;
    var st0 := st.(cancel := st.cancel || r.cancel);
    RequestFacts(p, a);
    match Deref(p, a).kind
    case Cond(t, e) =>
      EnterHolds(p, st0, n, m, i, t);
      EnterHolds(p, st0, n, m, i, e);
    case Choice(refs) =>
      FindCaseNested(p, refs, a.node, a.at, r.text);
      FindCaseNested(p, refs, a.node, a.at, "default");
      if PickCase(refs, r.text).Some? {
        EnterHolds(p, st0, n, m, i, PickCase(refs, r.text).value);
      }
    case Loop(d) =>
      WhileHolds(p, st0, n, m, i, d, r.verdict);
    case _ =>
  }

  /** One round without a jump either stays in the block or leaves it for place `i` of its parent. */
  lemma TurnHolds(p: Program, st: State, o: Oracle, n: nat, m: nat, i: nat)
    requires WellFormed(p) && Ok(p, st) && Held(p, st, n, m, i)
    requires Turn(p, st, o).Continue? && Turn(p, st, o).st.gotos == st.gotos
    ensures Held(p, Turn(p, st, o).st, n, m, i) || GoesOnAt(p, st, m, i)
  {
    hide WellFormed, Next, OkPositions, OkSteps, Inside, Handle, GoesOnAt, Goto;
    NextMoves(p, st);
    NextAdvances(p, st);
    NextHolds(p, st, n, m, i);
    if !GoesOnAt(p, st, m, i) {
      var (st1, next) := Next(p, st);
      var a := next.value;
      RequestFacts(p, a);
      var req := Deref(p, a);
      var st2 := if req.limiter.None? then st1 else
        st1.(sent := Put(st1.sent, req.limiter.value, At(st1.sent, req.limiter.value) + 1));
      var st3 := st2.(hist := st2.hist + [Record(req)]);
      HandleHolds(p, st3, a, o(st3.hist), n, m, i);
    }
  }

  /** The state after `k` rounds, if the run lasts that long. */
  ghost function After(p: Program, st: State, o: Oracle, k: nat): (r: Option<State>)
    requires WellFormed(p) && Ok(p, st)
    ensures r.Some? ==> Ok(p, r.value)
  {
    if k == 0 then Some(st)
    else
      match After(p, st, o, k - 1)
      case None => None
      case Some(s) => (match Turn(p, s, o) case Halt(_) => None case Continue(s') => Some(s'))
  }

  /** Some round before the k-th left the block for place `i` of node `m`. */
  ghost predicate LeftBefore(p: Program, st: State, o: Oracle, k: nat, m: nat, i: nat)
    requires WellFormed(p) && Ok(p, st)
  {
    exists j: nat :: j < k && After(p, st, o, j).Some? && GoesOnAt(p, After(p, st, o, j).value, m, i)
  }

  lemma GotosGrow(p: Program, st: State, o: Oracle)
    requires WellFormed(p) && Ok(p, st)
    ensures st.gotos <= Turn(p, st, o).st.gotos
  {
    hide WellFormed, Next, OkPositions, OkSteps, Handle, Goto;
    NextMoves(p, st);
  }

  /** After a jump into a nested block, for as long as there is no other jump, the run is either still in
      that block or has left it for the sibling right after the statement the block belongs to. That includes
      the round in which the run ends: its request is still in the block, or the sibling was looked for. */
  lemma {:induction false} BlockIsLeftForItsSibling(p: Program, st: State, t: string, o: Oracle, k: nat)
    requires WellFormed(p) && Ok(p, st) && Goto(p, st, t).1 && p.tags[t].node > 0
    requires After(p, Goto(p, st, t).0, o, k).Some?
    requires After(p, Goto(p, st, t).0, o, k).value.gotos == st.gotos + 1
    ensures var n := p.tags[t].node;
            var end := After(p, Goto(p, st, t).0, o, k).value;
            && n < |p.nodes| && p.nodes[n].parent.Some?
            && (Held(p, end, n, p.nodes[n].parent.value, p.nodes[n].idx + 1)
                || LeftBefore(p, Goto(p, st, t).0, o, k, p.nodes[n].parent.value, p.nodes[n].idx + 1))
            && ((Next(p, end).1.Some? && Held(p, Next(p, end).0, n, p.nodes[n].parent.value, p.nodes[n].idx + 1))
                || LeftBefore(p, Goto(p, st, t).0, o, k + 1, p.nodes[n].parent.value, p.nodes[n].idx + 1))
    decreases k
  {
    hide WellFormed, OkPositions, OkSteps, Turn, Held, GoesOnAt;
    var st0 := Goto(p, st, t).0;
    JumpHolds(p, st, t);
    if k > 0 {
      var s := After(p, st0, o, k - 1).value;
      GotosGrow(p, s, o);
      GotosSince(p, st0, o, k - 1);
      BlockIsLeftForItsSibling(p, st, t, o, k - 1);
      var n := p.tags[t].node;
      if Held(p, s, n, p.nodes[n].parent.value, p.nodes[n].idx + 1) {
        TurnHolds(p, s, o, n, p.nodes[n].parent.value, p.nodes[n].idx + 1);
      }
    }
    var end, n := After(p, st0, o, k).value, p.tags[t].node;
    if Held(p, end, n, p.nodes[n].parent.value, p.nodes[n].idx + 1) {
      NextHolds(p, end, n, p.nodes[n].parent.value, p.nodes[n].idx + 1);
    }
  }

  lemma {:induction false} GotosSince(p: Program, st: State, o: Oracle, k: nat)
    requires WellFormed(p) && Ok(p, st) && After(p, st, o, k).Some?
    ensures st.gotos <= After(p, st, o, k).value.gotos
  {
    hide WellFormed, Ok, Turn;
    if k > 0 {
      GotosGrow(p, After(p, st, o, k - 1).value, o);
      GotosSince(p, st, o, k - 1);
    }
  }
}
