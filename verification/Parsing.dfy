/** What parsing establishes about the tree: every node and every request mirrors its place in the
    schema (`Mirrors`), hence the tree is well formed (`WellFormed`). */
module Parsing {
  import opened Common
  import opened Schema
  import opened Tree

  // ----- the tree mirrors the schema -----

  /** Node `k` is a block of `len` requests nested in the statement at place `i` of node `n`. */
  ghost predicate IsBlock(p: Program, k: nat, n: nat, i: nat, len: nat) {
    && n < k < |p.nodes|
    && p.nodes[k].parent == Some(n) && p.nodes[k].idx == i
    && |p.nodes[k].children| == len
  }

  /** The requests of node `n` from place `i` on are those of block `b`, whose nested blocks are the
      nodes numbered from `base`. */
  ghost predicate Mirrors(p: Program, n: nat, i: nat, b: Block, base: nat)
    decreases b
  {
    match b
    case End => true
    case Then(s, rest) =>
      && MirrorsStmt(p, n, i, s, base)
      && Mirrors(p, n, i + Width(s), rest, base + StmtNodes(s))
  }

  ghost predicate MirrorsStmt(p: Program, n: nat, i: nat, s: Stmt, base: nat)
    decreases s
  {
    s.Skipped? ||
    (&& n < |p.nodes| && i < |p.nodes[n].children|
     && MirrorsRequest(p, p.nodes[n].children[i], s.h)
     && MirrorsKind(p, n, i, p.nodes[n].children[i], s, base))
  }

  ghost predicate MirrorsRequest(p: Program, r: Request, h: Header) {
    && r.h == h
    && r.limiter.Some? == h.limit.Some?
    && (r.limiter.Some? ==> r.limiter.value < |p.limits| && p.limits[r.limiter.value] == h.limit.value)
  }

  ghost predicate MirrorsKind(p: Program, n: nat, i: nat, r: Request, s: Stmt, base: nat)
    requires !s.Skipped?
    decreases s, 0
  {
    match s
    case Plain(_) => r.kind == App
    case Break(_) => r.kind == BreakApp
    case If(_, thn, els) =>
      && r.kind == Cond(base, base + 1)
      && IsBlock(p, base, n, i, Length(thn)) && IsBlock(p, base + 1, n, i, Length(els))
      && Mirrors(p, base, 0, thn, base + 2)
      && Mirrors(p, base + 1, 0, els, base + 2 + BlockNodes(thn))
    case Switch(_, cases) =>
      && r.kind.Choice?
      && MirrorsCases(p, n, i, r.kind.cases, cases, base)
    case While(_, body, maxSteps) =>
      && r.kind == Loop(base)
      && IsBlock(p, base, n, i, Length(body) + 1)
      && base in p.loops && p.loops[base] == LoopArgs(maxSteps, Before(n, i))
      && p.nodes[base].children[Length(body)] == r
      && Mirrors(p, base, 0, body, base + 1)
    case HollowWhile(_) =>
      && r.kind == Loop(base)
      && IsBlock(p, base, n, i, 0)
      && base in p.loops && p.loops[base] == LoopArgs(1000, None)
  }

  ghost predicate MirrorsCases(p: Program, n: nat, i: nat, refs: CaseRefs, cs: Cases, base: nat)
    decreases cs
  {
    match cs
    case NoCases => refs == NoRefs
    case Case(name, body, rest) =>
      && refs.Ref? && refs.name == name && refs.node == base
      && IsBlock(p, base, n, i, Length(body))
      && Mirrors(p, base, 0, body, base + 1)
      && MirrorsCases(p, n, i, refs.rest, rest, base + 1 + BlockNodes(body))
  }

  // ----- framing: mirroring looks only at the places it names -----

  /** `q` agrees with `p` on the requests of `n` in [i, i + len) and on the `count` nodes from `base`. */
  ghost predicate Agrees(p: Program, q: Program, base: nat, count: nat) {
    && |p.nodes| <= |q.nodes|
    && p.limits <= q.limits
    && (forall k | base <= k < base + count && k < |p.nodes| ::
          && q.nodes[k] == p.nodes[k]
          && (k in p.loops ==> k in q.loops && q.loops[k] == p.loops[k]))
  }

  ghost predicate SamePlaces(p: Program, q: Program, n: nat, i: nat, len: nat) {
    && n < |p.nodes| <= |q.nodes|
    && (forall j | i <= j < i + len && j < |p.nodes[n].children| ::
          j < |q.nodes[n].children| && q.nodes[n].children[j] == p.nodes[n].children[j])
  }

  lemma {:induction false} FrameBlock(p: Program, q: Program, n: nat, i: nat, b: Block, base: nat)
    requires Mirrors(p, n, i, b, base)
    requires Agrees(p, q, base, BlockNodes(b)) && SamePlaces(p, q, n, i, Length(b))
    ensures Mirrors(q, n, i, b, base)
    decreases b
  {
    match b
    case End =>
    case Then(s, rest) =>
      FrameStmt(p, q, n, i, s, base);
      FrameBlock(p, q, n, i + Width(s), rest, base + StmtNodes(s));
  }

  lemma {:induction false} FrameStmt(p: Program, q: Program, n: nat, i: nat, s: Stmt, base: nat)
    requires MirrorsStmt(p, n, i, s, base)
    requires Agrees(p, q, base, StmtNodes(s)) && SamePlaces(p, q, n, i, Width(s))
    ensures MirrorsStmt(q, n, i, s, base)
    decreases s, 1
  {
    if !s.Skipped? {
      FrameKind(p, q, n, i, p.nodes[n].children[i], s, base);
    }
  }

  lemma {:induction false} FrameKind(p: Program, q: Program, n: nat, i: nat, r: Request, s: Stmt, base: nat)
    requires !s.Skipped? && MirrorsKind(p, n, i, r, s, base)
    requires Agrees(p, q, base, StmtNodes(s))
    ensures MirrorsKind(q, n, i, r, s, base)
    decreases s, 0
  {
    match s
    case If(_, thn, els) =>
      FrameBlock(p, q, base, 0, thn, base + 2);
      FrameBlock(p, q, base + 1, 0, els, base + 2 + BlockNodes(thn));
    case Switch(_, cases) =>
      FrameCases(p, q, n, i, r.kind.cases, cases, base);
    case While(_, body, _) =>
      FrameBlock(p, q, base, 0, body, base + 1);
    case _ =>
  }

  lemma {:induction false} FrameCases(
    p: Program, q: Program, n: nat, i: nat, refs: CaseRefs, cs: Cases, base: nat)
    requires MirrorsCases(p, n, i, refs, cs, base)
    requires Agrees(p, q, base, CaseNodes(cs))
    ensures MirrorsCases(q, n, i, refs, cs, base)
    decreases cs
  {
    match cs
    case NoCases =>
    case Case(_, body, rest) =>
      FrameBlock(p, q, base, 0, body, base + 1);
      FrameCases(p, q, n, i, refs.rest, rest, base + 1 + BlockNodes(body));
  }

  // ----- parsing produces a mirror of the schema -----

  lemma {:induction false} ParseBlockMirrors(p: Program, n: nat, b: Block)
    requires n < |p.nodes|
    ensures Mirrors(ParseBlock(p, n, b), n, |p.nodes[n].children|, b, |p.nodes|)
    decreases b
  {
    match b
    case End =>
    case Then(s, rest) =>
      var q := ParseStmt(p, n, s);
      ParseStmtMirrors(p, n, s);
      ParseBlockMirrors(q, n, rest);
      FrameStmt(q, ParseBlock(q, n, rest), n, |p.nodes[n].children|, s, |p.nodes|);
  }

  lemma {:induction false} ParseStmtMirrors(p: Program, n: nat, s: Stmt)
    requires n < |p.nodes|
    ensures MirrorsStmt(ParseStmt(p, n, s), n, |p.nodes[n].children|, s, |p.nodes|)
    decreases s, 2
  {
    var base, i := |p.nodes|, |p.nodes[n].children|;
    var q := ParseStmt(p, n, s);
    if !s.Skipped? {
      var (p0, lim) := AddLimiter(p, s.h);
      var (p1, kind) := ParseArgs(p0, n, s, lim);
      var r := Request(s.h, lim, kind);
      ParseArgsMirrors(p0, n, s, lim, r);
      FrameKind(p1, q, n, i, r, s, base);
    }
  }

  lemma {:induction false} ParseArgsMirrors(p: Program, n: nat, s: Stmt, lim: Option<nat>, r: Request)
    requires n < |p.nodes| && !s.Skipped?
    requires r == Request(s.h, lim, ParseArgs(p, n, s, lim).1)
    ensures MirrorsKind(ParseArgs(p, n, s, lim).0, n, |p.nodes[n].children|, r, s, |p.nodes|)
    decreases s, 1
  {
    match s
    case If(_, _, _) => ParseIfMirrors(p, n, s, r);
    case Switch(_, cases) => ParseCasesMirrors(p, n, cases);
    case While(_, _, _) => ParseWhileMirrors(p, n, s, r);
    case _ =>
  }

  lemma {:induction false} ParseIfMirrors(p: Program, n: nat, s: Stmt, r: Request)
    requires n < |p.nodes| && s.If? && r.kind == Cond(|p.nodes|, |p.nodes| + 1)
    ensures MirrorsKind(ParseIf(p, n, s), n, |p.nodes[n].children|, r, s, |p.nodes|)
    decreases s, 0
  {
    var base := |p.nodes|;
    var p1 := AddNode(AddNode(p, n), n);
    var p2 := ParseBlock(p1, base, s.thn);
    var p3 := ParseBlock(p2, base + 1, s.els);
    ParseBlockMirrors(p1, base, s.thn);
    ParseBlockMirrors(p2, base + 1, s.els);
    FrameBlock(p2, p3, base, 0, s.thn, base + 2);
  }

  lemma {:induction false} ParseWhileMirrors(p: Program, n: nat, s: Stmt, r: Request)
    requires n < |p.nodes| && s.While? && r.kind == Loop(|p.nodes|)
    ensures MirrorsKind(ParseWhile(p, n, s, r), n, |p.nodes[n].children|, r, s, |p.nodes|)
    decreases s, 0
  {
    var base := |p.nodes|;
    var p1 := ParseBlock(AddNode(p, n), base, s.body);
    ParseBlockMirrors(AddNode(p, n), base, s.body);
    FrameBlock(p1, ParseWhile(p, n, s, r), base, 0, s.body, base + 1);
  }

  lemma {:induction false} ParseCasesMirrors(p: Program, n: nat, cs: Cases)
    requires n < |p.nodes|
    ensures MirrorsCases(ParseCases(p, n, cs).0, n, |p.nodes[n].children|, ParseCases(p, n, cs).1, cs, |p.nodes|)
    decreases cs
  {
    match cs
    case NoCases =>
    case Case(_, body, rest) =>
      var p1 := ParseBlock(AddNode(p, n), |p.nodes|, body);
      ParseBlockMirrors(AddNode(p, n), |p.nodes|, body);
      ParseCasesMirrors(p1, n, rest);
      FrameBlock(p1, ParseCases(p1, n, rest).0, |p.nodes|, 0, body, |p.nodes| + 1);
  }

  // ----- well-formedness -----

  /** Node `k` is a block of the statement at place `i` of node `n`. */
  predicate Nested(p: Program, k: nat, n: nat, i: nat) {
    n < k < |p.nodes| && p.nodes[k].parent == Some(n) && p.nodes[k].idx == i
  }

  predicate AllNested(p: Program, refs: CaseRefs, n: nat, i: nat) {
    match refs
    case NoRefs => true
    case Ref(_, k, rest) => Nested(p, k, n, i) && AllNested(p, rest, n, i)
  }

  predicate Names(refs: CaseRefs, k: nat) {
    refs.Ref? && (refs.node == k || Names(refs.rest, k))
  }

  /** Statement kind `kind` has node `k` among its blocks. */
  predicate Owns(kind: Kind, k: nat) {
    match kind
    case Cond(t, e) => k == t || k == e
    case Choice(refs) => Names(refs, k)
    case Loop(d) => k == d
    case _ => false
  }

  /** A `while` request stands either where it was written, knowing what precedes it, or at the very end
      of its own body. A hollow `while` has no body to stand in. */
  predicate LoopOk(p: Program, n: nat, i: nat, d: nat)
    requires n < |p.nodes|
  {
    && d in p.loops && d < |p.nodes|
    && if d == n
       then i + 1 == |p.nodes[n].children| && p.nodes[n].parent.Some?
            && (i == 0 || p.loops[d].originalParent != Before(n, i))
       else Nested(p, d, n, i)
            && (p.loops[d].originalParent == Before(n, i) || p.nodes[d].children == [])
  }

  predicate RequestOk(p: Program, n: nat, i: nat)
    requires n < |p.nodes| && i < |p.nodes[n].children|
  {
    var r := p.nodes[n].children[i];
    && r.limiter.Some? == r.h.limit.Some?
    && (r.limiter.Some? ==> r.limiter.value < |p.limits| && p.limits[r.limiter.value] == r.h.limit.value)
    && match r.kind
       case Cond(t, e) => Nested(p, t, n, i) && Nested(p, e, n, i)
       case Choice(refs) => AllNested(p, refs, n, i)
       case Loop(d) => LoopOk(p, n, i, d)
       case _ => true
  }

  /** The root has no parent; any other node is a block of the statement at place `idx` of its parent. */
  predicate NodeOk(p: Program, k: nat)
    requires k < |p.nodes|
  {
    var node := p.nodes[k];
    if k == 0 then node.parent == None
    else
      && node.parent.Some? && node.parent.value < k
      && node.idx < |p.nodes[node.parent.value].children|
      && Owns(p.nodes[node.parent.value].children[node.idx].kind, k)
  }

  predicate Addresses(p: Program, a: Ptr) {
    a.node < |p.nodes| && a.at < |p.nodes[a.node].children|
  }

  function Deref(p: Program, a: Ptr): Request
    requires Addresses(p, a)
  {
    p.nodes[a.node].children[a.at]
  }

  ghost predicate TagsOk(p: Program) {
    forall t | t in p.tags :: Addresses(p, p.tags[t]) && Deref(p, p.tags[t]).h.tag == t
  }

  ghost predicate RequestsOk(p: Program, n: nat)
    requires n < |p.nodes|
  {
    forall i {:trigger RequestOk(p, n, i)} | 0 <= i < |p.nodes[n].children| :: RequestOk(p, n, i)
  }

  ghost predicate WellFormed(p: Program) {
    && |p.nodes| > 0
    && (forall k {:trigger NodeOk(p, k)} | 0 <= k < |p.nodes| :: NodeOk(p, k))
    && (forall k {:trigger RequestsOk(p, k)} | 0 <= k < |p.nodes| :: RequestsOk(p, k))
    && TagsOk(p)
  }

  lemma ParentFacts(p: Program, k: nat)
    requires WellFormed(p) && k < |p.nodes|
    ensures k == 0 <==> p.nodes[k].parent == None
    ensures k > 0 ==> p.nodes[k].parent.value < k && p.nodes[k].idx < |p.nodes[p.nodes[k].parent.value].children|
  {
    assert NodeOk(p, k);
  }

  lemma TagFacts(p: Program, t: string)
    requires WellFormed(p) && t in p.tags
    ensures Addresses(p, p.tags[t]) && Deref(p, p.tags[t]).h.tag == t
  {}

  lemma RequestFacts(p: Program, a: Ptr)
    requires WellFormed(p) && Addresses(p, a)
    ensures RequestOk(p, a.node, a.at)
  {
    assert RequestsOk(p, a.node);
  }

  /** Requests of `n` in [i, i + len) and the `count` nodes from `base` are all right. */
  ghost predicate Sound(p: Program, n: nat, i: nat, len: nat, base: nat, count: nat) {
    && n < |p.nodes| && i + len <= |p.nodes[n].children|
    && (forall j | i <= j < i + len :: RequestOk(p, n, j))
    && SoundNodes(p, base, count)
  }

  ghost predicate SoundNodes(p: Program, base: nat, count: nat) {
    && base + count <= |p.nodes|
    && (forall k | base <= k < base + count :: 0 < k && NodeOk(p, k) && RequestsOk(p, k))
  }

  lemma {:induction false} MirrorsSound(p: Program, n: nat, i: nat, b: Block, base: nat)
    requires Mirrors(p, n, i, b, base)
    requires n < base && n < |p.nodes| && i + Length(b) <= |p.nodes[n].children|
    requires base + BlockNodes(b) <= |p.nodes|
    ensures Sound(p, n, i, Length(b), base, BlockNodes(b))
    decreases b
  {
    match b
    case End =>
    case Then(s, rest) =>
      MirrorsStmtSound(p, n, i, s, base);
      MirrorsSound(p, n, i + Width(s), rest, base + StmtNodes(s));
  }

  lemma {:induction false} MirrorsStmtSound(p: Program, n: nat, i: nat, s: Stmt, base: nat)
    requires MirrorsStmt(p, n, i, s, base)
    requires n < base && n < |p.nodes| && i + Width(s) <= |p.nodes[n].children|
    requires base + StmtNodes(s) <= |p.nodes|
    ensures Sound(p, n, i, Width(s), base, StmtNodes(s))
    decreases s, 1
  {
    match s
    case If(_, thn, els) =>
      MirrorsSound(p, base, 0, thn, base + 2);
      MirrorsSound(p, base + 1, 0, els, base + 2 + BlockNodes(thn));
    case Switch(_, cases) =>
      MirrorsCasesSound(p, n, i, p.nodes[n].children[i].kind.cases, p.nodes[n].children[i].kind.cases, cases, base);
    case While(_, _, _) =>
      MirrorsWhileSound(p, n, i, s, base);
    case _ =>
  }

  lemma {:induction false} MirrorsWhileSound(p: Program, n: nat, i: nat, s: Stmt, base: nat)
    requires s.While? && MirrorsStmt(p, n, i, s, base)
    requires n < base && base + StmtNodes(s) <= |p.nodes|
    ensures SoundNodes(p, base, StmtNodes(s))
    decreases s, 0
  {
    MirrorsSound(p, base, 0, s.body, base + 1);
    assert RequestOk(p, base, Length(s.body));
    assert RequestsOk(p, base);
  }

  lemma {:induction false} MirrorsCasesSound(
    p: Program, n: nat, i: nat, all: CaseRefs, refs: CaseRefs, cs: Cases, base: nat)
    requires n < base && n < |p.nodes| && i < |p.nodes[n].children|
    requires p.nodes[n].children[i].kind == Choice(all)
    requires forall k :: Names(refs, k) ==> Names(all, k)
    requires MirrorsCases(p, n, i, refs, cs, base)
    requires base + CaseNodes(cs) <= |p.nodes|
    ensures AllNested(p, refs, n, i)
    ensures SoundNodes(p, base, CaseNodes(cs))
    decreases cs
  {
    match cs
    case NoCases =>
    case Case(_, body, rest) =>
      assert Names(all, base) by { assert Names(refs, base); }
      MirrorsSound(p, base, 0, body, base + 1);
      MirrorsCasesSound(p, n, i, all, refs.rest, rest, base + 1 + BlockNodes(body));
  }

  // ----- tags -----

  lemma TagsKept(p: Program, q: Program)
    requires TagsOk(p) && q.tags == p.tags && |p.nodes| <= |q.nodes|
    requires forall k | 0 <= k < |p.nodes| :: p.nodes[k].children <= q.nodes[k].children
    ensures TagsOk(q)
  {}

  lemma AddRequestTags(p: Program, n: nat, r: Request)
    requires n < |p.nodes| && TagsOk(p)
    ensures TagsOk(AddRequest(p, n, r))
  {}

  lemma {:induction false} ParseBlockTags(p: Program, n: nat, b: Block)
    requires n < |p.nodes| && TagsOk(p)
    ensures TagsOk(ParseBlock(p, n, b))
    decreases b
  {
    hide TagsOk;
    match b
    case End =>
    case Then(s, rest) =>
      ParseStmtTags(p, n, s);
      ParseBlockTags(ParseStmt(p, n, s), n, rest);
  }

  lemma {:induction false} ParseStmtTags(p: Program, n: nat, s: Stmt)
    requires n < |p.nodes| && TagsOk(p)
    ensures TagsOk(ParseStmt(p, n, s))
    decreases s, 1
  {
    hide TagsOk, ParseArgs, AddRequest;
    if !s.Skipped? {
      var (p0, lim) := AddLimiter(p, s.h);
      var (p1, kind) := ParseArgs(p0, n, s, lim);
      TagsKept(p, p0);
      ParseArgsTags(p0, n, s, lim);
      AddRequestTags(p1, n, Request(s.h, lim, kind));
    }
  }

  lemma {:induction false} ParseArgsTags(p: Program, n: nat, s: Stmt, lim: Option<nat>)
    requires n < |p.nodes| && !s.Skipped? && TagsOk(p)
    ensures TagsOk(ParseArgs(p, n, s, lim).0)
    decreases s, 0
  {
    hide TagsOk, ParseBlock;
    var p1 := AddNode(p, n);
    TagsKept(p, p1);
    match s
    case If(_, thn, els) =>
      var p2 := AddNode(p1, n);
      TagsKept(p1, p2);
      ParseBlockTags(p2, |p.nodes|, thn);
      ParseBlockTags(ParseBlock(p2, |p.nodes|, thn), |p.nodes| + 1, els);
    case Switch(_, cases) =>
      ParseCasesTags(p, n, cases);
    case While(h, body, _) =>
      ParseBlockTags(p1, |p.nodes|, body);
      TagsKept(ParseBlock(p1, |p.nodes|, body), ParseWhile(p, n, s, Request(h, lim, Loop(|p.nodes|))));
    case HollowWhile(_) =>
      TagsKept(p1, ParseArgs(p, n, s, lim).0);
    case _ =>
  }

  lemma {:induction false} ParseCasesTags(p: Program, n: nat, cs: Cases)
    requires n < |p.nodes| && TagsOk(p)
    ensures TagsOk(ParseCases(p, n, cs).0)
    decreases cs
  {
    hide TagsOk, ParseBlock;
    match cs
    case NoCases =>
    case Case(_, body, rest) =>
      TagsKept(p, AddNode(p, n));
      ParseBlockTags(AddNode(p, n), |p.nodes|, body);
      ParseCasesTags(ParseBlock(AddNode(p, n), |p.nodes|, body), n, rest);
  }

  // ----- main result -----

  /** Parsing any schema yields a well-formed tree that mirrors it. */
  lemma CompileWellFormed(b: Block)
    ensures WellFormed(Compile(b))
    ensures Mirrors(Compile(b), 0, 0, b, 1)
  {
    var p := Compile(b);
    ParseBlockMirrors(FRESH, 0, b);
    MirrorsSound(p, 0, 0, b, 1);
    ParseBlockTags(FRESH, 0, b);
    assert RequestsOk(p, 0);
  }
}
