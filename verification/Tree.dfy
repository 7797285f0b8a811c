/** The tree of nodes and requests that a schema is compiled into (flow/node.go, flow/flow.go).
    A node is named by its index in the flow's node table, a request by its place in a node. */
module Tree {
  import opened Common
  import opened Schema

  /** The address of a request: the place `at` among the children of `node`. */
  datatype Ptr = Ptr(node: nat, at: nat)

  datatype CaseRefs = NoRefs | Ref(name: string, node: nat, rest: CaseRefs)

  datatype Kind =
    | App
    | BreakApp
    | Cond(thn: nat, els: nat)
    | Choice(cases: CaseRefs)
    | Loop(do: nat)

  datatype Request = Request(h: Header, limiter: Option<nat>, kind: Kind)

  datatype Node = Node(parent: Option<nat>, idx: nat, children: seq<Request>)

  datatype LoopArgs = LoopArgs(maxSteps: int, originalParent: Option<Ptr>)

  datatype Program = Program(
    nodes: seq<Node>, loops: map<nat, LoopArgs>, limits: seq<Limit>, tags: map<string, Ptr>)

  // ----- parsing -----

  /** newLimiter: a request with a limit gets a limiter of its own. */
  function AddLimiter(p: Program, h: Header): (r: (Program, Option<nat>)) {
    match h.limit
    case None => (p, None)
    case Some(l) => (p.(limits := p.limits + [l]), Some(|p.limits|))
  }

  /** NewNode(parent): the node remembers the index its enclosing statement is about to get. */
  function AddNode(p: Program, parent: nat): (r: Program)
    requires parent < |p.nodes|
  {
    p.(nodes := p.nodes + [Node(Some(parent), |p.nodes[parent].children|, [])])
  }

  /** Node.Add together with trySetTag. */
  function AddRequest(p: Program, n: nat, r: Request): Program
    requires n < |p.nodes|
  {
    var node := p.nodes[n];
    p.(nodes := p.nodes[n := node.(children := node.children + [r])],
       tags := if r.h.tag == "" then p.tags else p.tags[r.h.tag := Ptr(n, |node.children|)])
  }

  /** The request just before place `i` of node `n`, as newWhileArgs and setPreviousRequest see it. */
  function Before(n: nat, i: nat): Option<Ptr> {
    if i == 0 then None else Some(Ptr(n, i - 1))
  }

  /** Add without a tag: the copy of a `while` request that ends its own body. */
  function AddSelf(p: Program, n: nat, r: Request): Program
    requires n < |p.nodes|
  {
    p.(nodes := p.nodes[n := p.nodes[n].(children := p.nodes[n].children + [r])])
  }

  /** `q` extends `p`: nodes below `|p.nodes|` other than `n` are untouched, node `n` has at most gained
      children, the new nodes number `count`. */
  ghost predicate Grown(p: Program, q: Program, n: nat, count: nat)
    requires n < |p.nodes|
  {
    && |q.nodes| == |p.nodes| + count
    && (forall k | 0 <= k < |p.nodes| && k != n :: q.nodes[k] == p.nodes[k])
    && q.nodes[n].parent == p.nodes[n].parent && q.nodes[n].idx == p.nodes[n].idx
    && p.nodes[n].children <= q.nodes[n].children
    && p.limits <= q.limits
    && (forall k | 0 <= k < |p.nodes| :: (k in q.loops <==> k in p.loops)
                                         && (k in p.loops ==> q.loops[k] == p.loops[k]))
  }

  /** parseFlowArray */
  function ParseBlock(p: Program, n: nat, b: Block): (q: Program)
    requires n < |p.nodes|
    ensures Grown(p, q, n, BlockNodes(b))
    ensures |q.nodes[n].children| == |p.nodes[n].children| + Length(b)
    decreases b
  {
    match b
    case End => p
    case Then(s, rest) => ParseBlock(ParseStmt(p, n, s), n, rest)
  }

  /** The body of parseFlowArray's loop. */
  function ParseStmt(p: Program, n: nat, s: Stmt): (q: Program)
    requires n < |p.nodes|
    ensures Grown(p, q, n, StmtNodes(s))
    ensures |q.nodes[n].children| == |p.nodes[n].children| + Width(s)
    decreases s, 2
  {
    if s.Skipped? then p else
      var (p0, lim) := AddLimiter(p, s.h);
      var (p1, kind) := ParseArgs(p0, n, s, lim);
      AddRequest(p1, n, Request(s.h, lim, kind))
  }

  /** The arguments of a request; the nested blocks are parsed before the request is added. */
  function ParseArgs(p: Program, n: nat, s: Stmt, lim: Option<nat>): (r: (Program, Kind))
    requires n < |p.nodes| && !s.Skipped?
    ensures Grown(p, r.0, n, StmtNodes(s))
    ensures r.0.nodes[n] == p.nodes[n]
    decreases s, 1
  {
    var k := |p.nodes|;
    match s
    case Plain(_) => (p, App)
    case Break(_) => (p, BreakApp)
    case If(_, _, _) => (ParseIf(p, n, s), Cond(k, k + 1))
    case Switch(_, cases) =>
      var (q, refs) := ParseCases(p, n, cases);
      (q, Choice(refs))
    case While(h, _, _) => (ParseWhile(p, n, s, Request(h, lim, Loop(k))), Loop(k))
    case HollowWhile(_) =>
      (AddNode(p, n).(loops := p.loops[k := LoopArgs(1000, None)]), Loop(k))
  }

  /** newConditionArgs: both nodes exist before either block is parsed. */
  function ParseIf(p: Program, n: nat, s: Stmt): (q: Program)
    requires n < |p.nodes| && s.If?
    ensures Grown(p, q, n, StmtNodes(s))
    ensures q.nodes[n] == p.nodes[n]
    decreases s, 0
  {
    var t := |p.nodes|;
    var p1 := AddNode(AddNode(p, n), n);
    var p2 := ParseBlock(p1, t, s.thn);
    ParseBlock(p2, t + 1, s.els)
  }

  /** newWhileArgs: the body is closed by a copy `r` of the `while` request itself. */
  function ParseWhile(p: Program, n: nat, s: Stmt, r: Request): (q: Program)
    requires n < |p.nodes| && s.While?
    ensures Grown(p, q, n, StmtNodes(s))
    ensures q.nodes[n] == p.nodes[n]
    decreases s, 0
  {
    var d := |p.nodes|;
    var p1 := ParseBlock(AddNode(p, n), d, s.body);
    var p2 := p1.(loops := p1.loops[d := LoopArgs(s.maxSteps, Before(n, |p.nodes[n].children|))]);
    AddSelf(p2, d, r)
  }

  /** The loop of newSwitchArgs over the cases. */
  function ParseCases(p: Program, n: nat, cs: Cases): (r: (Program, CaseRefs))
    requires n < |p.nodes|
    ensures Grown(p, r.0, n, CaseNodes(cs))
    ensures r.0.nodes[n] == p.nodes[n]
    decreases cs
  {
    match cs
    case NoCases => (p, NoRefs)
    case Case(name, body, rest) =>
      var p1 := ParseBlock(AddNode(p, n), |p.nodes|, body);
      var (p2, refs) := ParseCases(p1, n, rest);
      (p2, Ref(name, |p.nodes|, refs))
  }

  const FRESH: Program := Program([Node(None, 0, [])], map[], [], map[])

  /** New and Fork: parse the schema into a root node. */
  function Compile(b: Block): (p: Program)
    ensures |p.nodes| == 1 + BlockNodes(b)
    ensures |p.nodes[0].children| == Length(b)
  {
    ParseBlock(FRESH, 0, b)
  }
}
