/** The interpreter of flow/: one cursor that moves over the tree. Handlers are atomic steps; what they
    answer comes from an oracle that sees everything dispatched so far. */
module Machine {
  import opened Common
  import opened Tree
  import opened Parsing
  import opened World

  const MAX_GOTO: nat := 1000

  /** The fields of Flow, its nodes, its `while` arguments and its limiters that change while it runs.
      `hist` and `entries` (bodies entered, by loop) record what happened. */
  datatype State = State(
    pos: Table, cur: nat, prev: Option<Ptr>, step: Table, counter: Table, sent: Table, gotos: nat,
    cancel: bool, interrupted: Option<Ptr>, hist: seq<Event>, entries: Table)

  const INITIAL: State := State(ZERO, 0, None, ZERO, ZERO, ZERO, 0, false, None, [], ZERO)

  function Pos(st: State, n: nat): nat {
    At(st.pos, n)
  }

  function Children(p: Program, n: nat): seq<Request>
    requires n < |p.nodes|
  {
    p.nodes[n].children
  }

  /** Every position is within its node. */
  ghost predicate OkPositions(p: Program, pos: Table) {
    forall k: nat {:trigger At(pos, k)} | k < |p.nodes| :: At(pos, k) <= |p.nodes[k].children|
  }

  /** A loop that was never run is at step 0. */
  ghost predicate OkSteps(counter: Table, step: Table) {
    forall k: nat {:trigger At(step, k)} | At(counter, k) == 0 :: At(step, k) == 0
  }

  /** What parsing establishes and every step keeps. */
  ghost predicate Ok(p: Program, st: State) {
    && st.cur < |p.nodes|
    && OkPositions(p, st.pos)
    && OkSteps(st.counter, st.step)
    && (st.interrupted.Some? ==> Addresses(p, st.interrupted.value))
    && st.gotos <= MAX_GOTO + 1
  }

  lemma InitialOk(p: Program)
    requires WellFormed(p)
    ensures Ok(p, INITIAL)
  {}

  // ----- moving the cursor -----

  /** setFirst followed by SetRoot: the cursor enters block `k`. */
  function Enter(p: Program, st: State, k: nat): (st': State)
    requires k < |p.nodes|
    ensures Ok(p, st) ==> Ok(p, st')
  {
    st.(pos := Put(st.pos, k, 0), cur := k)
  }

  function SetPrevious(p: Program, st: State): (st': State)
    requires st.cur < |p.nodes|
    ensures st' == st.(prev := st'.prev)
  {
    if Pos(st, st.cur) == 0 then st.(prev := None)
    else if Children(p, st.cur) != [] then st.(prev := Some(Ptr(st.cur, Pos(st, st.cur) - 1)))
    else st
  }

  /** GetParentNode below the root. */
  function Leave(p: Program, st: State, parent: nat): (st': State)
    requires parent < |p.nodes|
    ensures Ok(p, st) ==> Ok(p, st')
  {
    st.(pos := Put(st.pos, st.cur, 0), cur := parent)
  }

  /** NextRequest */
  function Next(p: Program, st: State): (r: (State, Option<Ptr>))
    requires WellFormed(p) && Ok(p, st)
    ensures Ok(p, r.0)
    ensures r.1.Some? ==> Addresses(p, r.1.value)
    decreases st.cur
  {
    var st1 := SetPrevious(p, st);
    var i := Pos(st, st.cur);
    ParentFacts(p, st.cur);
    if i < |Children(p, st.cur)| then
      (st1.(pos := Put(st1.pos, st.cur, i + 1)), Some(Ptr(st.cur, i)))
    else
      match p.nodes[st.cur].parent
      case None => (st1.(pos := Put(st1.pos, st.cur, 0)), None)
      case Some(m) => Next(p, Leave(p, st1, m))
  }

  /** Apart from the cursor, `st'` is `st`. */
  ghost predicate Moved(st: State, st': State) {
    st' == st.(pos := st'.pos, cur := st'.cur, prev := st'.prev)
  }

  /** NextRequest answers with the request it has just stepped over, or it is back at the root's start. */
  ghost predicate Advanced(st': State, next: Option<Ptr>) {
    match next
    case None => st'.cur == 0 && Pos(st', 0) == 0
    case Some(a) => st'.cur == a.node && Pos(st', a.node) == a.at + 1 && st'.prev == Before(a.node, a.at)
  }

  /** Inside a block, NextRequest steps over the request at the cursor. */
  lemma NextHere(p: Program, st: State)
    requires WellFormed(p) && Ok(p, st) && Pos(st, st.cur) < |Children(p, st.cur)|
    ensures Next(p, st) == (SetPrevious(p, st).(pos := Put(st.pos, st.cur, Pos(st, st.cur) + 1)),
                            Some(Ptr(st.cur, Pos(st, st.cur))))
  {
    hide WellFormed, OkPositions, OkSteps;
  }

  /** At the end of the root, NextRequest goes back to its start and gives up. */
  lemma NextEnds(p: Program, st: State)
    requires WellFormed(p) && Ok(p, st) && Pos(st, st.cur) >= |Children(p, st.cur)| && st.cur == 0
    ensures Next(p, st) == (SetPrevious(p, st).(pos := Put(st.pos, 0, 0)), None)
  {
    hide OkPositions, OkSteps;
    ParentFacts(p, st.cur);
  }

  /** At the end of a block, NextRequest goes on in the parent. */
  lemma NextLeaves(p: Program, st: State)
    requires WellFormed(p) && Ok(p, st)
    requires Pos(st, st.cur) >= |Children(p, st.cur)| && st.cur > 0
    ensures p.nodes[st.cur].parent.Some? && p.nodes[st.cur].parent.value < st.cur
    ensures var st1 := Leave(p, SetPrevious(p, st), p.nodes[st.cur].parent.value);
            Ok(p, st1) && Next(p, st) == Next(p, st1)
  {
    ParentFacts(p, st.cur);
  }

  lemma {:induction false} NextMoves(p: Program, st: State)
    requires WellFormed(p) && Ok(p, st)
    ensures Moved(st, Next(p, st).0)
    decreases st.cur
  {
    hide WellFormed, Next, OkPositions, OkSteps;
    if Pos(st, st.cur) < |Children(p, st.cur)| {
      NextHere(p, st);
    } else if st.cur == 0 {
      NextEnds(p, st);
    } else {
      NextLeaves(p, st);
      NextMoves(p, Leave(p, SetPrevious(p, st), p.nodes[st.cur].parent.value));
    }
  }

  lemma {:induction false} NextAdvances(p: Program, st: State)
    requires WellFormed(p) && Ok(p, st)
    ensures Advanced(Next(p, st).0, Next(p, st).1)
    decreases st.cur
  {
    hide WellFormed, Next, OkPositions, OkSteps;
    if Pos(st, st.cur) < |Children(p, st.cur)| {
      NextHere(p, st);
    } else if st.cur == 0 {
      NextEnds(p, st);
    } else {
      NextLeaves(p, st);
      NextAdvances(p, Leave(p, SetPrevious(p, st), p.nodes[st.cur].parent.value));
    }
  }

  /** CompleteTreeTraversal */
  function CompleteUp(p: Program, pos: Table, n: Option<nat>): (pos': Table)
    requires WellFormed(p) && (n.Some? ==> n.value < |p.nodes|)
    ensures OkPositions(p, pos) ==> OkPositions(p, pos')
    ensures forall k: nat {:trigger At(pos', k)} | n.None? || k > n.value :: At(pos', k) == At(pos, k)
    decreases if n.Some? then n.value + 1 else 0
  {
    match n
    case None => pos
    case Some(k) =>
      ParentFacts(p, k);
      if p.nodes[k].parent.Some? && At(pos, k) == 0
      then CompleteUp(p, Put(pos, k, |Children(p, k)|), p.nodes[k].parent)
      else pos
  }

  /** The positions after a jump into node `n`, whose own position is already set. */
  function Repair(p: Program, pos: Table, n: nat): (pos': Table)
    requires WellFormed(p) && n < |p.nodes|
    ensures At(pos', n) == At(pos, n)
    ensures OkPositions(p, pos) ==> OkPositions(p, pos')
  {
    ParentFacts(p, n);
    match p.nodes[n].parent
    case None => pos
    case Some(m) => ParentFacts(p, m); CompleteUp(p, Put(pos, m, p.nodes[n].idx + 1), p.nodes[m].parent)
  }

  /** Goto */
  function Goto(p: Program, st: State, tag: string): (r: (State, bool))
    requires WellFormed(p) && Ok(p, st)
    ensures Ok(p, r.0)
    ensures r.0 == st.(pos := r.0.pos, cur := r.0.cur, gotos := r.0.gotos)
    ensures if r.1 then r.0.gotos == st.gotos + 1 else r.0 == st
    ensures r.1 <==> st.gotos <= MAX_GOTO && tag in p.tags
  {
    if st.gotos > MAX_GOTO || tag !in p.tags then (st, false)
    else
      var a := p.tags[tag];
      ParentFacts(p, a.node);
      var pos := Repair(p, Put(Put(st.pos, st.cur, 0), a.node, a.at), a.node);
      (st.(pos := pos, cur := a.node, gotos := st.gotos + 1), true)
  }

  // ----- handlers -----

  /** whileHandler with nextStep and endCycle: a loop reached from outside starts over at step 0, step 0
      needs no condition, and a body that holds nothing but the self-request is not entered. */
  function WhileHandler(p: Program, st: State, d: nat, v: Verdict): (st': State)
    requires d < |p.nodes| && d in p.loops
    ensures Ok(p, st) ==> Ok(p, st')
    ensures st' == st.(pos := st'.pos, cur := st'.cur, step := st'.step, counter := st'.counter, entries := st'.entries)
  {
    var c := At(st.counter, d);
    var restart := c != 0 && st.prev == p.loops[d].originalParent;
    var s := if restart then 0 else At(st.step, d);
    if c >= p.loops[d].maxSteps then
      if restart then st.(step := Put(st.step, d, 0)) else st
    else if |Children(p, d)| != 1 && (s == 0 || v.Yes?) then
      st.(pos := Put(st.pos, d, 0), cur := d, step := Put(st.step, d, s + 1), counter := Put(st.counter, d, c + 1),
          entries := Put(st.entries, d, At(st.entries, d) + 1))
    else
      st.(step := Put(st.step, d, 0), counter := Put(st.counter, d, c + 1))
  }

  /** A `while` leaves the cursor alone or makes it enter the body. */
  lemma WhileMoves(p: Program, st: State, d: nat, v: Verdict)
    requires d < |p.nodes| && d in p.loops
    ensures var st' := WhileHandler(p, st, d, v);
            || (st'.cur == st.cur && st'.pos == st.pos)
            || (st'.cur == d && st'.pos == Enter(p, st, d).pos)
  {
    hide Ok, At, Put;
  }

  /** The lookup of switchHandler: the named case, else the default case. */
  function FindCase(refs: CaseRefs, name: string): Option<nat> {
    match refs
    case NoRefs => None
    case Ref(n, k, rest) => if n == name then Some(k) else FindCase(rest, name)
  }

  function PickCase(refs: CaseRefs, name: string): Option<nat> {
    if FindCase(refs, name).Some? then FindCase(refs, name) else FindCase(refs, "default")
  }

  lemma FindCaseNested(p: Program, refs: CaseRefs, n: nat, i: nat, name: string)
    requires AllNested(p, refs, n, i)
    ensures FindCase(refs, name).Some? ==> Nested(p, FindCase(refs, name).value, n, i)
  {}

  /** What the handler of request `a` does to the flow, given the reply `r`. */
  function Handle(p: Program, st: State, a: Ptr, r: Reply): (st': State)
    requires WellFormed(p) && Ok(p, st) && Addresses(p, a)
    ensures Ok(p, st')
    ensures st' == st.(pos := st'.pos, cur := st'.cur, step := st'.step, counter := st'.counter,
                       gotos := st'.gotos, cancel := st'.cancel, entries := st'.entries)
    ensures st.cancel || r.cancel || Deref(p, a).kind.BreakApp? ==> st'.cancel
    ensures st.gotos <= st'.gotos
  {
    hide WellFormed, OkPositions, OkSteps, FindCase, Goto, Enter, WhileHandler;
    var st0 := st.(cancel := st.cancel || r.cancel);
    RequestFacts(p, a);
    match Deref(p, a).kind
    case App => if r.jump.Some? then Goto(p, st0, r.jump.value).0 else st0
    case BreakApp => st0.(cancel := true)
    case Cond(t, e) =>
      (match r.verdict
       case Yes => Enter(p, st0, t)
       case No => Enter(p, st0, e)
       case Fault => st0)
    case Choice(refs) =>
      FindCaseNested(p, refs, a.node, a.at, r.text);
      FindCaseNested(p, refs, a.node, a.at, "default");
      (match PickCase(refs, r.text)
       case Some(k) => Enter(p, st0, k)
       case None => st0)
    case Loop(d) => WhileHandler(p, st0, d, r.verdict)
  }

  // ----- the driver -----

  /** One round of Route's loop: it either ends the run or goes on. */
  datatype Round = Halt(st: State) | Continue(st: State)

  /** The break application and every request flagged as a break. */
  predicate Breaks(req: Request) {
    req.h.isBreak || req.kind.BreakApp?
  }

  function Record(req: Request): Event {
    Sent(req.h, req.limiter, Breaks(req))
  }

  /** The part of the loop after the limiter: hand the request over and look at what came back. */
  function Dispatch(p: Program, st: State, a: Ptr, o: Oracle): (r: Round)
    requires WellFormed(p) && Ok(p, st) && Addresses(p, a)
    ensures Ok(p, r.st)
    ensures r.Continue? ==> !r.st.cancel
  {
    var req := Deref(p, a);
    var st1 := st.(hist := st.hist + [Record(req)]);
    var reply := o(st1.hist);
    match reply.finish
    case Cut(ran) =>
      var st2 := if ran then Handle(p, st1, a, reply) else st1;
      Halt(st2.(interrupted := Some(a), cancel := true))
    case Finished =>
      var st2 := Handle(p, st1, a, reply);
      var st3 := if req.h.isBreak then st2.(cancel := true) else st2;
      if st3.cancel then Halt(st3) else Continue(st3)
  }

  function Turn(p: Program, st: State, o: Oracle): (r: Round)
    requires WellFormed(p) && Ok(p, st)
    ensures Ok(p, r.st)
    ensures r.Continue? ==> !r.st.cancel
  {
    var (st1, next) := Next(p, st);
    if next.None? || st1.cancel then Halt(st1)
    else
      var a := next.value;
      RequestFacts(p, a);
      match Deref(p, a).limiter
      case None => Dispatch(p, st1, a, o)
      case Some(l) =>
        if At(st1.sent, l) >= p.limits[l].max then
          var (st2, ok) := Goto(p, st1, p.limits[l].failover);
          if ok then Continue(st2) else Halt(st2)
        else
          Dispatch(p, st1.(sent := Put(st1.sent, l, At(st1.sent, l) + 1)), a, o)
  }

  lemma TurnUnlimited(p: Program, st: State, o: Oracle, x: State, a: Ptr)
    requires WellFormed(p) && Ok(p, st) && Ok(p, x) && Next(p, st) == (x, Some(a)) && !x.cancel
    requires Deref(p, a).limiter == None
    ensures Turn(p, st, o) == Dispatch(p, x, a, o)
  {
    hide WellFormed, OkPositions, OkSteps, Next, Handle, Dispatch, Goto;
  }

  lemma TurnWithin(p: Program, st: State, o: Oracle, x: State, a: Ptr, l: nat)
    requires WellFormed(p) && Ok(p, st) && Ok(p, x) && Next(p, st) == (x, Some(a)) && !x.cancel
    requires Deref(p, a).limiter == Some(l) && l < |p.limits| && At(x.sent, l) < p.limits[l].max
    ensures Turn(p, st, o) == Dispatch(p, x.(sent := Put(x.sent, l, At(x.sent, l) + 1)), a, o)
  {
    hide WellFormed, OkPositions, OkSteps, Next, Handle, Dispatch, Goto;
  }

  lemma TurnBeyond(p: Program, st: State, o: Oracle, x: State, a: Ptr, l: nat)
    requires WellFormed(p) && Ok(p, st) && Ok(p, x) && Next(p, st) == (x, Some(a)) && !x.cancel
    requires Deref(p, a).limiter == Some(l) && l < |p.limits| && At(x.sent, l) >= p.limits[l].max
    ensures var (to, ok) := Goto(p, x, p.limits[l].failover);
            Turn(p, st, o) == if ok then Continue(to) else Halt(to)
  {
    hide WellFormed, OkPositions, OkSteps, Next, Handle, Dispatch, Goto;
  }

  // ----- operations between runs -----

  /** RepeatInterrupted */
  function RepeatInterrupted(p: Program, st: State, names: set<string>): (r: (State, bool))
    requires WellFormed(p) && Ok(p, st)
    ensures Ok(p, r.0)
  {
    var req := st.interrupted;
    var st1 := st.(interrupted := None);
    if req.None? || Deref(p, req.value).h.name !in names then (st1, false)
    else
      var i := Pos(st, st.cur);
      if i == 0 || i > |Children(p, st.cur)| || Ptr(st.cur, i - 1) != req.value then (st1, false)
      else (st1.(pos := Put(st1.pos, st.cur, i - 1)), true)
  }

  /** Reset */
  function Reset(st: State): State {
    st.(pos := Put(st.pos, st.cur, 0), cancel := false)
  }
}
