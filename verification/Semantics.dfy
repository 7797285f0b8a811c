/** What a schema means: structured, recursive execution with no cursor, no positions and no request
    pointers. A `while` is a do-while whose budget of steps lasts for the life of the flow. */
module Semantics {
  import opened Common
  import opened Schema
  import opened World

  /** The requests dispatched so far, the steps used up by each loop, and whether the flow was stopped. */
  datatype Outcome = Outcome(hist: seq<Event>, counter: Table, stopped: bool)

  /** No loop gives steps back. */
  ghost predicate Spent(m: Outcome, m': Outcome) {
    forall k: nat {:trigger At(m'.counter, k)} :: At(m.counter, k) <= At(m'.counter, k)
  }

  /** Hand one request over. It stops the flow if it is a break, if its application cancels the flow, or if
      the context is done. */
  function Tell(m: Outcome, h: Header, breaks: bool, o: Oracle): Outcome {
    var hist := m.hist + [Sent(h, None, breaks)];
    var r := o(hist);
    Outcome(hist, m.counter, r.finish.Cut? || r.cancel || breaks)
  }

  /** The break statement and every statement flagged as a break. */
  predicate IsBreak(s: Stmt)
    requires !s.Skipped?
  {
    s.h.isBreak || s.Break?
  }

  function Spend(m: Outcome, k: nat): Outcome {
    m.(counter := Put(m.counter, k, At(m.counter, k) + 1))
  }

  ghost function ExecBlock(b: Block, base: nat, m: Outcome, o: Oracle): (m': Outcome)
    ensures Spent(m, m')
    decreases b
  {
    match b
    case End => m
    case Then(s, rest) => ExecBlock(rest, base + StmtNodes(s), ExecStmt(s, base, m, o), o)
  }

  /** A loop is named by `base`, the number of nodes the parser allocates before it. */
  ghost function ExecStmt(s: Stmt, base: nat, m: Outcome, o: Oracle): (m': Outcome)
    ensures Spent(m, m')
    decreases s, 1, 0
  {
    if m.stopped || s.Skipped? then m else
      var m1 := Tell(m, s.h, IsBreak(s), o);
      if m1.stopped then m1 else
        var r := o(m1.hist);
        match s
        case Plain(_) | Break(_) => m1
        case If(_, thn, els) =>
          (match r.verdict
           case Yes => ExecBlock(thn, base + 2, m1, o)
           case No => ExecBlock(els, base + 2 + BlockNodes(thn), m1, o)
           case Fault => m1)
        case Switch(_, cases) =>
          ExecCase(if HasCase(cases, r.text) then r.text else "default", cases, base, m1, o)
        case While(_, body, maxSteps) =>
          if At(m1.counter, base) >= maxSteps then m1
          else if Length(body) == 0 then Spend(m1, base)
          else ExecLoop(s, base, ExecBlock(body, base + 1, Spend(m1, base), o), o)
        case HollowWhile(_) =>
          if At(m1.counter, base) >= 1000 then m1 else Spend(m1, base)
  }

  predicate HasCase(cs: Cases, name: string) {
    cs.Case? && (cs.name == name || HasCase(cs.rest, name))
  }

  /** Run the case called `name`, if there is one. */
  ghost function ExecCase(name: string, cs: Cases, base: nat, m: Outcome, o: Oracle): (m': Outcome)
    ensures Spent(m, m')
    decreases cs
  {
    match cs
    case NoCases => m
    case Case(n, body, rest) =>
      if n == name then ExecBlock(body, base + 1, m, o)
      else ExecCase(name, rest, base + 1 + BlockNodes(body), m, o)
  }

  /** The end of a pass: ask again whether to go round, while the budget lasts. */
  ghost function ExecLoop(s: Stmt, base: nat, m: Outcome, o: Oracle): (m': Outcome)
    requires s.While?
    ensures Spent(m, m')
    decreases s, 0, s.maxSteps - At(m.counter, base)
  {
    if m.stopped then m else
      var m1 := Tell(m, s.h, IsBreak(s), o);
      if m1.stopped || At(m1.counter, base) >= s.maxSteps then m1
      else if o(m1.hist).verdict.Yes? then
        ExecLoop(s, base, ExecBlock(s.body, base + 1, Spend(m1, base), o), o)
      else Spend(m1, base)
  }

  /** The oracle never asks a flow to jump. */
  ghost predicate NeverJumps(o: Oracle) {
    forall h :: o(h).jump == None
  }

  /** No request of the block is limited (an exceeded limit is a jump). */
  predicate Unlimited(b: Block) {
    match b
    case End => true
    case Then(s, rest) => UnlimitedStmt(s) && Unlimited(rest)
  }

  predicate UnlimitedStmt(s: Stmt) {
    s.Skipped? ||
    (s.h.limit.None? &&
     match s
     case If(_, thn, els) => Unlimited(thn) && Unlimited(els)
     case Switch(_, cases) => UnlimitedCases(cases)
     case While(_, body, _) => Unlimited(body)
     case _ => true)
  }

  predicate UnlimitedCases(cs: Cases) {
    match cs
    case NoCases => true
    case Case(_, body, rest) => Unlimited(body) && UnlimitedCases(rest)
  }
}
