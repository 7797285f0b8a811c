/** A flow schema: the list of application objects that flow/flow.go turns into a tree of nodes. */
module Schema {
  import opened Common

  /** The limit of a request: after `max` dispatches, jump to tag `failover`. */
  datatype Limit = Limit(max: nat, failover: string)

  /** What every request carries besides the blocks nested in it. */
  datatype Header = Header(
    debugId: string, name: string, tag: string, args: string, isBreak: bool, limit: Option<Limit>)

  datatype Stmt =
    | Plain(h: Header)
    | Break(h: Header)
    | If(h: Header, thn: Block, els: Block)
    | Switch(h: Header, cases: Cases)
    | While(h: Header, body: Block, maxSteps: int)
      /** A `while` whose arguments are not an object: it gets an empty body without a self-request. */
    | HollowWhile(h: Header)
      /** Functions, triggers, invalid switches and nameless objects leave no request in the tree. */
    | Skipped

  datatype Block = End | Then(first: Stmt, rest: Block)

  /** The cases of a switch in the order in which the parser visits them. */
  datatype Cases = NoCases | Case(name: string, body: Block, rest: Cases)

  /** The number of requests a statement adds to the node it is parsed into. */
  function Width(s: Stmt): nat {
    if s.Skipped? then 0 else 1
  }

  function Length(b: Block): nat {
    match b
    case End => 0
    case Then(s, rest) => Width(s) + Length(rest)
  }

  /** The number of nodes allocated for the blocks nested in a statement. */
  function StmtNodes(s: Stmt): nat {
    match s
    case If(_, thn, els) => 2 + BlockNodes(thn) + BlockNodes(els)
    case Switch(_, cases) => CaseNodes(cases)
    case While(_, body, _) => 1 + BlockNodes(body)
    case HollowWhile(_) => 1
    case _ => 0
  }

  function BlockNodes(b: Block): nat {
    match b
    case End => 0
    case Then(s, rest) => StmtNodes(s) + BlockNodes(rest)
  }

  function CaseNodes(cs: Cases): nat {
    match cs
    case NoCases => 0
    case Case(_, body, rest) => 1 + BlockNodes(body) + CaseNodes(rest)
  }
}
