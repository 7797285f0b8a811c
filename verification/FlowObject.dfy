/** The Flow object of flow/ with its methods, each proved to do what the machine's functions say. */
module FlowObject {
  import opened Common
  import opened Schema
  import opened World
  import opened Tree
  import opened Parsing
  import opened Machine
  import opened Termination

  class Flow {
    // the tree of nodes, built by the parser
    var nodes: seq<Node>
    var loops: map<nat, LoopArgs>
    var limits: seq<Limit>
    var tags: map<string, Ptr>
    // what changes while the flow runs
    var position: Table
    var currentNode: nat
    var prevRequest: Option<Ptr>
    var step: Table
    var counter: Table
    var sent: Table
    var gotoCounter: nat
    var cancel: bool
    var interrupted: Option<Ptr>
    // what has happened
    var hist: seq<Event>
    var entries: Table

    function Code(): Program
      reads this
    {
      Program(nodes, loops, limits, tags)
    }

    function Now(): State
      reads this
    {
      State(position, currentNode, prevRequest, step, counter, sent, gotoCounter, cancel, interrupted, hist, entries)
    }

    ghost predicate Valid()
      reads this
    {
      WellFormed(Code()) && Ok(Code(), Now())
    }

    // ----- parsing -----

    /** New, and Fork of another flow: a flow of its own over the given schema. */
    constructor (schema: Block)
      ensures Valid() && Code() == Compile(schema) && Now() == INITIAL
    {
      nodes, loops, limits, tags := [Node(None, 0, [])], map[], [], map[];
      position, currentNode, prevRequest := ZERO, 0, None;
      step, counter, sent, entries := ZERO, ZERO, ZERO, ZERO;
      gotoCounter, cancel, interrupted, hist := 0, false, None, [];
      new;
      hide WellFormed, ParseBlock;
      ParseFlowArray(0, schema);
      CompileWellFormed(schema);
    }

    method ParseFlowArray(root: nat, apps: Block)
      requires root < |nodes|
      modifies this`nodes, this`loops, this`limits, this`tags
      ensures Code() == ParseBlock(old(Code()), root, apps)
      decreases apps
    {
      var rest := apps;
      while rest.Then?
        invariant root < |nodes|
        invariant rest == apps || rest < apps
        invariant ParseBlock(Code(), root, rest) == ParseBlock(old(Code()), root, apps)
        decreases rest
      {
        ghost var before := Code();
        var s := rest.first;
        if !s.Skipped? {
          var limiter := NewLimiter(s.h);
          var kind := ParseArguments(root, s, limiter);
          AddTagged(root, Request(s.h, limiter, kind));
        }
        assert Code() == ParseStmt(before, root, s);
        rest := rest.rest;
      }
    }

    method NewLimiter(h: Header) returns (limiter: Option<nat>)
      modifies this`limits
      ensures (Code(), limiter) == AddLimiter(old(Code()), h)
    {
      limiter := None;
      if h.limit.Some? {
        limiter := Some(|limits|);
        limits := limits + [h.limit.value];
      }
    }

    method ParseArguments(root: nat, s: Stmt, limiter: Option<nat>) returns (kind: Kind)
      requires root < |nodes| && !s.Skipped?
      modifies this`nodes, this`loops, this`limits, this`tags
      ensures (Code(), kind) == ParseArgs(old(Code()), root, s, limiter)
      decreases s, 1
    {
      match s
      case Plain(_) => kind := App;
      case Break(_) => kind := BreakApp;
      case If(_, _, _) => kind := NewConditionArgs(root, s);
      case Switch(_, cases) =>
        var refs := NewSwitchArgs(root, cases);
        kind := Choice(refs);
      case While(_, _, _) => kind := NewWhileArgs(root, s, limiter);
      case HollowWhile(_) =>
        var do := NewNode(root);
        loops := loops[do := LoopArgs(1000, None)];
        kind := Loop(do);
    }

    method NewNode(parent: nat) returns (k: nat)
      requires parent < |nodes|
      modifies this`nodes
      ensures Code() == AddNode(old(Code()), parent) && k == old(|nodes|)
    {
      k := |nodes|;
      nodes := nodes + [Node(Some(parent), |nodes[parent].children|, [])];
    }

    /** Node.Add */
    method Add(n: nat, r: Request)
      requires n < |nodes|
      modifies this`nodes
      ensures Code() == AddSelf(old(Code()), n, r)
    {
      nodes := nodes[n := nodes[n].(children := nodes[n].children + [r])];
    }

    /** trySetTag and Node.Add */
    method AddTagged(n: nat, r: Request)
      requires n < |nodes|
      modifies this`nodes, this`tags
      ensures Code() == AddRequest(old(Code()), n, r)
    {
      if r.h.tag != "" {
        tags := tags[r.h.tag := Ptr(n, |nodes[n].children|)];
      }
      Add(n, r);
    }

    method NewConditionArgs(parent: nat, s: Stmt) returns (kind: Kind)
      requires parent < |nodes| && s.If?
      modifies this`nodes, this`loops, this`limits, this`tags
      ensures Code() == ParseIf(old(Code()), parent, s) && kind == Cond(old(|nodes|), old(|nodes|) + 1)
      decreases s, 0
    {
      var then_ := NewNode(parent);
      var else_ := NewNode(parent);
      ParseFlowArray(then_, s.thn);
      ParseFlowArray(else_, s.els);
      kind := Cond(then_, else_);
    }

    method NewWhileArgs(parent: nat, s: Stmt, limiter: Option<nat>) returns (kind: Kind)
      requires parent < |nodes| && s.While?
      modifies this`nodes, this`loops, this`limits, this`tags
      ensures kind == Loop(old(|nodes|))
      ensures Code() == ParseWhile(old(Code()), parent, s, Request(s.h, limiter, kind))
      decreases s, 0
    {
      var do := NewNode(parent);
      kind := Loop(do);
      ParseFlowArray(do, s.body);
      var originalParent := None;
      if |nodes[parent].children| != 0 {
        originalParent := Some(Ptr(parent, |nodes[parent].children| - 1));
      }
      loops := loops[do := LoopArgs(s.maxSteps, originalParent)];
      Add(do, Request(s.h, limiter, kind));
    }

    method NewSwitchArgs(parent: nat, cases: Cases) returns (refs: CaseRefs)
      requires parent < |nodes|
      modifies this`nodes, this`loops, this`limits, this`tags
      ensures (Code(), refs) == ParseCases(old(Code()), parent, cases)
      decreases cases
    {
      refs := NoRefs;
      var rest := cases;
      while rest.Case?
        invariant parent < |nodes|
        invariant rest == cases || rest < cases
        invariant ParseCases(old(Code()), parent, cases).0 == ParseCases(Code(), parent, rest).0
        invariant ParseCases(old(Code()), parent, cases).1 == Joined(refs, ParseCases(Code(), parent, rest).1)
        decreases rest
      {
        var k := NewNode(parent);
        ParseFlowArray(k, rest.body);
        JoinedOne(refs, rest.name, k, ParseCases(Code(), parent, rest.rest).1);
        refs := Joined(refs, Ref(rest.name, k, NoRefs));
        rest := rest.rest;
      }
      JoinedNone(refs);
    }

    // ----- moving the cursor -----

    method SetPreviousRequest()
      requires Valid()
      modifies this`prevRequest
      ensures Now() == SetPrevious(Code(), old(Now()))
    {
      if At(position, currentNode) == 0 {
        prevRequest := None;
        return;
      }
      if |nodes[currentNode].children| != 0 {
        prevRequest := Some(Ptr(currentNode, At(position, currentNode) - 1));
      }
    }

    method NextRequest() returns (req: Option<Ptr>)
      requires Valid()
      modifies this`position, this`currentNode, this`prevRequest
      ensures Valid() && (Now(), req) == Next(Code(), old(Now()))
      decreases currentNode
    {
      hide WellFormed, OkPositions, OkSteps, Next;
      ghost var p, st := Code(), Now();
      SetPreviousRequest();
      var i := At(position, currentNode);
      if i < |nodes[currentNode].children| {
        NextHere(p, st);
        position := Put(position, currentNode, i + 1);
        return Some(Ptr(currentNode, i));
      }
      ParentFacts(p, currentNode);
      var parent := nodes[currentNode].parent;
      position := Put(position, currentNode, 0);
      if parent.None? {
        NextEnds(p, st);
        return None;
      }
      NextLeaves(p, st);
      currentNode := parent.value;
      req := NextRequest();
    }

    method CompleteTreeTraversal(n: Option<nat>)
      requires WellFormed(Code()) && (n.Some? ==> n.value < |nodes|)
      modifies this`position
      ensures position == CompleteUp(Code(), old(position), n)
      decreases if n.Some? then n.value + 1 else 0
    {
      hide WellFormed;
      if n.Some? {
        ParentFacts(Code(), n.value);
        if nodes[n.value].parent.Some? && At(position, n.value) == 0 {
          position := Put(position, n.value, |nodes[n.value].children|);
          CompleteTreeTraversal(nodes[n.value].parent);
        }
      }
    }

    /** The part of Goto that looks after the nodes above the target's. */
    method RepairParents(n: nat)
      requires WellFormed(Code()) && n < |nodes|
      modifies this`position
      ensures position == Repair(Code(), old(position), n)
    {
      hide WellFormed, OkPositions, CompleteUp;
      ParentFacts(Code(), n);
      var parent := nodes[n].parent;
      if parent.Some? {
        ParentFacts(Code(), parent.value);
        position := Put(position, parent.value, nodes[n].idx + 1);
        CompleteTreeTraversal(nodes[parent.value].parent);
      }
    }

    method Goto(tag: string) returns (ok: bool)
      requires Valid()
      modifies this`position, this`currentNode, this`gotoCounter
      ensures Valid() && (Now(), ok) == Machine.Goto(Code(), old(Now()), tag)
    {
      hide WellFormed, OkPositions, OkSteps, Repair;
      if gotoCounter > MAX_GOTO {
        return false;
      }
      if tag in tags {
        var target := tags[tag];
        TagFacts(Code(), tag);
        position := Put(position, currentNode, 0);
        currentNode := target.node;
        position := Put(position, currentNode, target.at);
        RepairParents(currentNode);
        gotoCounter := gotoCounter + 1;
        assert Now() == Machine.Goto(Code(), old(Now()), tag).0;
        return true;
      }
      return false;
    }

    method RepeatInterrupted(names: set<string>) returns (again: bool)
      requires Valid()
      modifies this`position, this`interrupted
      ensures Valid() && (Now(), again) == Machine.RepeatInterrupted(Code(), old(Now()), names)
    {
      hide WellFormed, OkPositions, OkSteps;
      var req := interrupted;
      interrupted := None;
      if req.None? || Deref(Code(), req.value).h.name !in names {
        return false;
      }
      var pos: int := At(position, currentNode) - 1;
      if pos < 0 || pos >= |nodes[currentNode].children| || Ptr(currentNode, pos) != req.value {
        return false;
      }
      position := Put(position, currentNode, pos);
      assert Now() == Machine.RepeatInterrupted(Code(), old(Now()), names).0;
      return true;
    }

    method Reset()
      requires Valid()
      modifies this`position, this`cancel
      ensures Valid() && Code() == old(Code()) && Now() == Machine.Reset(old(Now()))
    {
      hide WellFormed, OkSteps;
      position := Put(position, currentNode, 0);
      cancel := false;
    }

    // ----- handlers -----

    /** conditionHandler */
    method ConditionHandler(then_: nat, else_: nat, v: Verdict)
      modifies this`position, this`currentNode
      requires then_ < |nodes| && else_ < |nodes|
      ensures Now() == match v
                       case Yes => Enter(Code(), old(Now()), then_)
                       case No => Enter(Code(), old(Now()), else_)
                       case Fault => old(Now())
    {
      match v
      case Yes =>
        position := Put(position, then_, 0);
        currentNode := then_;
      case No =>
        position := Put(position, else_, 0);
        currentNode := else_;
      case Fault =>
    }

    /** switchHandler */
    method SwitchHandler(refs: CaseRefs, text: string)
      requires forall name :: FindCase(refs, name).Some? ==> FindCase(refs, name).value < |nodes|
      modifies this`position, this`currentNode
      ensures Now() == match PickCase(refs, text)
                       case Some(k) => Enter(Code(), old(Now()), k)
                       case None => old(Now())
    {
      var k := FindCase(refs, text);
      if k.Some? {
        position := Put(position, k.value, 0);
        currentNode := k.value;
      } else {
        k := FindCase(refs, "default");
        if k.Some? {
          position := Put(position, k.value, 0);
          currentNode := k.value;
        }
      }
    }

    /** whileHandler */
    method WhileHandler(do: nat, condition: Verdict)
      requires do < |nodes| && do in loops
      modifies this`position, this`currentNode, this`step, this`counter, this`entries
      ensures Now() == Machine.WhileHandler(Code(), old(Now()), do, condition)
    {
      hide Ok, At, Put;
      ghost var st := Now();
      if At(counter, do) != 0 && prevRequest == loops[do].originalParent {
        EndCycle(do);
        PutTwice(st.step, do, 0, 0);
        PutTwice(st.step, do, 0, 1);
      }
      if At(counter, do) < loops[do].maxSteps {
        if At(step, do) == 0 || condition.Yes? {
          NextStep(do);
        } else {
          EndCycle(do);
        }
        counter := Put(counter, do, At(counter, do) + 1);
      }
    }

    method NextStep(do: nat)
      requires do < |nodes|
      modifies this`position, this`currentNode, this`step, this`entries
      ensures if |nodes[do].children| == 1 then Now() == old(Now()).(step := Put(old(step), do, 0))
              else Now() == Enter(Code(), old(Now()), do).(step := Put(old(step), do, At(old(step), do) + 1),
                                                           entries := Put(old(entries), do, At(old(entries), do) + 1))
    {
      if |nodes[do].children| == 1 {
        EndCycle(do);
        return;
      }
      position := Put(position, do, 0);
      currentNode := do;
      entries := Put(entries, do, At(entries, do) + 1);
      step := Put(step, do, At(step, do) + 1);
    }

    method EndCycle(do: nat)
      modifies this`step
      ensures step == Put(old(step), do, 0)
    {
      step := Put(step, do, 0);
    }

    /** What the registered handler of a request does to this flow. */
    method Perform(a: Ptr, r: Reply)
      requires Valid() && Addresses(Code(), a)
      modifies this`position, this`currentNode, this`step, this`counter, this`entries, this`gotoCounter, this`cancel
      ensures Valid() && Now() == Handle(Code(), old(Now()), a, r)
    {
      hide WellFormed, OkPositions, OkSteps, Machine.Goto, Machine.WhileHandler, FindCase, Enter;
      RequestFacts(Code(), a);
      cancel := cancel || r.cancel;
      ghost var st := Now();
      match nodes[a.node].children[a.at].kind
      case App =>
        if r.jump.Some? {
          var _ := Goto(r.jump.value);
        }
      case BreakApp =>
        cancel := true;
      case Cond(t, e) =>
        ConditionHandler(t, e, r.verdict);
      case Choice(refs) =>
        forall name ensures FindCase(refs, name).Some? ==> FindCase(refs, name).value < |nodes| {
          FindCaseNested(Code(), refs, a.node, a.at, name);
        }
        SwitchHandler(refs, r.text);
      case Loop(do) =>
        WhileHandler(do, r.verdict);
    }

    // ----- the driver -----

    /** The select of Route and what follows it; the run goes on unless it was cut off or cancelled. */
    method HandOver(a: Ptr, handler: Oracle) returns (goOn: bool)
      requires Valid() && Addresses(Code(), a)
      modifies this`position, this`currentNode, this`step, this`counter, this`entries, this`gotoCounter, this`cancel,
               this`hist, this`interrupted
      ensures Valid() && Now() == Dispatch(Code(), old(Now()), a, handler).st
      ensures goOn == Dispatch(Code(), old(Now()), a, handler).Continue?
    {
      hide WellFormed, OkPositions, OkSteps, Handle;
      var req := nodes[a.node].children[a.at];
      hist := hist + [Record(req)];
      var reply := handler(hist);
      if reply.finish.Cut? {
        if reply.finish.ran {
          Perform(a, reply);
        }
        interrupted := Some(a);
        cancel := true;
        return false;
      }
      Perform(a, reply);
      if req.h.isBreak {
        cancel := true;
      }
      return !cancel;
    }

    /** One round of Route's loop. */
    method Round(handler: Oracle) returns (goOn: bool)
      requires Valid()
      modifies this`position, this`currentNode, this`prevRequest, this`step, this`counter, this`entries,
               this`gotoCounter, this`cancel, this`sent, this`hist, this`interrupted
      ensures Valid() && Now() == Turn(Code(), old(Now()), handler).st
      ensures goOn == Turn(Code(), old(Now()), handler).Continue?
    {
      hide WellFormed, OkPositions, OkSteps, Next, Dispatch, Machine.Goto;
      var next := NextRequest();
      if next.None? || cancel {
        return false;
      }
      var a := next.value;
      RequestFacts(Code(), a);
      var limiter := nodes[a.node].children[a.at].limiter;
      if limiter.Some? {
        var l := limiter.value;
        if At(sent, l) >= limits[l].max {
          goOn := Goto(limits[l].failover);
          return;
        }
        sent := Put(sent, l, At(sent, l) + 1);
      }
      goOn := HandOver(a, handler);
    }

    method Route(handler: Oracle)
      requires Valid()
      modifies this`position, this`currentNode, this`prevRequest, this`step, this`counter, this`entries,
               this`gotoCounter, this`cancel, this`sent, this`hist, this`interrupted
      ensures Valid() && Code() == old(Code()) && Now() == Termination.Route(Code(), old(Now()), handler)
    {
      hide WellFormed, OkPositions, OkSteps, Turn, Work, StepsLeft;
      interrupted := None;
      while true
        invariant Valid()
        invariant Rounds(Code(), Now(), handler) == Termination.Route(Code(), old(Now()), handler)
        decreases JumpsLeft(Now()), LoopsLeft(Code(), Now()), WorkLeft(Code(), Now())
      {
        ghost var round := Turn(Code(), Now(), handler);
        if round.Continue? {
          TurnLowers(Code(), Now(), handler);
        }
        var goOn := Round(handler);
        if !goOn {
          return;
        }
      }
    }
  }

  // ----- lemmas for the loops above -----

  function Joined(a: CaseRefs, b: CaseRefs): CaseRefs {
    match a
    case NoRefs => b
    case Ref(name, k, rest) => Ref(name, k, Joined(rest, b))
  }

  lemma JoinedOne(a: CaseRefs, name: string, k: nat, b: CaseRefs)
    ensures Joined(Joined(a, Ref(name, k, NoRefs)), b) == Joined(a, Ref(name, k, b))
  {}

  lemma JoinedNone(a: CaseRefs)
    ensures Joined(a, NoRefs) == a
  {}
}
