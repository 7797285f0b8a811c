/** Timer (flow/timer.go): one forked flow, run again and again. */
module Timer {
  import opened Common
  import opened Schema
  import opened World
  import opened Tree
  import opened Parsing
  import opened Machine
  import opened FlowObject
  import opened Semantics
  import opened Simulation
  import Termination

  /** The pause after `j` runs. */
  function Pause(interval: int, offset: int, j: int): int {
    interval + j * offset
  }

  lemma PauseGrows(interval: int, offset: int, j: int)
    ensures Pause(interval, offset, j + 1) == Pause(interval, offset, j) + offset
    ensures Pause(interval, offset, 0) == interval
  {}

  /** The j-th run is the last one: the tries are used up, or the next interval would be below a second. */
  predicate IsLast(interval: int, tries: int, offset: int, j: int) {
    j >= (if tries == 0 then 999 else tries) || Pause(interval, offset, j) < 1
  }

  /** The flow after `k` runs, reset in between. */
  ghost function Repeated(p: Program, handler: Oracle, k: nat): (st: State)
    requires WellFormed(p)
    ensures Ok(p, st)
  {
    if k == 0 then INITIAL
    else Termination.Route(p, if k == 1 then INITIAL else Reset(Repeated(p, handler, k - 1)), handler)
  }

  /** `f` has run `k` times over. */
  ghost predicate HasRun(f: Flow, actions: Block, handler: Oracle, k: nat)
    reads f
  {
    f.Valid() && f.Code() == Compile(actions) && f.Now() == Repeated(f.Code(), handler, k)
  }

  /** `f` is ready for its next run after `k` runs. */
  ghost predicate IsReady(f: Flow, actions: Block, handler: Oracle, k: nat)
    reads f
  {
    && f.Valid() && f.Code() == Compile(actions)
    && f.Now() == if k == 0 then INITIAL else Reset(Repeated(f.Code(), handler, k))
  }

  method Fork(actions: Block, ghost handler: Oracle) returns (f: Flow)
    ensures fresh(f) && IsReady(f, actions, handler, 0)
  {
    hide WellFormed, Ok, Compile;
    f := new Flow(actions);
  }

  method RunOnce(f: Flow, ghost actions: Block, handler: Oracle, ghost k: nat)
    requires IsReady(f, actions, handler, k)
    modifies f
    ensures HasRun(f, actions, handler, k + 1)
  {
    hide WellFormed, Ok, Termination.Route, Compile, Reset;
    f.Route(handler);
  }

  method GetReady(f: Flow, ghost actions: Block, ghost handler: Oracle, ghost k: nat)
    requires k > 0 && HasRun(f, actions, handler, k)
    modifies f
    ensures IsReady(f, actions, handler, k)
  {
    hide WellFormed, Ok, Termination.Route, Compile, Reset, Repeated;
    f.Reset();
  }

  /** The timer stops after `j` runs: the j-th run was the last, or the context is done while it waits. */
  predicate Stops(interval: int, tries: int, offset: int, waits: nat -> bool, j: nat) {
    (j >= 1 && IsLast(interval, tries, offset, j)) || !waits(j)
  }

  /** Unless the interval is zero, the flow runs for the least number of times after which the timer stops;
      `waits(j)` tells whether the wait after `j` runs ends with the tick and not with the context. */
  method Timer(interval: int, tries: int, offset: int, actions: Block, handler: Oracle, waits: nat -> bool)
    returns (f: Flow?, runs: nat)
    ensures interval == 0 ==> f == null && runs == 0
    ensures interval != 0 ==>
              && Stops(interval, tries, offset, waits, runs)
              && (forall j: nat | j < runs :: !Stops(interval, tries, offset, waits, j))
    ensures interval != 0 ==>
              f != null && if runs >= 1 && IsLast(interval, tries, offset, runs) then HasRun(f, actions, handler, runs)
                           else IsReady(f, actions, handler, runs)
  {
    hide HasRun, IsReady, Pause;
    if interval == 0 {
      return null, 0;
    }
    var limit := if tries == 0 then 999 else tries;
    var pause := interval;
    runs := 0;
    f := Fork(actions, handler);
    PauseGrows(interval, offset, 0);
    while waits(runs)
      invariant fresh(f) && IsReady(f, actions, handler, runs)
      invariant pause == Pause(interval, offset, runs)
      invariant forall j: nat | j < runs :: !Stops(interval, tries, offset, waits, j)
      invariant runs >= 1 ==> !IsLast(interval, tries, offset, runs)
      decreases if runs < limit then limit - runs else 0
    {
      PauseGrows(interval, offset, runs);
      RunOnce(f, actions, handler, runs);
      runs := runs + 1;
      pause := pause + offset;
      if runs >= limit || pause < 1 {
        return;
      }
      GetReady(f, actions, handler, runs);
    }
  }

  // ----- what the runs mean -----

  /** The schema executed `k` times over, each time with the loop budgets that are left. */
  ghost function Iterated(b: Block, o: Oracle, k: nat): Outcome {
    if k == 0 then OutcomeOf(INITIAL) else ExecBlock(b, 1, Iterated(b, o, k - 1), o)
  }

  /** As long as no run stops, the runs of a timer over a schema without limits and jumps dispatch what the
      schema means, over and over. */
  lemma {:induction false} TimerIteratesSchema(b: Block, o: Oracle, k: nat)
    requires Unlimited(b) && NeverJumps(o) && forall j: nat | j < k :: !Iterated(b, o, j).stopped
    ensures WellFormed(Compile(b))
    ensures var st := Repeated(Compile(b), o, k);
            var m := Iterated(b, o, k);
            && st.hist == m.hist && (st.cancel <==> m.stopped)
            && (!m.stopped ==> AtStart(st) && st.counter == m.counter)
  {
    hide WellFormed, OkPositions, OkSteps, Compile, ExecBlock, Unlimited, NeverJumps, Termination.Route;
    CompileWellFormed(b);
    if k > 0 {
      TimerIteratesSchema(b, o, k - 1);
      var st := if k == 1 then INITIAL else Reset(Repeated(Compile(b), o, k - 1));
      InitialOk(Compile(b));
      assert Ok(Compile(b), st) && AtStart(st) by { ResetOk(Compile(b), Repeated(Compile(b), o, k - 1)); }
      assert OutcomeOf(st) == Iterated(b, o, k - 1);
      RouteMeansSchema(b, st, o);
    }
  }

  lemma ResetOk(p: Program, st: State)
    requires Ok(p, st)
    ensures Ok(p, Reset(st))
  {}

  // ----- a second run that does not start at the start -----

  /** An `if` with one request in its `then` block. */
  function SmallIf(c: Header, x: Header): Block {
    Then(If(c, Then(Plain(x), End), End), End)
  }

  /** Every condition is true. */
  const SAYS_YES: Oracle := h => Reply(Yes, "", None, false, Finished)

  lemma SmallIfTree(c: Header, x: Header)
    requires c.limit == None && x.limit == None
    ensures var p := Compile(SmallIf(c, x));
            && WellFormed(p) && |p.nodes| == 3
            && Children(p, 0) == [Request(c, None, Cond(1, 2))]
            && Children(p, 1) == [Request(x, None, App)]
  {
    var b := SmallIf(c, x);
    var thn := b.first.thn;
    var p := Compile(b);
    CompileWellFormed(b);
    hide WellFormed, Compile;
    assert BlockNodes(thn) == 0 && Length(thn) == 1 && StmtNodes(b.first) == 2;
    assert BlockNodes(b) == 2 && Length(b) == 1;
    assert MirrorsStmt(p, 0, 0, b.first, 1);
    assert MirrorsKind(p, 0, 0, Children(p, 0)[0], b.first, 1);
    assert Mirrors(p, 1, 0, thn, 3);
    assert MirrorsStmt(p, 1, 0, Plain(x), 3);
    assert MirrorsKind(p, 1, 0, Children(p, 1)[0], Plain(x), 3);
  }

  /** From the start of the `then` block, a breaking request is all that is dispatched. */
  lemma SmallIfBreaks(c: Header, x: Header, st: State)
    requires c.limit == None && x.limit == None && x.isBreak
    requires WellFormed(Compile(SmallIf(c, x))) && Ok(Compile(SmallIf(c, x)), st)
    requires !st.cancel && st.cur == 1 && Pos(st, 1) == 0
    ensures var end := Termination.Rounds(Compile(SmallIf(c, x)), st, SAYS_YES);
            end.hist == st.hist + [Sent(x, None, true)] && end.cur == 1
  {
    var p := Compile(SmallIf(c, x));
    SmallIfTree(c, x);
    hide WellFormed, Compile, Next, OkPositions, OkSteps;
    NextHere(p, st);
  }

  /** A timer over an `if` whose `then` block breaks: the first run dispatches the `if` and the break, and the
      second one only the break, because it starts inside the block. */
  lemma SecondRunStartsInside(c: Header, x: Header)
    requires c.limit == None && x.limit == None && !c.isBreak && x.isBreak
    ensures WellFormed(Compile(SmallIf(c, x)))
    ensures var p := Compile(SmallIf(c, x));
            && Repeated(p, SAYS_YES, 1).hist == [Sent(c, None, false), Sent(x, None, true)]
            && Repeated(p, SAYS_YES, 2).hist == [Sent(c, None, false), Sent(x, None, true), Sent(x, None, true)]
            && !AtStart(Reset(Repeated(p, SAYS_YES, 1)))
  {
    var p := Compile(SmallIf(c, x));
    SmallIfTree(c, x);
    hide WellFormed, Compile, Next, OkPositions, OkSteps;
    InitialOk(p);
    NextHere(p, INITIAL);
    var st := Machine.Turn(p, INITIAL, SAYS_YES).st;
    assert Machine.Turn(p, INITIAL, SAYS_YES) == Continue(st);
    assert Termination.Rounds(p, INITIAL, SAYS_YES) == Termination.Rounds(p, st, SAYS_YES);
    hide Turn, Termination.Rounds;
    SmallIfBreaks(c, x, st);
    assert INITIAL.(interrupted := None) == INITIAL;
    var one := Repeated(p, SAYS_YES, 1);
    SmallIfBreaks(c, x, Reset(one).(interrupted := None));
  }
}
