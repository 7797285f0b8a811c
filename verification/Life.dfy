/** What holds over the whole life of a flow: any number of runs, interruptions, resets and jumps. */
module Life {
  import opened Common
  import opened Schema
  import opened World
  import opened Tree
  import opened Parsing
  import opened Machine
  import opened Termination

  /** Everything that can be done to a flow. */
  datatype Act =
    | Run(o: Oracle)
    | Repeat(names: set<string>)
    | Clear
    | Cancel
    | StartOver
    | Jump(tag: string)

  ghost function Do(p: Program, st: State, act: Act): (st': State)
    requires WellFormed(p) && Ok(p, st)
    ensures Ok(p, st')
  {
    hide WellFormed, Route, Goto, RepeatInterrupted;
    match act
    case Run(o) => Route(p, st, o)
    case Repeat(names) => RepeatInterrupted(p, st, names).0
    case Clear => st.(cancel := false)
    case Cancel => st.(cancel := true)
    case StartOver => Reset(st)
    case Jump(tag) => Goto(p, st, tag).0
  }

  ghost function DoAll(p: Program, acts: seq<Act>): (st': State)
    requires WellFormed(p)
    ensures Ok(p, st')
  {
    if acts == [] then INITIAL else Do(p, DoAll(p, acts[..|acts| - 1]), acts[|acts| - 1])
  }

  // ----- budgets -----

  /** How often requests with limiter `l` were dispatched. */
  function Dispatched(hist: seq<Event>, l: nat): nat {
    if hist == [] then 0
    else Dispatched(hist[..|hist| - 1], l) + if hist[|hist| - 1].limiter == Some(l) then 1 else 0
  }

  /** Loop `d` has used no more steps than it has, and entered its body no more often than it used steps. */
  ghost predicate ThriftyLoop(p: Program, counter: Table, entries: Table, d: nat)
  {
    d in p.loops ==>
      && At(entries, d) <= At(counter, d)
      && (At(counter, d) == 0 || At(counter, d) <= p.loops[d].maxSteps)
  }

  ghost predicate ThriftyLoops(p: Program, counter: Table, entries: Table) {
    forall d: nat {:trigger At(counter, d)} {:trigger At(entries, d)} :: ThriftyLoop(p, counter, entries, d)
  }

  /** Limiter `l` counts the requests dispatched under it, and they are within its limit. */
  ghost predicate ThriftyLimiter(p: Program, sent: Table, hist: seq<Event>, l: nat) {
    l < |p.limits| ==> At(sent, l) == Dispatched(hist, l) <= p.limits[l].max
  }

  ghost predicate ThriftyLimiters(p: Program, sent: Table, hist: seq<Event>) {
    forall l: nat {:trigger At(sent, l)} {:trigger Dispatched(hist, l)} :: ThriftyLimiter(p, sent, hist, l)
  }

  ghost predicate Thrifty(p: Program, st: State) {
    ThriftyLoops(p, st.counter, st.entries) && ThriftyLimiters(p, st.sent, st.hist)
  }

  lemma WhileThrifty(p: Program, st: State, d: nat, v: Verdict)
    requires d < |p.nodes| && d in p.loops && ThriftyLoops(p, st.counter, st.entries)
    ensures var st' := WhileHandler(p, st, d, v); ThriftyLoops(p, st'.counter, st'.entries)
  {
    hide Ok, Put;
    assert ThriftyLoop(p, st.counter, st.entries, d);
  }

  lemma HandleThrifty(p: Program, st: State, a: Ptr, r: Reply)
    requires WellFormed(p) && Ok(p, st) && Addresses(p, a) && Thrifty(p, st)
    ensures Thrifty(p, Handle(p, st, a, r))
  {
    hide WellFormed, Ok, FindCase, ThriftyLoops, ThriftyLimiters, WhileHandler, Goto;
    RequestFacts(p, a);
    if Deref(p, a).kind.Loop? {
      WhileThrifty(p, st.(cancel := st.cancel || r.cancel), Deref(p, a).kind.do, r.verdict);
    }
  }

  lemma DispatchedNext(hist: seq<Event>, e: Event, l: nat)
    ensures Dispatched(hist + [e], l) == Dispatched(hist, l) + if e.limiter == Some(l) then 1 else 0
  {
    assert (hist + [e])[..|hist|] == hist;
  }

  lemma LimiterCounts(p: Program, sent: Table, hist: seq<Event>, l: nat, e: Event)
    requires ThriftyLimiters(p, sent, hist) && e.limiter == Some(l) && l < |p.limits| && At(sent, l) < p.limits[l].max
    ensures ThriftyLimiters(p, Put(sent, l, At(sent, l) + 1), hist + [e])
  {
    hide Dispatched, At, Put;
    var hist', sent' := hist + [e], Put(sent, l, At(sent, l) + 1);
    forall k: nat ensures ThriftyLimiter(p, sent', hist', k) {
      DispatchedNext(hist, e, k);
      assert ThriftyLimiter(p, sent, hist, k);
    }
  }

  lemma NoLimiterCounts(p: Program, sent: Table, hist: seq<Event>, e: Event)
    requires ThriftyLimiters(p, sent, hist) && e.limiter == None
    ensures ThriftyLimiters(p, sent, hist + [e])
  {
    hide Dispatched, At;
    var hist' := hist + [e];
    forall k: nat ensures ThriftyLimiter(p, sent, hist', k) {
      DispatchedNext(hist, e, k);
      assert ThriftyLimiter(p, sent, hist, k);
    }
  }

  lemma TurnThrifty(p: Program, st: State, o: Oracle)
    requires WellFormed(p) && Ok(p, st) && Thrifty(p, st)
    ensures Thrifty(p, Turn(p, st, o).st)
  {
    hide WellFormed, OkPositions, OkSteps, Next, Handle, Goto, ThriftyLoops, ThriftyLimiters, Put;
    NextMoves(p, st);
    var (st1, next) := Next(p, st);
    if next.Some? {
      var a := next.value;
      RequestFacts(p, a);
      var req := Deref(p, a);
      if req.limiter.None? {
        NoLimiterCounts(p, st1.sent, st1.hist, Record(req));
        var st2 := st1.(hist := st1.hist + [Record(req)]);
        HandleThrifty(p, st2, a, o(st2.hist));
      } else if At(st1.sent, req.limiter.value) < p.limits[req.limiter.value].max {
        var l := req.limiter.value;
        LimiterCounts(p, st1.sent, st1.hist, l, Record(req));
        var st2 := st1.(sent := Put(st1.sent, l, At(st1.sent, l) + 1), hist := st1.hist + [Record(req)]);
        HandleThrifty(p, st2, a, o(st2.hist));
      }
    }
  }

  lemma {:induction false} RoundsThrifty(p: Program, st: State, o: Oracle)
    requires WellFormed(p) && Ok(p, st) && Thrifty(p, st)
    ensures Thrifty(p, Rounds(p, st, o))
    decreases JumpsLeft(st), LoopsLeft(p, st), WorkLeft(p, st)
  {
    hide WellFormed, Ok, Turn, Work, StepsLeft, Thrifty;
    TurnThrifty(p, st, o);
    match Turn(p, st, o)
    case Halt(_) =>
    case Continue(st') =>
      TurnLowers(p, st, o);
      RoundsThrifty(p, st', o);
  }

  lemma DoThrifty(p: Program, st: State, act: Act)
    requires WellFormed(p) && Ok(p, st) && Thrifty(p, st)
    ensures Thrifty(p, Do(p, st, act))
  {
    hide WellFormed, OkPositions, OkSteps, Rounds, ThriftyLoops, ThriftyLimiters;
    if act.Run? {
      RoundsThrifty(p, st.(interrupted := None), act.o);
    }
  }

  lemma NewIsThrifty(p: Program)
    ensures Thrifty(p, INITIAL)
  {
    forall l: nat ensures ThriftyLimiter(p, INITIAL.sent, INITIAL.hist, l) {}
    forall d: nat ensures ThriftyLoop(p, INITIAL.counter, INITIAL.entries, d) {}
  }

  lemma {:induction false} LifeIsThrifty(p: Program, acts: seq<Act>)
    requires WellFormed(p)
    ensures Thrifty(p, DoAll(p, acts))
  {
    hide WellFormed, Do;
    if acts == [] {
      NewIsThrifty(p);
    } else {
      LifeIsThrifty(p, acts[..|acts| - 1]);
      DoThrifty(p, DoAll(p, acts[..|acts| - 1]), acts[|acts| - 1]);
    }
  }

  /** Over the whole life of any parsed flow: the state stays well formed; a loop enters its body at most
      maxSteps times; at most 1001 jumps succeed, which an int16 holds; and the requests that share a
      limiter are dispatched at most `max` times. */
  lemma BudgetsLastALifetime(b: Block, acts: seq<Act>)
    ensures WellFormed(Compile(b))
    ensures var p := Compile(b);
            var st := DoAll(p, acts);
            && Ok(p, st)
            && (forall d: nat | d in p.loops :: At(st.entries, d) == 0 || At(st.entries, d) <= p.loops[d].maxSteps)
            && st.gotos <= 1001 < 0x8000
            && (forall l: nat | l < |p.limits| :: Dispatched(st.hist, l) <= p.limits[l].max)
  {
    CompileWellFormed(b);
    var p := Compile(b);
    hide WellFormed, DoAll, Dispatched, At, Compile;
    LifeIsThrifty(p, acts);
    var st := DoAll(p, acts);
    forall d: nat | d in p.loops
      ensures At(st.entries, d) == 0 || At(st.entries, d) <= p.loops[d].maxSteps
    {
      assert ThriftyLoop(p, st.counter, st.entries, d);
    }
    forall l: nat | l < |p.limits|
      ensures Dispatched(st.hist, l) <= p.limits[l].max
    {
      assert ThriftyLimiter(p, st.sent, st.hist, l);
    }
  }

  // ----- nothing is given back -----

  /** `st'` has at most the jumps, loop steps and limiter dispatches left that `st` has, and has forgotten
      nothing that was dispatched. */
  ghost predicate Later(st: State, st': State) {
    && st.gotos <= st'.gotos && st.hist <= st'.hist
    && (forall k: nat {:trigger At(st'.counter, k)} :: At(st.counter, k) <= At(st'.counter, k))
    && (forall k: nat {:trigger At(st'.sent, k)} :: At(st.sent, k) <= At(st'.sent, k))
  }

  lemma LaterStill(a: State, b: State, c: State)
    requires Later(a, b) && Later(b, c)
    ensures Later(a, c)
  {
    forall k: nat ensures At(a.counter, k) <= At(c.counter, k) && At(a.sent, k) <= At(c.sent, k) {
      assert At(b.counter, k) <= At(c.counter, k) && At(b.sent, k) <= At(c.sent, k);
    }
  }

  lemma HandleLater(p: Program, st: State, a: Ptr, r: Reply)
    requires WellFormed(p) && Ok(p, st) && Addresses(p, a)
    ensures Later(st, Handle(p, st, a, r))
  {
    hide WellFormed, OkPositions, OkSteps, FindCase, Goto;
    RequestFacts(p, a);
  }

  lemma TurnLater(p: Program, st: State, o: Oracle)
    requires WellFormed(p) && Ok(p, st)
    ensures Later(st, Turn(p, st, o).st)
  {
    hide WellFormed, OkPositions, OkSteps, Next, Handle, Goto, Put;
    NextMoves(p, st);
    var (st1, next) := Next(p, st);
    if next.Some? {
      var a := next.value;
      RequestFacts(p, a);
      var l, hist := Deref(p, a).limiter, st1.hist + [Record(Deref(p, a))];
      if l.None? {
        HandleLater(p, st1.(hist := hist), a, o(hist));
      } else {
        HandleLater(p, st1.(hist := hist, sent := Put(st1.sent, l.value, At(st1.sent, l.value) + 1)), a, o(hist));
      }
    }
  }

  lemma {:induction false} RoundsLater(p: Program, st: State, o: Oracle)
    requires WellFormed(p) && Ok(p, st)
    ensures Later(st, Rounds(p, st, o))
    decreases JumpsLeft(st), LoopsLeft(p, st), WorkLeft(p, st)
  {
    hide WellFormed, Ok, Turn, Work, StepsLeft, Later;
    TurnLater(p, st, o);
    match Turn(p, st, o)
    case Halt(_) =>
    case Continue(st') =>
      TurnLowers(p, st, o);
      RoundsLater(p, st', o);
      LaterStill(st, st', Rounds(p, st', o));
  }

  lemma DoLater(p: Program, st: State, act: Act)
    requires WellFormed(p) && Ok(p, st)
    ensures Later(st, Do(p, st, act))
  {
    hide WellFormed, OkPositions, OkSteps, Rounds, Goto;
    if act.Run? {
      RoundsLater(p, st.(interrupted := None), act.o);
    }
  }

  /** Nothing that can be done to a flow gives it back jumps, loop steps or dispatches of a limiter. */
  lemma {:induction false} NothingIsGivenBack(p: Program, acts: seq<Act>, more: seq<Act>)
    requires WellFormed(p)
    ensures Later(DoAll(p, acts), DoAll(p, acts + more))
    decreases |more|
  {
    hide WellFormed, Ok, Do, Later;
    if more == [] {
      assert acts + more == acts;
      LaterSelf(DoAll(p, acts));
    } else {
      var all := acts + more;
      assert all[..|all| - 1] == acts + more[..|more| - 1];
      NothingIsGivenBack(p, acts, more[..|more| - 1]);
      DoLater(p, DoAll(p, all[..|all| - 1]), all[|all| - 1]);
      LaterStill(DoAll(p, acts), DoAll(p, all[..|all| - 1]), DoAll(p, all));
    }
  }

  lemma LaterSelf(st: State)
    ensures Later(st, st)
  {}

  function Repeatedly(t: string, k: nat): seq<Act> {
    seq(k, _ => Jump(t))
  }

  /** Of any number of jumps to a tag, exactly the first 1001 succeed. */
  lemma {:induction false} ExactlySoManyJumps(p: Program, t: string, k: nat)
    requires WellFormed(p) && t in p.tags
    ensures var st := DoAll(p, Repeatedly(t, k));
            st.gotos == (if k <= 1001 then k else 1001) && (Goto(p, st, t).1 <==> k <= 1000)
  {
    hide WellFormed, OkPositions, OkSteps, Repair;
    if k > 0 {
      ExactlySoManyJumps(p, t, k - 1);
      assert Repeatedly(t, k)[..k - 1] == Repeatedly(t, k - 1);
    }
  }
}
