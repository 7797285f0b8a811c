/** Synchronous calls (execute, schema, list): a handler forks a flow, runs it to its end, and cancels the
    calling flow if the forked one was cancelled. A break therefore stops every flow on the call stack. */
module Calls {
  import opened Common
  import opened Schema
  import opened World
  import opened Tree
  import opened Parsing
  import opened Machine
  import opened Termination

  // ----- one flow -----

  /** Event `k` of the history ends the run of its flow. */
  ghost predicate Ends(o: Oracle, hist: seq<Event>, k: nat)
    requires k < |hist|
  {
    hist[k].breaks || o(hist[..k + 1]).cancel || o(hist[..k + 1]).finish.Cut?
  }

  /** A round that dispatches such a request is the last one, and it leaves the flow cancelled. */
  lemma TurnEnds(p: Program, st: State, o: Oracle)
    requires WellFormed(p) && Ok(p, st) && |Turn(p, st, o).st.hist| == |st.hist| + 1
    requires Ends(o, Turn(p, st, o).st.hist, |st.hist|)
    ensures Turn(p, st, o).Halt? && Turn(p, st, o).st.cancel
  {
    hide WellFormed, OkPositions, OkSteps, Next, Handle, Goto;
    NextMoves(p, st);
    var h := Turn(p, st, o).st.hist;
    assert h[..|st.hist| + 1] == h;
  }

  lemma {:induction false} RoundsEnd(p: Program, st: State, o: Oracle, k: nat)
    requires WellFormed(p) && Ok(p, st)
    requires |st.hist| <= k < |Rounds(p, st, o).hist| && Ends(o, Rounds(p, st, o).hist, k)
    ensures k == |Rounds(p, st, o).hist| - 1 && Rounds(p, st, o).cancel
    decreases JumpsLeft(st), LoopsLeft(p, st), WorkLeft(p, st)
  {
    hide WellFormed, Ok, Turn, Work, StepsLeft;
    TurnSends(p, st, o);
    var h := Rounds(p, st, o).hist;
    match Turn(p, st, o)
    case Halt(_) =>
      TurnEnds(p, st, o);
    case Continue(st') =>
      TurnLowers(p, st, o);
      RoundsExtend(p, st', o);
      if k < |st'.hist| {
        assert h[..k + 1] == st'.hist == st'.hist[..k + 1];
        assert st'.hist[k] == h[k];
        TurnEnds(p, st, o);
      } else {
        RoundsEnd(p, st', o, k);
      }
  }

  // ----- flows that call flows -----

  /** What the world answers to the requests of one flow, in turn; some of them are calls. */
  datatype Script = Quiet | Answer(reply: Reply, call: Option<Call>, rest: Script)

  /** A schema to fork and run, and what the world answers to its requests. */
  datatype Call = Call(callee: Block, script: Script)

  const SILENCE: Reply := Reply(Fault, "", None, false, Finished)

  function InTurn(replies: seq<Reply>): Oracle {
    h => if 0 < |h| <= |replies| then replies[|h| - 1] else SILENCE
  }

  /** The handler of a request that was cut off may not have run. */
  predicate Ran(r: Reply) {
    r.finish != Cut(false)
  }

  /** The replies a flow gets: a call cancels the caller if the forked flow ends up cancelled. */
  ghost function Replies(s: Script): seq<Reply>
    decreases s
  {
    match s
    case Quiet => []
    case Answer(r, call, rest) =>
      [if call.Some? && Ran(r) && Forked(call.value).cancel then r.(cancel := true) else r] + Replies(rest)
  }

  /** Fork and Route: the end of a forked flow's run. */
  ghost function Forked(c: Call): (st: State)
    decreases c, 0
  {
    RunOf(c.callee, InTurn(Replies(c.script)))
  }

  /** The end of the first run of a new flow. */
  ghost function RunOf(b: Block, o: Oracle): State {
    CompileWellFormed(b);
    Route(Compile(b), INITIAL, o)
  }

  /** A request dispatched by the flow at depth `depth` of the call stack. */
  datatype Step = Step(depth: nat, e: Event)

  /** All requests in the order in which they are dispatched, over all flows. */
  ghost function Trace(hist: seq<Event>, s: Script, depth: nat): (t: seq<Step>)
    decreases s, |hist|
  {
    if hist == [] then []
    else [Step(depth, hist[0])] + TraceCall(s, depth + 1) + Trace(hist[1..], Later(s), depth)
  }

  /** The requests of the flow that the first answer calls. */
  ghost function TraceCall(s: Script, depth: nat): seq<Step>
    decreases s, 0
  {
    if s.Answer? && s.call.Some? && Ran(s.reply)
    then Trace(Forked(s.call.value).hist, s.call.value.script, depth)
    else []
  }

  function Later(s: Script): Script {
    if s.Quiet? then s else s.rest
  }

  /** After a break, nothing is dispatched but what the breaking request itself has called. */
  ghost predicate NothingAfterBreak(t: seq<Step>) {
    forall i, j | 0 <= i < j < |t| && t[i].e.breaks :: t[j].depth > t[i].depth
  }

  ghost predicate HasBreak(t: seq<Step>) {
    exists i :: 0 <= i < |t| && t[i].e.breaks
  }

  ghost predicate Deep(t: seq<Step>, depth: nat) {
    forall i | 0 <= i < |t| :: t[i].depth >= depth
  }

  lemma {:induction false} TraceDepth(hist: seq<Event>, s: Script, depth: nat)
    ensures Deep(Trace(hist, s, depth), depth)
    decreases s, |hist|
  {
    if hist != [] {
      TraceCallDepth(s, depth + 1);
      TraceDepth(hist[1..], Later(s), depth);
    }
  }

  lemma {:induction false} TraceCallDepth(s: Script, depth: nat)
    ensures Deep(TraceCall(s, depth), depth)
    decreases s, 0
  {
    if s.Answer? && s.call.Some? && Ran(s.reply) {
      TraceDepth(Forked(s.call.value).hist, s.call.value.script, depth);
    }
  }

  /** The events of `hist` from place `k` on are answered by `s`; an event that ends the run is the last. */
  ghost predicate Obeys(hist: seq<Event>, s: Script) {
    forall k | 0 <= k < |hist| && (hist[k].breaks || Cancels(s, k)) :: k == |hist| - 1
  }

  /** The k-th answer cancels the flow. */
  ghost predicate Cancels(s: Script, k: nat) {
    k < |Replies(s)| && Replies(s)[k].cancel
  }

  /** A forked flow is run as its script says, and if its trace has a break it ends up cancelled. */
  lemma ForkedObeys(c: Call)
    ensures Obeys(Forked(c).hist, c.script)
    ensures forall k | 0 <= k < |Forked(c).hist| && (Forked(c).hist[k].breaks || Cancels(c.script, k)) ::
              Forked(c).cancel
  {
    CompileWellFormed(c.callee);
    hide WellFormed, Ok, Rounds, Compile;
    var p := Compile(c.callee);
    var o := InTurn(Replies(c.script));
    var hist := Forked(c).hist;
    assert INITIAL.(interrupted := None) == INITIAL;
    assert Ok(p, INITIAL) by { InitialOk(p); }
    forall k | 0 <= k < |hist| && (hist[k].breaks || Cancels(c.script, k))
      ensures k == |hist| - 1 && Forked(c).cancel
    {
      assert o(hist[..k + 1]) == if k < |Replies(c.script)| then Replies(c.script)[k] else SILENCE;
      RoundsEnd(p, INITIAL, o, k);
    }
  }

  /** Some event of the flow itself is a break or is answered with a cancel. */
  ghost predicate Stopped(hist: seq<Event>, s: Script) {
    exists k :: 0 <= k < |hist| && (hist[k].breaks || Cancels(s, k))
  }

  lemma TailObeys(hist: seq<Event>, s: Script)
    requires Obeys(hist, s) && hist != []
    ensures Obeys(hist[1..], Later(s))
    ensures Stopped(hist[1..], Later(s)) ==> Stopped(hist, s)
    ensures hist[0].breaks || Cancels(s, 0) ==> |hist| == 1 && Stopped(hist, s)
  {
    forall k: nat | Cancels(Later(s), k)
      ensures Cancels(s, k + 1)
    {}
    if Stopped(hist[1..], Later(s)) {
      var k :| 0 <= k < |hist[1..]| && (hist[1..][k].breaks || Cancels(Later(s), k));
      assert hist[k + 1].breaks || Cancels(s, k + 1);
    }
  }

  lemma JoinBreaks(head: Step, mid: seq<Step>, tail: seq<Step>)
    requires Deep(mid, head.depth + 1)
    requires NothingAfterBreak(mid) && NothingAfterBreak(tail)
    requires head.e.breaks || HasBreak(mid) ==> tail == []
    ensures NothingAfterBreak([head] + mid + tail)
    ensures HasBreak([head] + mid + tail) ==> head.e.breaks || HasBreak(mid) || HasBreak(tail)
  {
    var t := [head] + mid + tail;
    forall i | 0 <= i < |t| && t[i].e.breaks
      ensures head.e.breaks || HasBreak(mid) || HasBreak(tail)
    {
      assert 0 < i <= |mid| ==> t[i] == mid[i - 1];
      assert i > |mid| ==> t[i] == tail[i - 1 - |mid|];
    }
    forall i, j | 0 <= i < j < |t| && t[i].e.breaks
      ensures t[j].depth > t[i].depth
    {
      if j <= |mid| {
        assert t[j] == mid[j - 1];
        assert i > 0 ==> t[i] == mid[i - 1];
      } else {
        assert t[j] == tail[j - 1 - |mid|];
        assert i > |mid| ==> t[i] == tail[i - 1 - |mid|];
      }
    }
  }

  /** In the trace of a flow run as its script says, nothing follows a break, and a break anywhere in it
      shows in the flow itself. */
  lemma {:induction false} TraceBreaks(hist: seq<Event>, s: Script, depth: nat)
    requires Obeys(hist, s)
    ensures NothingAfterBreak(Trace(hist, s, depth))
    ensures HasBreak(Trace(hist, s, depth)) ==> Stopped(hist, s)
    decreases s, |hist|, 1
  {
    hide NothingAfterBreak, HasBreak, Obeys, Stopped, Deep, Cancels, Replies, Forked;
    if hist == [] {
      NoBreak();
    } else {
      var head, mid, tail := Step(depth, hist[0]), TraceCall(s, depth + 1), Trace(hist[1..], Later(s), depth);
      TailObeys(hist, s);
      TraceBreaks(hist[1..], Later(s), depth);
      TraceCallDepth(s, depth + 1);
      CallBreaks(s, depth + 1);
      JoinBreaks(head, mid, tail);
    }
  }

  lemma NoBreak()
    ensures NothingAfterBreak([]) && !HasBreak([])
  {}

  /** A break anywhere in a call cancels the caller. */
  lemma {:induction false} CallBreaks(s: Script, depth: nat)
    ensures NothingAfterBreak(TraceCall(s, depth))
    ensures HasBreak(TraceCall(s, depth)) ==> Cancels(s, 0)
    decreases s, 0, 0
  {
    hide NothingAfterBreak, HasBreak, Trace, Forked, Obeys;
    if s.Answer? && s.call.Some? && Ran(s.reply) {
      ForkedObeys(s.call.value);
      TraceBreaks(Forked(s.call.value).hist, s.call.value.script, depth);
    } else {
      NoBreak();
    }
  }

  /** A break at any depth of synchronous calls stops all the flows on the call stack: after it no request
      is dispatched, except inside a call made by the breaking request itself; and the outermost flow is
      left cancelled. */
  lemma BreakStopsEverything(c: Call)
    ensures NothingAfterBreak(Trace(Forked(c).hist, c.script, 0))
    ensures HasBreak(Trace(Forked(c).hist, c.script, 0)) ==> Forked(c).cancel
  {
    hide NothingAfterBreak, HasBreak, Trace, Forked, Obeys, Cancels;
    ForkedObeys(c);
    TraceBreaks(Forked(c).hist, c.script, 0);
  }
}
