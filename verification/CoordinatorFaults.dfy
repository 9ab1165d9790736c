/**
 When the coordinator faults, and what it then does: said of the calls alone, without buffers or counters. `Asked` is
 what the calls ask for as long as nothing goes wrong.
 */
module CoordinatorFaults {
  import opened Basics
  import opened Coordinator
  import Text

  /** The binding asked for, whether it is suspended, and the batches observed since the suspension began. */
  datatype Wish = Wish(binding: Option<Binding>, suspended: bool, held: seq<Batch>)

  function AskedAfter(w: Wish, call: Call): Wish {
    match call
    case Bind(b) => if ExactAuthority(b) then Wish(Some(b), false, []) else w
    case Suspend(b) => if w.binding == Some(b) then w.(suspended := true) else w
    case Unbind => Wish(None, false, [])
    case Observe(batch) => if w.suspended then w.(held := w.held + [batch]) else w
    case ObserveThrows => w
  }

  function Asked(calls: seq<Call>): Wish {
    if calls == [] then Wish(None, false, []) else AskedAfter(Asked(calls[..|calls| - 1]), calls[|calls| - 1])
  }

  /** The batches cannot all be held back. */
  predicate TooMuch(lim: Limits, batches: seq<Batch>) {
    EventCount(batches) > lim.events || ByteCount(batches) > lim.bytes
  }

  /** The call is one that a stream cannot survive: its handler throws, or its batch is too much to hold back. */
  predicate Fatal(lim: Limits, w: Wish, call: Call) {
    call.ObserveThrows? || (call.Observe? && w.suspended && TooMuch(lim, w.held + [call.batch]))
  }

  predicate FatalAt(lim: Limits, calls: seq<Call>, i: nat) {
    i < |calls| && Fatal(lim, Asked(calls[..i]), calls[i])
  }

  /** Since the current stream was bound there was a fatal call. */
  ghost predicate HadFatal(lim: Limits, calls: seq<Call>) {
    exists i: nat :: StartOf(calls) < i && FatalAt(lim, calls, i)
  }

  lemma {:induction false} StreamHasStart(calls: seq<Call>)
    requires StreamOf(calls).Stream?
    ensures StartOf(calls) < |calls|
  {
    var before, call := calls[..|calls| - 1], calls[|calls| - 1];
    if !StartsStream(StreamOf(before), call) {
      StreamHasStart(before);
    }
  }

  lemma FatalAtPrefix(lim: Limits, calls: seq<Call>, call: Call, i: nat)
    ensures i < |calls| ==> (FatalAt(lim, calls + [call], i) <==> FatalAt(lim, calls, i))
    ensures FatalAt(lim, calls + [call], |calls|) <==> Fatal(lim, Asked(calls), call)
  {
    var longer := calls + [call];
    assert longer[..|calls|] == calls;
    if i < |calls| {
      assert longer[..i] == calls[..i];
    }
  }

  lemma HadFatalGrows(lim: Limits, calls: seq<Call>, call: Call)
    requires StreamOf(calls + [call]).Stream?
    ensures HadFatal(lim, calls + [call]) <==>
              !StartsStream(StreamOf(calls), call) && (HadFatal(lim, calls) || Fatal(lim, Asked(calls), call))
  {
    var longer := calls + [call];
    assert longer[..|longer| - 1] == calls;
    if !StartsStream(StreamOf(calls), call) {
      StreamHasStart(calls);
      FatalAtPrefix(lim, calls, call, 0);
      if HadFatal(lim, calls) {
        var i: nat :| StartOf(calls) < i && FatalAt(lim, calls, i);
        FatalAtPrefix(lim, calls, call, i);
      }
      if HadFatal(lim, longer) && !Fatal(lim, Asked(calls), call) {
        var i: nat :| StartOf(longer) < i && FatalAt(lim, longer, i);
        FatalAtPrefix(lim, calls, call, i);
      }
    }
  }

  /** A bind takes hold of an unbound coordinator exactly when it names all four parties and both counts are exact. */
  lemma BindNeedsExactAuthority(lim: Limits, s: State, b: Binding)
    requires s.binding.None?
    ensures Step(lim, s, Bind(b)).binding == Some(b) <==>
              && (exists c :: c in b.project && c !in Text.WHITESPACE)
              && (exists c :: c in b.runtimeGeneration && c !in Text.WHITESPACE)
              && (exists c :: c in b.activationToken && c !in Text.WHITESPACE)
              && (exists c :: c in b.rendererSession && c !in Text.WHITESPACE)
              && 0 <= b.rendererGeneration < 0x20_0000_0000_0000 && 0 <= b.statusRevision < 0x20_0000_0000_0000
    ensures Step(lim, s, Bind(b)).binding != Some(b) ==> Step(lim, s, Bind(b)) == s
  {
  }

  // ---------------------------------------------------------------- the state, while nothing goes wrong

  predicate AsAsked(s: State, w: Wish) {
    s.binding == w.binding && s.suspended == w.suspended && s.buffer == w.held
  }

  lemma CallIsAsAsked(lim: Limits, s: State, w: Wish, call: Call)
    requires AsAsked(s, w) && CountersExact(lim, s) && (s.buffer != [] ==> s.suspended) && !s.fault
    requires s.suspended ==> s.binding.Some?
    ensures var next := Step(lim, s, call);
            && (next.fault <==> s.binding.Some? && Fatal(lim, w, call))
            && (!next.fault ==> AsAsked(next, AskedAfter(w, call)))
  {
    if call.Observe? {
      CountsGrow(s.buffer, call.batch);
    }
  }

  /** A fault lasts until another stream is bound or the stream is given up; until then nothing else changes. */
  lemma FaultLasts(lim: Limits, s: State, call: Call)
    requires s.fault && s.binding.Some?
    ensures var next := Step(lim, s, call);
            var renewed := call.Bind? && ExactAuthority(call.b) && !SameStream(s.binding.value, call.b);
            && (next.fault <==> !renewed && !call.Unbind?)
            && (next.fault ==> next == s.(suspended := next.suspended))
            && (renewed ==> AsAsked(next, Wish(Some(call.b), false, [])))
            && (call.Unbind? ==> AsAsked(next, Wish(None, false, [])))
  {
  }

  predicate FaultExact(lim: Limits, calls: seq<Call>, fatal: bool) {
    var s := Run(lim, calls);
    && (s.fault <==> StreamOf(calls).Stream? && fatal)
    && (!s.fault ==> AsAsked(s, Asked(calls)))
    && (s.suspended ==> s.binding.Some?)
  }

  lemma OneMoreCall(lim: Limits, calls: seq<Call>, call: Call)
    requires FaultExact(lim, calls, HadFatal(lim, calls))
    ensures FaultExact(lim, calls + [call], HadFatal(lim, calls + [call]))
  {
    var longer, s, stream := calls + [call], Run(lim, calls), StreamOf(calls);
    assert longer[..|longer| - 1] == calls;
    RunIsFaithful(lim, calls);
    RunIsFaithful(lim, longer);
    var next := Step(lim, s, call);
    assert Run(lim, longer) == next;
    if s.fault {
      FaultLasts(lim, s, call);
    } else {
      CallIsAsAsked(lim, s, Asked(calls), call);
    }
    if StreamOf(longer).Stream? {
      HadFatalGrows(lim, calls, call);
    }
  }

  /**
   The coordinator is at fault exactly when, since the bind that started the current stream, a handler threw or a
   batch was observed under suspension that was too much, in events or in UTF-8 bytes, beside the others observed
   since that suspension began. Otherwise it is bound and suspended as asked, and has buffered just those batches.
   */
  lemma {:induction false} FaultIsExact(lim: Limits, calls: seq<Call>)
    ensures Run(lim, calls).fault <==> StreamOf(calls).Stream? && HadFatal(lim, calls)
    ensures !Run(lim, calls).fault ==> AsAsked(Run(lim, calls), Asked(calls))
    ensures FaultExact(lim, calls, HadFatal(lim, calls))
  {
    if calls != [] {
      var before, call := calls[..|calls| - 1], calls[|calls| - 1];
      FaultIsExact(lim, before);
      OneMoreCall(lim, before, call);
      assert before + [call] == calls;
    }
  }

  // ---------------------------------------------------------------- the fault frame

  function FaultFrames(frames: seq<Frame>): seq<Frame> {
    if frames == [] then []
    else
      var before, last := FaultFrames(frames[..|frames| - 1]), frames[|frames| - 1];
      if last.FaultFrame? then before + [last] else before
  }

  lemma {:induction false} FaultFramesJoin(a: seq<Frame>, b: seq<Frame>)
    ensures FaultFrames(a + b) == FaultFrames(a) + FaultFrames(b)
  {
    if b == [] {
      assert a + b == a;
    } else {
      assert (a + b)[..|a + b| - 1] == a + b[..|b| - 1];
      FaultFramesJoin(a, b[..|b| - 1]);
    }
  }

  lemma {:induction false} NoFaultInFlush(frames: seq<Frame>)
    requires forall i :: 0 <= i < |frames| ==> frames[i].Ingest?
    ensures FaultFrames(frames) == []
  {
    if frames != [] {
      NoFaultInFlush(frames[..|frames| - 1]);
    }
  }

  /** The frames one call adds. */
  function Added(lim: Limits, s: State, call: Call): seq<Frame>
    requires s.notified <= Step(lim, s, call).notified
  {
    Step(lim, s, call).notified[|s.notified|..]
  }

  lemma CallAddsFault(lim: Limits, s: State, call: Call)
    ensures s.notified <= Step(lim, s, call).notified
    ensures FaultFrames(Added(lim, s, call))
            == if !s.fault && Step(lim, s, call).fault then [FaultFrame(Some(s.binding.value.project))] else []
  {
    var next := Step(lim, s, call);
    assert s.notified <= next.notified;
    if !s.fault && next.fault {
      assert Added(lim, s, call) == [FaultFrame(Some(s.binding.value.project))];
      assert FaultFrames([]) == [];
    } else {
      NoFaultInFlush(Added(lim, s, call));
    }
  }

  function Told(fault: bool, project: string): seq<Frame> {
    if fault then [FaultFrame(Some(project))] else []
  }

  lemma ToldAfterCall(lim: Limits, s: State, call: Call, since: nat)
    requires s.binding.Some? && since <= |s.notified| && (s.fault ==> Step(lim, s, call).fault)
    requires FaultFrames(s.notified[since..]) == Told(s.fault, s.binding.value.project)
    ensures since <= |Step(lim, s, call).notified|
    ensures FaultFrames(Step(lim, s, call).notified[since..]) == Told(Step(lim, s, call).fault, s.binding.value.project)
  {
    CallAddsFault(lim, s, call);
    var next := Step(lim, s, call);
    assert next.notified[since..] == s.notified[since..] + Added(lim, s, call);
    FaultFramesJoin(s.notified[since..], Added(lim, s, call));
  }

  lemma SameStreamStaysBound(lim: Limits, calls: seq<Call>, call: Call)
    requires StreamOf(calls + [call]).Stream? && !StartsStream(StreamOf(calls), call)
    ensures StreamOf(calls).Stream? && StreamOf(calls).project == StreamOf(calls + [call]).project
    ensures Run(lim, calls).binding.Some? && Run(lim, calls).binding.value.project == StreamOf(calls).project
    ensures Run(lim, calls).fault ==> Run(lim, calls + [call]).fault
    ensures SinceOf(lim, calls + [call]) == SinceOf(lim, calls) <= |Run(lim, calls).notified|
  {
    assert (calls + [call])[..|calls|] == calls;
    RunIsFaithful(lim, calls);
    SinceAdvances(lim, calls, call);
    SinceFollowsStream(Run(lim, calls), StreamOf(calls), SinceOf(lim, calls), call);
    if Run(lim, calls).fault {
      FaultLasts(lim, Run(lim, calls), call);
    }
  }

  lemma NewStreamIsUntold(lim: Limits, calls: seq<Call>, call: Call)
    requires StartsStream(StreamOf(calls), call)
    ensures SinceOf(lim, calls + [call]) == |Run(lim, calls + [call]).notified| && !Run(lim, calls + [call]).fault
  {
    assert (calls + [call])[..|calls|] == calls;
    RunIsFaithful(lim, calls);
    SinceAdvances(lim, calls, call);
    SinceFollowsStream(Run(lim, calls), StreamOf(calls), SinceOf(lim, calls), call);
  }

  /** A bound stream has been told of its fault once if it has one, under its own project, and never otherwise. */
  lemma {:induction false} FaultIsToldOnce(lim: Limits, calls: seq<Call>)
    requires StreamOf(calls).Stream?
    ensures SinceOf(lim, calls) <= |Run(lim, calls).notified|
    ensures FaultFrames(Run(lim, calls).notified[SinceOf(lim, calls)..])
            == Told(Run(lim, calls).fault, StreamOf(calls).project)
  {
    var before, call := calls[..|calls| - 1], calls[|calls| - 1];
    assert before + [call] == calls;
    if StartsStream(StreamOf(before), call) {
      NewStreamIsUntold(lim, before, call);
    } else {
      SameStreamStaysBound(lim, before, call);
      FaultIsToldOnce(lim, before);
      ToldAfterCall(lim, Run(lim, before), call, SinceOf(lim, before));
    }
  }
}
