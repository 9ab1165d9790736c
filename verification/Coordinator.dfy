/**
 The projection event coordinator: it forwards event batches to the bound renderer, buffers them while the
 projection is suspended, and latches a fault. What it must deliver is defined from the calls alone, without
 buffers, limits or faults: `StreamOf` is the stream the calls have bound and every batch offered to it since.
 The microtask that flushes the buffer after a bind is drained before the next call.
 */
module Coordinator {
  import opened Basics
  import Text

  datatype Binding = Binding(
    project: string,
    runtimeGeneration: string,
    activationToken: string,
    rendererSession: string,
    rendererGeneration: int,
    statusRevision: int)

  /** An event, as the JSON text it serializes to. */
  type Event = string
  type Batch = seq<Event>

  datatype Frame = Ingest(to: Binding, batch: Batch) | FaultFrame(project: Option<string>)

  datatype Call = Bind(b: Binding) | Suspend(b: Binding) | Unbind | Observe(batch: Batch) | ObserveThrows

  predicate ExactAuthority(b: Binding) {
    && !Text.Blank(b.project) && !Text.Blank(b.runtimeGeneration)
    && !Text.Blank(b.activationToken) && !Text.Blank(b.rendererSession)
    && 0 <= b.rendererGeneration <= MAX_SAFE_INTEGER && 0 <= b.statusRevision <= MAX_SAFE_INTEGER
  }

  predicate SameStream(a: Binding, b: Binding) {
    a.project == b.project && a.runtimeGeneration == b.runtimeGeneration
  }

  // ---------------------------------------------------------------- what the calls ask for

  datatype Stream = NoStream | Stream(project: string, runtimeGeneration: string, offered: seq<Batch>)

  function After(s: Stream, call: Call): Stream {
    match call
    case Bind(b) =>
      if !ExactAuthority(b) then s
      else if s.Stream? && s.project == b.project && s.runtimeGeneration == b.runtimeGeneration then s
      else Stream(b.project, b.runtimeGeneration, [])
    case Unbind => NoStream
    case Observe(batch) => if s.Stream? then s.(offered := s.offered + [batch]) else s
    case _ => s
  }

  function StreamOf(calls: seq<Call>): Stream {
    if calls == [] then NoStream else After(StreamOf(calls[..|calls| - 1]), calls[|calls| - 1])
  }

  /** The call binds a stream other than the current one. */
  predicate StartsStream(s: Stream, call: Call) {
    && call.Bind? && ExactAuthority(call.b)
    && !(s.Stream? && s.project == call.b.project && s.runtimeGeneration == call.b.runtimeGeneration)
  }

  /** How many calls came before the one that started the current stream. */
  function StartOf(calls: seq<Call>): (n: nat)
    ensures n <= |calls|
  {
    if calls == [] then 0
    else
      var before := calls[..|calls| - 1];
      if StartsStream(StreamOf(before), calls[|calls| - 1]) then |before| else StartOf(before)
  }

  // ---------------------------------------------------------------- sizes and frames

  function Joined(batch: Batch): string {
    if batch == [] then "" else if |batch| == 1 then batch[0] else batch[0] + "," + Joined(batch[1..])
  }

  /** The batch as a JSON array. */
  function JsonText(batch: Batch): string {
    "[" + Joined(batch) + "]"
  }

  function Bytes(batch: Batch): nat {
    Text.Utf8Length(JsonText(batch))
  }

  function EventCount(buffer: seq<Batch>): nat {
    if buffer == [] then 0 else EventCount(buffer[..|buffer| - 1]) + |buffer[|buffer| - 1]|
  }

  function ByteCount(buffer: seq<Batch>): nat {
    if buffer == [] then 0 else ByteCount(buffer[..|buffer| - 1]) + Bytes(buffer[|buffer| - 1])
  }

  lemma CountsGrow(buffer: seq<Batch>, batch: Batch)
    ensures EventCount(buffer + [batch]) == EventCount(buffer) + |batch|
    ensures ByteCount(buffer + [batch]) == ByteCount(buffer) + Bytes(batch)
  {
    assert (buffer + [batch])[..|buffer|] == buffer;
  }

  /** The batches that left in ingest frames. */
  function Sent(frames: seq<Frame>): seq<Batch> {
    if frames == [] then []
    else
      var before, last := Sent(frames[..|frames| - 1]), frames[|frames| - 1];
      if last.Ingest? then before + [last.batch] else before
  }

  lemma SentGrows(frames: seq<Frame>, f: Frame)
    ensures Sent(frames + [f]) == if f.Ingest? then Sent(frames) + [f.batch] else Sent(frames)
  {
    assert (frames + [f])[..|frames|] == frames;
  }

  lemma {:induction false} SentJoins(a: seq<Frame>, b: seq<Frame>)
    ensures Sent(a + b) == Sent(a) + Sent(b)
  {
    if b == [] {
      assert a + b == a;
    } else {
      assert (a + b)[..|a + b| - 1] == a + b[..|b| - 1];
      SentJoins(a, b[..|b| - 1]);
    }
  }

  /** The frames the flush after a bind sends: every buffered batch in order, under the new binding. */
  function FlushFrames(b: Binding, batches: seq<Batch>): (frames: seq<Frame>)
    ensures |frames| == |batches| && forall i :: 0 <= i < |batches| ==> frames[i] == Ingest(b, batches[i])
  {
    seq(|batches|, i requires 0 <= i < |batches| => Ingest(b, batches[i]))
  }

  lemma {:induction false} FlushSendsAll(b: Binding, batches: seq<Batch>)
    ensures Sent(FlushFrames(b, batches)) == batches
  {
    if batches != [] {
      var n := |batches| - 1;
      FlushSendsAll(b, batches[..n]);
      assert FlushFrames(b, batches)[..n] == FlushFrames(b, batches[..n]);
    }
  }

  // ---------------------------------------------------------------- one call

  datatype Limits = Limits(events: nat, bytes: nat)

  datatype State = State(
    binding: Option<Binding>,
    suspended: bool,
    buffer: seq<Batch>,
    events: nat,
    bytes: nat,
    fault: bool,
    notified: seq<Frame>)

  const Initial := State(None, false, [], 0, 0, false, [])

  function Failed(s: State): State {
    var project := if s.binding.Some? then Some(s.binding.value.project) else None;
    s.(fault := true, notified := s.notified + [FaultFrame(project)])
  }

  predicate Refused(s: State, b: Binding) {
    !ExactAuthority(b) || (s.binding.Some? && SameStream(s.binding.value, b) && s.fault
                           && !(s.binding == Some(b) && !s.suspended))
  }

  /** A new stream starts clean; the same stream flushes what it held back. */
  function Bound(s: State, b: Binding): State {
    if s.binding.Some? && SameStream(s.binding.value, b) then
      if s.buffer == [] then s.(binding := Some(b), suspended := false)
      else State(Some(b), false, [], 0, 0, s.fault, s.notified + FlushFrames(b, s.buffer))
    else State(Some(b), false, [], 0, 0, false, s.notified)
  }

  predicate Fits(lim: Limits, s: State, batch: Batch) {
    s.events + |batch| <= lim.events && s.bytes + Bytes(batch) <= lim.bytes
  }

  function Appended(lim: Limits, s: State, batch: Batch): State
    requires s.binding.Some?
  {
    if !s.suspended then s.(notified := s.notified + [Ingest(s.binding.value, batch)])
    else if Fits(lim, s, batch) then
      s.(buffer := s.buffer + [batch], events := s.events + |batch|, bytes := s.bytes + Bytes(batch))
    else Failed(s)
  }

  function Step(lim: Limits, s: State, call: Call): State {
    match call
    case Bind(b) => if Refused(s, b) || (s.binding == Some(b) && !s.suspended) then s else Bound(s, b)
    case Suspend(b) => if s.binding == Some(b) then s.(suspended := true) else s
    case Unbind => State(None, false, [], 0, 0, false, s.notified)
    case Observe(batch) => if s.binding.None? || s.fault then s else Appended(lim, s, batch)
    case ObserveThrows => if s.binding.None? || s.fault then s else Failed(s)
  }

  // ---------------------------------------------------------------- what every run keeps

  predicate AllFor(frames: seq<Frame>, s: Stream)
    requires s.Stream?
  {
    forall i :: 0 <= i < |frames| && frames[i].Ingest? ==>
      frames[i].to.project == s.project && frames[i].to.runtimeGeneration == s.runtimeGeneration
  }

  /** The counters are the buffer's sums and stay within both limits. */
  predicate CountersExact(lim: Limits, s: State) {
    s.events == EventCount(s.buffer) <= lim.events && s.bytes == ByteCount(s.buffer) <= lim.bytes
  }

  /**
   For the bound stream, the batches sent and then those buffered are exactly the batches offered, in order and
   once each; after a fault they are a prefix of them. Only a suspended stream has anything buffered.
   `since` counts the frames notified before the stream was bound.
   */
  predicate Faithful(s: State, stream: Stream, since: nat) {
    && since <= |s.notified|
    && (s.buffer != [] ==> s.suspended)
    && match s.binding
       case None => stream.NoStream? && s.buffer == [] && !s.fault
       case Some(b) =>
         && stream.Stream? && stream.project == b.project && stream.runtimeGeneration == b.runtimeGeneration
         && AllFor(s.notified[since..], stream)
         && Sent(s.notified[since..]) + s.buffer <= stream.offered
         && (!s.fault ==> Sent(s.notified[since..]) + s.buffer == stream.offered)
  }

  /** Where the frames of the current stream begin after one more call. */
  function SinceAfter(s: State, since: nat, call: Call): nat {
    match call
    case Bind(b) =>
      if ExactAuthority(b) && !(s.binding.Some? && SameStream(s.binding.value, b)) then |s.notified| else since
    case _ => since
  }

  /** The flush sends what was held back, after everything sent before. */
  lemma FlushKeepsSent(s: State, since: nat, b: Binding)
    requires since <= |s.notified|
    ensures (s.notified + FlushFrames(b, s.buffer))[since..] == s.notified[since..] + FlushFrames(b, s.buffer)
    ensures Sent((s.notified + FlushFrames(b, s.buffer))[since..]) == Sent(s.notified[since..]) + s.buffer
  {
    FlushSendsAll(b, s.buffer);
    SentJoins(s.notified[since..], FlushFrames(b, s.buffer));
    assert (s.notified + FlushFrames(b, s.buffer))[since..] == s.notified[since..] + FlushFrames(b, s.buffer);
  }

  lemma RebindKeepsFaithful(s: State, stream: Stream, since: nat, b: Binding)
    requires Faithful(s, stream, since) && s.binding.Some? && SameStream(s.binding.value, b)
    ensures Faithful(Bound(s, b), stream, since)
  {
    FlushKeepsSent(s, since, b);
    var sent := Sent(s.notified[since..]) + s.buffer;
    assert sent + [] == sent;
  }

  lemma BindKeepsFaithful(lim: Limits, s: State, stream: Stream, since: nat, b: Binding)
    requires Faithful(s, stream, since)
    ensures Faithful(Step(lim, s, Bind(b)), After(stream, Bind(b)), SinceAfter(s, since, Bind(b)))
  {
    if s.binding.Some? && SameStream(s.binding.value, b) {
      RebindKeepsFaithful(s, stream, since, b);
    } else {
      assert s.notified[|s.notified|..] == [];
    }
  }

  /** One more batch offered: it is sent, held back behind the others, or lost to a fault. */
  lemma ObserveKeepsFaithful(lim: Limits, s: State, stream: Stream, since: nat, batch: Batch)
    requires Faithful(s, stream, since)
    ensures Faithful(Step(lim, s, Observe(batch)), After(stream, Observe(batch)), since)
  {
    if s.binding.Some? {
      var sent := Sent(s.notified[since..]);
      if s.fault {
        assert sent + s.buffer <= stream.offered <= stream.offered + [batch];
      } else if !s.suspended {
        SendKeepsFaithful(lim, s, stream, since, batch);
      } else if Fits(lim, s, batch) {
        assert sent + (s.buffer + [batch]) == (sent + s.buffer) + [batch];
      } else {
        FailureKeepsSent(s, since);
      }
    }
  }

  /** One more frame: the frames of the stream, and what they send, grow by it. */
  lemma FrameKeepsSent(frames: seq<Frame>, since: nat, b: Binding, batch: Batch)
    requires since <= |frames|
    ensures (frames + [Ingest(b, batch)])[since..] == frames[since..] + [Ingest(b, batch)]
    ensures Sent((frames + [Ingest(b, batch)])[since..]) == Sent(frames[since..]) + [batch]
  {
    SentGrows(frames[since..], Ingest(b, batch));
    assert (frames + [Ingest(b, batch)])[since..] == frames[since..] + [Ingest(b, batch)];
  }

  lemma SendKeepsFaithful(lim: Limits, s: State, stream: Stream, since: nat, batch: Batch)
    requires Faithful(s, stream, since) && s.binding.Some? && !s.fault && !s.suspended
    ensures Faithful(Appended(lim, s, batch), After(stream, Observe(batch)), since)
  {
    var sent := Sent(s.notified[since..]);
    FrameKeepsSent(s.notified, since, s.binding.value, batch);
    assert sent + [] == sent;
    assert (sent + [batch]) + [] == sent + [batch];
  }

  lemma FailureKeepsSent(s: State, since: nat)
    requires since <= |s.notified|
    ensures Sent(Failed(s).notified[since..]) == Sent(s.notified[since..])
    ensures forall f :: f in Failed(s).notified[since..] && f.Ingest? ==> f in s.notified[since..]
  {
    var f := Failed(s).notified[|s.notified|];
    SentGrows(s.notified[since..], f);
    assert Failed(s).notified[since..] == s.notified[since..] + [f];
  }

  lemma StepKeepsFaithful(lim: Limits, s: State, stream: Stream, since: nat, call: Call)
    requires Faithful(s, stream, since)
    ensures Faithful(Step(lim, s, call), After(stream, call), SinceAfter(s, since, call))
  {
    match call
    case Bind(b) => BindKeepsFaithful(lim, s, stream, since, b);
    case Observe(batch) => ObserveKeepsFaithful(lim, s, stream, since, batch);
    case ObserveThrows => FailureKeepsSent(s, since);
    case _ =>
  }

  lemma BindKeepsCounters(lim: Limits, s: State, b: Binding)
    requires CountersExact(lim, s)
    ensures CountersExact(lim, Bound(s, b))
  {
    assert EventCount([]) == 0 && ByteCount([]) == 0;
    assert Bound(s, b).buffer == [];
  }

  lemma AppendKeepsCounters(lim: Limits, s: State, batch: Batch)
    requires CountersExact(lim, s) && s.binding.Some?
    ensures CountersExact(lim, Appended(lim, s, batch))
  {
    CountsGrow(s.buffer, batch);
  }

  lemma StepKeepsCounters(lim: Limits, s: State, call: Call)
    requires CountersExact(lim, s)
    ensures CountersExact(lim, Step(lim, s, call))
  {
    match call
    case Bind(b) => BindKeepsCounters(lim, s, b);
    case Suspend(_) => assert Step(lim, s, call).buffer == s.buffer;
    case Unbind => assert EventCount([]) == 0 && ByteCount([]) == 0;
    case Observe(batch) =>
      if s.binding.Some? {
        AppendKeepsCounters(lim, s, batch);
      }
    case ObserveThrows => assert Step(lim, s, call).buffer == s.buffer;
  }

  /** The state after a sequence of calls on a new coordinator. */
  function Run(lim: Limits, calls: seq<Call>): State {
    if calls == [] then Initial else Step(lim, Run(lim, calls[..|calls| - 1]), calls[|calls| - 1])
  }

  /** How many frames had been notified when the current stream was bound. */
  function SinceOf(lim: Limits, calls: seq<Call>): nat {
    |Run(lim, calls[..StartOf(calls)]).notified|
  }

  /** State and stream are bound alike. */
  predicate BoundAlike(s: State, stream: Stream) {
    match s.binding
    case None => stream.NoStream?
    case Some(b) => stream.Stream? && stream.project == b.project && stream.runtimeGeneration == b.runtimeGeneration
  }

  lemma SinceFollowsStream(s: State, stream: Stream, since: nat, call: Call)
    requires BoundAlike(s, stream)
    ensures SinceAfter(s, since, call) == if StartsStream(stream, call) then |s.notified| else since
  {
  }

  lemma StartAdvances(calls: seq<Call>, call: Call)
    ensures (calls + [call])[..StartOf(calls + [call])]
            == if StartsStream(StreamOf(calls), call) then calls else calls[..StartOf(calls)]
  {
    var longer := calls + [call];
    assert longer[..|longer| - 1] == calls;
  }

  lemma SinceAdvances(lim: Limits, calls: seq<Call>, call: Call)
    requires BoundAlike(Run(lim, calls), StreamOf(calls))
    ensures SinceOf(lim, calls + [call]) == SinceAfter(Run(lim, calls), SinceOf(lim, calls), call)
  {
    StartAdvances(calls, call);
    SinceFollowsStream(Run(lim, calls), StreamOf(calls), SinceOf(lim, calls), call);
  }

  /**
   In every run the frames notified since the bind that started the current stream, followed by what is buffered, are
   the batches offered to it, and the counters are exact.
   */
  lemma {:induction false} RunIsFaithful(lim: Limits, calls: seq<Call>)
    ensures Faithful(Run(lim, calls), StreamOf(calls), SinceOf(lim, calls))
    ensures CountersExact(lim, Run(lim, calls))
  {
    if calls != [] {
      var before, call := calls[..|calls| - 1], calls[|calls| - 1];
      RunIsFaithful(lim, before);
      StepKeepsFaithful(lim, Run(lim, before), StreamOf(before), SinceOf(lim, before), call);
      StepKeepsCounters(lim, Run(lim, before), call);
      SinceAdvances(lim, before, call);
      assert before + [call] == calls;
    }
  }

  /** Bound, neither suspended nor faulted: everything offered to the stream has been sent, batch by batch. */
  lemma LiveStreamIsDelivered(lim: Limits, calls: seq<Call>)
    requires Run(lim, calls).binding.Some? && !Run(lim, calls).suspended && !Run(lim, calls).fault
    ensures SinceOf(lim, calls) <= |Run(lim, calls).notified| && StreamOf(calls).Stream?
    ensures Sent(Run(lim, calls).notified[SinceOf(lim, calls)..]) == StreamOf(calls).offered
  {
    RunIsFaithful(lim, calls);
    var sent := Sent(Run(lim, calls).notified[SinceOf(lim, calls)..]);
    assert sent + [] == sent;
  }

  /** An ingest frame leaves only in a step that ends bound, not suspended and not faulted, and under that binding. */
  lemma IngestOnlyWhileLive(lim: Limits, calls: seq<Call>, call: Call, i: nat)
    requires |Run(lim, calls).notified| <= i < |Run(lim, calls + [call]).notified|
    requires Run(lim, calls + [call]).notified[i].Ingest?
    ensures var s := Run(lim, calls + [call]);
            s.binding == Some(s.notified[i].to) && !s.suspended && !s.fault
  {
    assert (calls + [call])[..|calls|] == calls;
    RunIsFaithful(lim, calls);
  }

  // ---------------------------------------------------------------- the class

  class ProjectionEventCoordinator {
    const limits: Limits
    var binding: Option<Binding>
    var suspended: bool
    var buffer: seq<Batch>
    var bufferedEvents: nat
    var bufferedBytes: nat
    var fault: bool
    var notified: seq<Frame>

    constructor (limits: Limits)
      requires 1 <= limits.events <= MAX_SAFE_INTEGER && 1 <= limits.bytes <= MAX_SAFE_INTEGER
      ensures this.limits == limits && Current() == Initial
    {
      this.limits := limits;
      binding, suspended, buffer, bufferedEvents, bufferedBytes, fault, notified := None, false, [], 0, 0, false, [];
    }

    function Current(): State
      reads this
    {
      State(binding, suspended, buffer, bufferedEvents, bufferedBytes, fault, notified)
    }

    method Fail()
      modifies this
      ensures Current() == Failed(old(Current()))
    {
      fault := true;
      notified := notified + [FaultFrame(if binding.Some? then Some(binding.value.project) else None)];
    }

    method Append(batch: Batch)
      requires binding.Some?
      modifies this
      ensures Current() == Appended(limits, old(Current()), batch)
    {
      if suspended {
        if bufferedEvents + |batch| > limits.events || bufferedBytes + Bytes(batch) > limits.bytes {
          Fail();
          return;
        }
        buffer := buffer + [batch];
        bufferedEvents := bufferedEvents + |batch|;
        bufferedBytes := bufferedBytes + Bytes(batch);
        return;
      }
      notified := notified + [Ingest(binding.value, batch)];
    }

    /** The flush microtask. */
    method Flush(batches: seq<Batch>)
      requires binding.Some? && !suspended
      modifies this
      ensures Current() == old(Current()).(notified := old(notified) + FlushFrames(old(binding).value, batches))
    {
      ghost var frames := FlushFrames(binding.value, batches);
      for n := 0 to |batches|
        invariant binding == old(binding)
        invariant Current() == old(Current()).(notified := old(notified) + frames[..n])
      {
        assert frames[..n + 1] == frames[..n] + [Ingest(binding.value, batches[n])];
        Append(batches[n]);
      }
    }

    method BindTo(b: Binding) returns (ok: bool)
      modifies this
      ensures Current() == Step(limits, old(Current()), Bind(b))
      ensures ok <==> !Refused(old(Current()), b)
    {
      if !ExactAuthority(b) { return false; }
      if binding == Some(b) && !suspended { return true; }
      var sameStream := binding.Some? && SameStream(binding.value, b);
      if sameStream && fault { return false; }
      binding, suspended := Some(b), false;
      if !sameStream {
        fault, buffer, bufferedEvents, bufferedBytes := false, [], 0, 0;
      }
      var batches := buffer;
      if |batches| > 0 {
        buffer, bufferedEvents, bufferedBytes := [], 0, 0;
        Flush(batches);
      }
      ok := true;
    }

    method SuspendFor(b: Binding) returns (ok: bool)
      modifies this
      ensures Current() == Step(limits, old(Current()), Suspend(b))
      ensures ok <==> old(binding) == Some(b)
    {
      ok := binding == Some(b);
      if ok { suspended := true; }
    }

    method Release()
      modifies this
      ensures Current() == Step(limits, old(Current()), Unbind)
    {
      binding, suspended, buffer, bufferedEvents, bufferedBytes, fault := None, false, [], 0, 0, false;
    }

    /** An observation that leads to one batch. */
    method ObserveBatch(batch: Batch)
      modifies this
      ensures Current() == Step(limits, old(Current()), Observe(batch))
    {
      if binding.None? || fault { return; }
      Append(batch);
    }

    /** An observation whose handler throws. */
    method ObserveFailure()
      modifies this
      ensures Current() == Step(limits, old(Current()), ObserveThrows)
    {
      if binding.None? || fault { return; }
      Fail();
    }
  }
}
