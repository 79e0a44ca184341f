/**
Two streams over two reliable, ordered channels, under every interleaving of batches,
completion closures, wake-ups, channel state changes, observer notices and frame arrivals.
*/
module EndToEnd {
  import opened Wrappers
  import opened Metadata
  import opened Batches
  import opened Rendezvous
  import opened Ledger
  import opened StreamSpec

  datatype World = World(a: Stream, b: Stream, ab: seq<Buffer>, ba: seq<Buffer>)

  /** The side each step belongs to: `atA`, or else B. `ready` is whether signalling is. */
  datatype Event =
    | Submits(atA: bool, op: Batch, ready: bool)
    | RunsClosure(atA: bool, ready: bool)
    | Retries(atA: bool, ready: bool)
    | ChannelMoves(atA: bool, state: DataState)
    | IsTold(atA: bool, ready: bool)
    | FrameArrives(atA: bool)

  function Rank(d: DataState): nat {
    match d
    case Connecting => 0
    case Open => 1
    case Closing => 2
    case Closed => 3
  }

  /** A channel state only moves forward, and its observer will be told. */
  function Moved(s: Stream, state: DataState): Stream {
    if s.link.dc.Some? && Rank(s.link.dc.value) < Rank(state)
    then s.(link := s.link.(dc := Some(state), noticeDue := true)) else s
  }

  ghost function Local(lib: Lib, s: Stream, e: Event): Stream
    requires !e.FrameArrives?
  {
    match e
    case Submits(_, op, ready) => Submit(lib, s, op, ready)
    case RunsClosure(_, ready) => RunOne(lib, s, ready)
    case Retries(_, ready) => Retry(lib, s, ready)
    case ChannelMoves(_, state) => Moved(s, state)
    case IsTold(_, ready) => Notice(lib, s, ready)
  }

  /** What a step handed to the channel. */
  function NewlySent(s: Stream, r: Stream): seq<Buffer> {
    if |s.sent| <= |r.sent| then r.sent[|s.sent|..] else []
  }

  function Receives(lib: Lib, s: Stream, buffer: Buffer): Stream {
    s.(queues := Arrive(lib, s.queues, buffer))
  }

  ghost function Step(lib: Lib, w: World, e: Event): World {
    if e.FrameArrives? then
      if e.atA then (if w.ba == [] then w else w.(a := Receives(lib, w.a, w.ba[0]), ba := w.ba[1..]))
      else (if w.ab == [] then w else w.(b := Receives(lib, w.b, w.ab[0]), ab := w.ab[1..]))
    else if e.atA then
      var a := Local(lib, w.a, e);
      w.(a := a, ab := w.ab + NewlySent(w.a, a))
    else
      var b := Local(lib, w.b, e);
      w.(b := b, ba := w.ba + NewlySent(w.b, b))
  }

  ghost function Run(lib: Lib, w: World, events: seq<Event>): World {
    if events == [] then w else Step(lib, Run(lib, w, events[..|events| - 1]), events[|events| - 1])
  }

  /** Both streams are new; each may have been handed a channel, in any state. */
  ghost predicate Initial(w: World) {
    && w.ab == [] && w.ba == []
    && w.a == Fresh(w.a.link.dc, w.a.link.noticeDue)
    && w.b == Fresh(w.b.link.dc, w.b.link.noticeDue)
  }

  /** One direction loses, repeats and reorders nothing. */
  ghost predicate Linked(s: Stream, r: Stream, inFlight: seq<Buffer>) {
    s.sent == r.queues.arrived + inFlight
  }

  ghost predicate WorldOk(lib: Lib, w: World) {
    && StreamOk(lib, w.a) && StreamOk(lib, w.b)
    && Linked(w.a, w.b, w.ab) && Linked(w.b, w.a, w.ba)
  }

  lemma LocalKeeps(lib: Lib, s: Stream, e: Event)
    requires !e.FrameArrives? && StreamOk(lib, s)
    ensures StreamOk(lib, Local(lib, s, e)) && Extends(s, Local(lib, s, e))
  {
    match e {
      case Submits(_, op, ready) => SubmitKeeps(lib, s, op, ready);
      case RunsClosure(_, ready) => RunOneKeeps(lib, s, ready);
      case Retries(_, ready) => RetryKeeps(lib, s, ready);
      case ChannelMoves(_, _) =>
      case IsTold(_, ready) => NoticeKeeps(lib, s, ready);
    }
  }

  lemma SendingKeepsLinks(s: Stream, s': Stream, r: Stream, there: seq<Buffer>, back: seq<Buffer>)
    requires Extends(s, s') && Linked(s, r, there) && Linked(r, s, back)
    ensures Linked(s', r, there + NewlySent(s, s')) && Linked(r, s', back)
  {
    assert s'.sent == s.sent + NewlySent(s, s');
  }

  lemma ArrivalKeepsLinks(lib: Lib, s: Stream, r: Stream, there: seq<Buffer>, back: seq<Buffer>)
    requires Linked(s, r, there) && Linked(r, s, back) && there != []
    ensures var r' := Receives(lib, r, there[0]);
            Linked(s, r', there[1..]) && Linked(r', s, back)
  {
    assert r.queues.arrived + [there[0]] + there[1..] == r.queues.arrived + there;
  }

  /** `s` receives the first frame under way to it from `r`. */
  lemma ArrivalKeeps(lib: Lib, s: Stream, r: Stream, there: seq<Buffer>, back: seq<Buffer>)
    requires StreamOk(lib, s) && Linked(s, r, there) && Linked(r, s, back) && back != []
    ensures var s' := Receives(lib, s, back[0]);
            StreamOk(lib, s') && Linked(s', r, there) && Linked(r, s', back[1..])
  {
    ArriveKeeps(lib, s.queues, back[0]);
    ArrivalKeepsLinks(lib, r, s, back, there);
  }

  lemma LocalStepKeeps(lib: Lib, s: Stream, r: Stream, there: seq<Buffer>, back: seq<Buffer>, e: Event)
    requires StreamOk(lib, s) && Linked(s, r, there) && Linked(r, s, back) && !e.FrameArrives?
    ensures var s' := Local(lib, s, e);
            StreamOk(lib, s') && Linked(s', r, there + NewlySent(s, s')) && Linked(r, s', back)
  {
    LocalKeeps(lib, s, e);
    SendingKeepsLinks(s, Local(lib, s, e), r, there, back);
  }

  lemma StepKeeps(lib: Lib, w: World, e: Event)
    requires WorldOk(lib, w)
    ensures WorldOk(lib, Step(lib, w, e))
  {
    if !e.FrameArrives? {
      if e.atA {
        LocalStepKeeps(lib, w.a, w.b, w.ab, w.ba, e);
      } else {
        LocalStepKeeps(lib, w.b, w.a, w.ba, w.ab, e);
      }
    } else if e.atA && w.ba != [] {
      ArrivalKeeps(lib, w.a, w.b, w.ab, w.ba);
    } else if !e.atA && w.ab != [] {
      ArrivalKeeps(lib, w.b, w.a, w.ba, w.ab);
    }
  }

  lemma InitialOk(lib: Lib, w: World)
    requires Initial(w)
    ensures WorldOk(lib, w)
  {
    FreshOk(lib, w.a.link.dc, w.a.link.noticeDue);
    FreshOk(lib, w.b.link.dc, w.b.link.noticeDue);
    assert w.a.sent == [] && w.b.sent == [];
  }

  lemma {:induction false} RunKeeps(lib: Lib, w: World, events: seq<Event>)
    requires Initial(w)
    ensures WorldOk(lib, Run(lib, w, events))
  {
    if events == [] {
      InitialOk(lib, w);
    } else {
      RunKeeps(lib, w, events[..|events| - 1]);
      StepKeeps(lib, Run(lib, w, events[..|events| - 1]), events[|events| - 1]);
    }
  }

  // What one direction delivers

  /** Sender's frames and receiver's waiters are of the same kinds as far as both reach. */
  ghost predicate Aligned(frames: seq<Frame>, waiters: seq<Waiter>) {
    forall k | 0 <= k < |frames| && k < |waiters| :: KindOf(frames[k]) == waiters[k].kind
  }

  /** The continuation got what the sender meant: the exact bytes of a message, or the
      metadata list that denotes the sender's map. */
  ghost predicate Correct(lib: Lib, f: Frame, w: Waiter, o: Outcome) {
    match f
    case Body(bytes) => o == Received(bytes)
    case Headers(_, md) =>
      AllText(lib, md) ==>
      && o.Filled?
      && (o.list, o.ok) == Appended(lib.callouts, w.into, PutAll(md))
      && (w.into == [] ==> o.ok && Sorted(o.list) && Meaning(o.list) == Meaning(TruncatedAll(md)))
  }

  function Delivered(matched: seq<(Waiter, Buffer)>): seq<Buffer> {
    seq(|matched|, i requires 0 <= i < |matched| => matched[i].1)
  }

  ghost predicate Faithful(lib: Lib, s: Stream, r: Stream, inFlight: seq<Buffer>) {
    var frames, waiters := AllFrames(s.link.ledger.executed), AllWaiters(r.link.ledger.executed);
    var matched := r.queues.meeting.matched;
    && s.sent == Delivered(matched) + r.queues.meeting.data + inFlight
    && |matched| <= |frames| && |matched| <= |waiters| && |r.queues.outcomes| == |matched|
    && (forall k | 0 <= k < |matched| :: matched[k] == (waiters[k], Wire(lib, frames[k])))
    && (inFlight == [] ==> |matched| == Min(|frames|, |waiters|))
    && (Aligned(frames, waiters) ==>
          forall k | 0 <= k < |matched| :: Correct(lib, frames[k], waiters[k], r.queues.outcomes[k]))
  }

  lemma ReadsBack(lib: Lib, md: seq<Pair>)
    requires LibOk(lib) && AllText(lib, md)
    ensures lib.parse(lib.dump(Encode(md))) == Some(Encode(md)) && Members(Encode(md)) == PutAll(md)
  {
    PutAllCorrect(md);
    PutAllText(lib, md);
    assert ValidJson(lib, Encode(md));
  }

  lemma OutcomeCorrect(lib: Lib, f: Frame, w: Waiter)
    requires LibOk(lib) && KindOf(f) == w.kind
    requires f.Headers? ==> f.kind != MessageBody
    ensures Correct(lib, f, w, OutcomeOf(lib, w, Wire(lib, f)))
  {
    if f.Headers? && AllText(lib, f.md) {
      ReadsBack(lib, f.md);
      RoundTrip(lib, f.md);
    }
  }

  lemma {:induction false} HeadersAreMetadata(ops: seq<Batch>)
    ensures forall f | f in AllFrames(ops) :: f.Headers? ==> f.kind != MessageBody
  {
    if ops == [] {
    } else {
      HeadersAreMetadata(ops[..|ops| - 1]);
    }
  }

  /** Arrivals are a prefix of what was sent, and meeting takes them from the front. */
  lemma PairedConserves(sent: seq<Buffer>, arrived: seq<Buffer>, inFlight: seq<Buffer>, waiters: seq<Waiter>)
    requires sent == arrived + inFlight
    ensures var m := Paired(arrived, waiters);
            && sent == Delivered(m.matched) + m.data + inFlight
            && |m.matched| == Min(|sent| - |inFlight|, |waiters|)
            && (forall k | 0 <= k < |m.matched| :: m.matched[k] == (waiters[k], sent[k]))
  {
    var m := Paired(arrived, waiters);
    assert arrived == Delivered(m.matched) + m.data;
  }

  lemma DirectionConserves(lib: Lib, s: Stream, r: Stream, inFlight: seq<Buffer>)
    requires InStep(lib, s) && InStep(lib, r) && QueuesOk(lib, r.queues) && Linked(s, r, inFlight)
    ensures var frames, waiters := AllFrames(s.link.ledger.executed), AllWaiters(r.link.ledger.executed);
            var matched := r.queues.meeting.matched;
            && |frames| == |s.sent| >= |inFlight|
            && s.sent == Delivered(matched) + r.queues.meeting.data + inFlight
            && |matched| == Min(|frames| - |inFlight|, |waiters|)
            && (forall k | 0 <= k < |matched| :: matched[k] == (waiters[k], Wire(lib, frames[k])))
  {
    PairedConserves(s.sent, r.queues.arrived, inFlight, r.queues.waiters);
  }

  lemma DirectionFaithful(lib: Lib, s: Stream, r: Stream, inFlight: seq<Buffer>)
    requires LibOk(lib) && StreamOk(lib, s) && StreamOk(lib, r) && Linked(s, r, inFlight)
    ensures Faithful(lib, s, r, inFlight)
  {
    DirectionConserves(lib, s, r, inFlight);
    var ops := s.link.ledger.executed;
    HeadersAreMetadata(ops);
    forall k | 0 <= k < |r.queues.meeting.matched|
      ensures KindOf(AllFrames(ops)[k]) == r.queues.waiters[k].kind
              ==> Correct(lib, AllFrames(ops)[k], r.queues.waiters[k], r.queues.outcomes[k])
    {
      var f := AllFrames(ops)[k];
      assert f in AllFrames(ops);
      if KindOf(f) == r.queues.waiters[k].kind {
        OutcomeCorrect(lib, f, r.queues.waiters[k]);
      }
    }
  }

  /** In every reachable state, in both directions: the frames sent are those delivered, then
      those queued at the receiver, then those in flight; the k-th continuation got the k-th
      frame; and if kinds line up, each continuation got the sender's payload. When nothing
      is in flight, every continuation that has a frame has run. */
  lemma {:induction false} EndToEndFaithful(lib: Lib, w: World, events: seq<Event>)
    requires LibOk(lib) && Initial(w)
    ensures var r := Run(lib, w, events);
            Faithful(lib, r.a, r.b, r.ab) && Faithful(lib, r.b, r.a, r.ba)
  {
    RunKeeps(lib, w, events);
    var r := Run(lib, w, events);
    DirectionFaithful(lib, r.a, r.b, r.ab);
    DirectionFaithful(lib, r.b, r.a, r.ba);
  }

  /** An outcome carries the payload of a send operation: the metadata, or the whole message. */
  ghost predicate Carries(lib: Lib, p: Payload, w: Waiter, o: Outcome) {
    match p
    case List(kind, md) => Correct(lib, Headers(kind, md), w, o)
    case Whole(m) => o == Received(BytesOf(m)) && |BytesOf(m)| == m.length
  }

  /** The sender's messages come in one slice each; and as far as both reach, the receiver asks
      for things in the order in which they are sent, however either side splits them into batches. */
  ghost predicate Fits(s: Stream, r: Stream) {
    var asked, sent := RecvKinds(r.link.ledger.executed), OpKinds(s.link.ledger.executed);
    && AllSingleSlice(s.link.ledger.executed)
    && forall k | 0 <= k < |asked| && k < |sent| :: asked[k] == sent[k]
  }

  /** The k-th receive request answered was answered with the payload of the k-th send operation. */
  ghost predicate Answered(lib: Lib, s: Stream, r: Stream, inFlight: seq<Buffer>) {
    var payloads, waiters := Payloads(s.link.ledger.executed), AllWaiters(r.link.ledger.executed);
    var outcomes := r.queues.outcomes;
    && |outcomes| <= |waiters| && |outcomes| <= |payloads|
    && (forall k | 0 <= k < |outcomes| :: Carries(lib, payloads[k], waiters[k], outcomes[k]))
    && (inFlight == [] ==> |outcomes| == Min(|waiters|, |payloads|))
  }

  lemma FittingAligned(s: Stream, r: Stream)
    requires Fits(s, r)
    ensures Aligned(AllFrames(s.link.ledger.executed), AllWaiters(r.link.ledger.executed))
  {
    var sends, recvs := s.link.ledger.executed, r.link.ledger.executed;
    AllFramesArePayloads(sends);
    PayloadKinds(sends);
    WaitersFollowRequests(recvs);
    var frames, waiters := AllFrames(sends), AllWaiters(recvs);
    forall k | 0 <= k < |frames| && k < |waiters|
      ensures KindOf(frames[k]) == waiters[k].kind
    {
      assert WaiterKinds(waiters)[k] == RecvKinds(recvs)[k];
      assert frames[k] == FrameFor(Payloads(sends)[k]);
    }
  }

  lemma DirectionAnswered(lib: Lib, s: Stream, r: Stream, inFlight: seq<Buffer>)
    requires Faithful(lib, s, r, inFlight) && Fits(s, r)
    ensures Answered(lib, s, r, inFlight)
  {
    var sends, recvs := s.link.ledger.executed, r.link.ledger.executed;
    FittingAligned(s, r);
    AllFramesArePayloads(sends);
    var payloads, outcomes := Payloads(sends), r.queues.outcomes;
    forall k | 0 <= k < |outcomes|
      ensures Carries(lib, payloads[k], AllWaiters(recvs)[k], outcomes[k])
    {
      assert AllFrames(sends)[k] == FrameFor(payloads[k]);
    }
  }

  /** In every reachable state and in both directions: where one slice carries each message, the
      requests answered so far got the payloads of the send operations, one by one and whole,
      no matter which side is ahead; once nothing is in flight, every request is answered whose
      payload was sent. */
  lemma {:induction false} WholeMessages(lib: Lib, w: World, events: seq<Event>)
    requires LibOk(lib) && Initial(w)
    ensures var r := Run(lib, w, events);
            && (Fits(r.a, r.b) ==> Answered(lib, r.a, r.b, r.ab))
            && (Fits(r.b, r.a) ==> Answered(lib, r.b, r.a, r.ba))
  {
    EndToEndFaithful(lib, w, events);
    var r := Run(lib, w, events);
    if Fits(r.a, r.b) {
      DirectionAnswered(lib, r.a, r.b, r.ab);
    }
    if Fits(r.b, r.a) {
      DirectionAnswered(lib, r.b, r.a, r.ba);
    }
  }

  /** The receive buffer holds the latest message delivered and was initialised once for each; the
      initialisations exceed the destructions by one exactly while it holds something, and not
      at all once it is destroyed. */
  ghost predicate BufferBalanced(q: Queues) {
    && q.recvBuffer == LastMessage(q.meeting.matched)
    && (q.recvBuffer.Some? <==>
          exists k | 0 <= k < |q.meeting.matched| :: q.meeting.matched[k].0.kind == MessageBody)
    && q.inits == MessagesIn(q.meeting.matched)
    && q.inits == q.destroys + (if q.recvBuffer.Some? then 1 else 0)
    && (forall c :: q.inits == Destroyed(q, c).destroys && Destroyed(q, c).recvBuffer.None?)
  }

  lemma {:induction false} LastMessageExists(matched: seq<(Waiter, Buffer)>)
    ensures LastMessage(matched).Some? <==> exists k | 0 <= k < |matched| :: matched[k].0.kind == MessageBody
  {
    if matched == [] {
    } else {
      LastMessageExists(matched[..|matched| - 1]);
    }
  }

  lemma QueuesBalanced(lib: Lib, q: Queues)
    requires QueuesOk(lib, q)
    ensures BufferBalanced(q)
  {
    LastMessageExists(q.meeting.matched);
  }

  lemma {:induction false} ReceiveBufferBalanced(lib: Lib, w: World, events: seq<Event>)
    requires Initial(w)
    ensures BufferBalanced(Run(lib, w, events).a.queues) && BufferBalanced(Run(lib, w, events).b.queues)
  {
    RunKeeps(lib, w, events);
    QueuesBalanced(lib, Run(lib, w, events).a.queues);
    QueuesBalanced(lib, Run(lib, w, events).b.queues);
  }
}
