/**
A gRPC stream batch as `PerformOp` sees it: what it sends, what it waits for, and the
closures to schedule. A closure has an identity, and the finite tree of batches its code will submit.
*/
module Batches {
  import opened Wrappers
  import opened Metadata
  import opened ByteStream

  datatype Kind = InitialMetadata | MessageBody | TrailingMetadata

  datatype Closure = Closure(id: nat, submits: seq<Batch>)

  /** A receive request: the metadata batch to fill (unused for messages) and the ready closure. */
  datatype Receive = Receive(into: seq<Pair>, ready: Closure)

  datatype Batch = Batch(
    id: nat,
    sendInitial: Option<seq<Pair>>,
    sendMessage: Option<Message>,
    sendTrailing: Option<seq<Pair>>,
    recvInitial: Option<Receive>,
    recvMessage: Option<Receive>,
    recvTrailing: Option<Receive>,
    onComplete: Closure)
  {
    predicate Sends() { sendInitial.Some? || sendMessage.Some? || sendTrailing.Some? }
  }

  /** A receive continuation, in `func_queue_` or about to run. */
  datatype Waiter = Waiter(kind: Kind, into: seq<Pair>, ready: Closure)

  /** A frame as the sender means it; on the channel only its bytes exist. */
  datatype Frame = Headers(kind: Kind, md: seq<Pair>) | Body(bytes: Buffer)

  function KindOf(f: Frame): Kind {
    match f
    case Headers(kind, _) => kind
    case Body(_) => MessageBody
  }

  function Wire(lib: Lib, f: Frame): Buffer {
    match f
    case Headers(_, md) => lib.dump(Encode(md))
    case Body(bytes) => bytes
  }

  function WireAll(lib: Lib, fs: seq<Frame>): seq<Buffer> {
    seq(|fs|, i requires 0 <= i < |fs| => Wire(lib, fs[i]))
  }

  function Bodies(slices: seq<Buffer>): seq<Frame> {
    seq(|slices|, i requires 0 <= i < |slices| => Body(slices[i]))
  }

  function HeaderFrames(kind: Kind, md: Option<seq<Pair>>): seq<Frame> {
    match md
    case None => []
    case Some(list) => [Headers(kind, list)]
  }

  function MessageFrames(message: Option<Message>): seq<Frame> {
    match message
    case None => []
    case Some(m) => Bodies(SentFrames(m))
  }

  /** The frames of a batch: initial metadata, message slices, trailing metadata. */
  function FramesOf(op: Batch): seq<Frame> {
    HeaderFrames(InitialMetadata, op.sendInitial)
    + MessageFrames(op.sendMessage)
    + HeaderFrames(TrailingMetadata, op.sendTrailing)
  }

  function WaiterFor(kind: Kind, r: Option<Receive>): seq<Waiter> {
    match r
    case None => []
    case Some(Receive(into, ready)) => [Waiter(kind, into, ready)]
  }

  /** The continuations of a batch, in registration order. */
  function WaitersOf(op: Batch): seq<Waiter> {
    WaiterFor(InitialMetadata, op.recvInitial)
    + WaiterFor(MessageBody, op.recvMessage)
    + WaiterFor(TrailingMetadata, op.recvTrailing)
  }

  function AllFrames(ops: seq<Batch>): seq<Frame> {
    if ops == [] then [] else AllFrames(ops[..|ops| - 1]) + FramesOf(ops[|ops| - 1])
  }

  function AllWaiters(ops: seq<Batch>): seq<Waiter> {
    if ops == [] then [] else AllWaiters(ops[..|ops| - 1]) + WaitersOf(ops[|ops| - 1])
  }

  lemma WireAllConcat(lib: Lib, a: seq<Frame>, b: seq<Frame>)
    ensures WireAll(lib, a + b) == WireAll(lib, a) + WireAll(lib, b)
  {
  }

  // How much code is still to run

  /** The closures in a closure, itself included. */
  function Weight(c: Closure): nat
    decreases c
  {
    1 + BatchesWeight(c.submits)
  }

  function ReceiveWeight(r: Option<Receive>): nat
    decreases r
  {
    match r
    case None => 0
    case Some(Receive(_, ready)) => Weight(ready)
  }

  function BatchWeight(op: Batch): nat
    decreases op
  {
    Weight(op.onComplete)
    + ReceiveWeight(op.recvInitial) + ReceiveWeight(op.recvMessage) + ReceiveWeight(op.recvTrailing)
  }

  function BatchesWeight(ops: seq<Batch>): nat
    decreases ops
  {
    if ops == [] then 0 else BatchWeight(ops[0]) + BatchesWeight(ops[1..])
  }

  function ClosuresWeight(cs: seq<Closure>): nat {
    if cs == [] then 0 else Weight(cs[0]) + ClosuresWeight(cs[1..])
  }

  function WaitersWeight(ws: seq<Waiter>): nat {
    if ws == [] then 0 else Weight(ws[0].ready) + WaitersWeight(ws[1..])
  }

  lemma {:induction false} ClosuresWeightConcat(a: seq<Closure>, b: seq<Closure>)
    ensures ClosuresWeight(a + b) == ClosuresWeight(a) + ClosuresWeight(b)
  {
    if a == [] {
      assert a + b == b;
    } else {
      ClosuresWeightConcat(a[1..], b);
      assert (a + b)[1..] == a[1..] + b;
    }
  }

  lemma {:induction false} WaitersWeightConcat(a: seq<Waiter>, b: seq<Waiter>)
    ensures WaitersWeight(a + b) == WaitersWeight(a) + WaitersWeight(b)
  {
    if a == [] {
      assert a + b == b;
    } else {
      WaitersWeightConcat(a[1..], b);
      assert (a + b)[1..] == a[1..] + b;
    }
  }

  lemma WaitersOfWeight(op: Batch)
    ensures Weight(op.onComplete) + WaitersWeight(WaitersOf(op)) == BatchWeight(op)
  {
    var a, b, c := WaiterFor(InitialMetadata, op.recvInitial), WaiterFor(MessageBody, op.recvMessage),
                   WaiterFor(TrailingMetadata, op.recvTrailing);
    WaitersWeightConcat(a, b);
    WaitersWeightConcat(a + b, c);
  }

  // Messages and their frames

  function OpKindsOf(op: Batch): seq<Kind> {
    (if op.sendInitial.Some? then [InitialMetadata] else [])
    + (if op.sendMessage.Some? then [MessageBody] else [])
    + (if op.sendTrailing.Some? then [TrailingMetadata] else [])
  }

  /** The kinds a peer expects that thinks one frame per send operation. */
  function OpKinds(ops: seq<Batch>): seq<Kind> {
    if ops == [] then [] else OpKinds(ops[..|ops| - 1]) + OpKindsOf(ops[|ops| - 1])
  }

  function RecvKindsOf(op: Batch): seq<Kind> {
    (if op.recvInitial.Some? then [InitialMetadata] else [])
    + (if op.recvMessage.Some? then [MessageBody] else [])
    + (if op.recvTrailing.Some? then [TrailingMetadata] else [])
  }

  lemma SendsExactly(op: Batch)
    ensures op.Sends() <==> OpKindsOf(op) != []
  {
    if op.sendInitial.Some? {
      assert OpKindsOf(op)[0] == InitialMetadata;
    }
  }

  /** The kinds the receive requests ask for. */
  function RecvKinds(ops: seq<Batch>): seq<Kind> {
    if ops == [] then [] else RecvKinds(ops[..|ops| - 1]) + RecvKindsOf(ops[|ops| - 1])
  }

  function WaiterKinds(ws: seq<Waiter>): seq<Kind> {
    seq(|ws|, i requires 0 <= i < |ws| => ws[i].kind)
  }

  /** The receive requests themselves: where to put what arrives, and whom to tell. */
  function RequestsOf(op: Batch): seq<Receive> {
    ToSeq(op.recvInitial) + ToSeq(op.recvMessage) + ToSeq(op.recvTrailing)
  }

  function Requests(ops: seq<Batch>): seq<Receive> {
    if ops == [] then [] else Requests(ops[..|ops| - 1]) + RequestsOf(ops[|ops| - 1])
  }

  function WaiterRequests(ws: seq<Waiter>): seq<Receive> {
    seq(|ws|, i requires 0 <= i < |ws| => Receive(ws[i].into, ws[i].ready))
  }

  lemma WaitersOfBatch(op: Batch)
    ensures WaiterKinds(WaitersOf(op)) == RecvKindsOf(op) && WaiterRequests(WaitersOf(op)) == RequestsOf(op)
  {
  }

  lemma WaitersConcat(a: seq<Waiter>, b: seq<Waiter>)
    ensures WaiterKinds(a + b) == WaiterKinds(a) + WaiterKinds(b)
    ensures WaiterRequests(a + b) == WaiterRequests(a) + WaiterRequests(b)
  {
  }

  /** The k-th continuation is of the kind of the k-th receive request, fills what it names and
      announces it through its closure. */
  lemma {:induction false} WaitersFollowRequests(ops: seq<Batch>)
    ensures WaiterKinds(AllWaiters(ops)) == RecvKinds(ops)
    ensures WaiterRequests(AllWaiters(ops)) == Requests(ops)
  {
    if ops == [] {
    } else {
      var front, op := ops[..|ops| - 1], ops[|ops| - 1];
      WaitersFollowRequests(front);
      WaitersOfBatch(op);
      WaitersConcat(AllWaiters(front), WaitersOf(op));
    }
  }

  function Kinds(fs: seq<Frame>): seq<Kind> {
    seq(|fs|, i requires 0 <= i < |fs| => KindOf(fs[i]))
  }

  predicate Pulled(op: Batch) { op.sendMessage.Some? ==> PullFailed !in op.sendMessage.value.pulls }

  /** The first slice pulled is the whole message. */
  predicate SingleSlice(op: Batch) {
    op.sendMessage.Some? ==>
      var m := op.sendMessage.value; m.pulls[0].Slice? && |m.pulls[0].bytes| == m.length
  }

  predicate OneFrameEach(op: Batch) { op.sendMessage.Some? ==> OneFrame(op.sendMessage.value) }

  ghost predicate AllPulled(ops: seq<Batch>) { forall i | 0 <= i < |ops| :: Pulled(ops[i]) }

  ghost predicate AllSingleSlice(ops: seq<Batch>) { forall i | 0 <= i < |ops| :: SingleSlice(ops[i]) }

  ghost predicate AllOneFrameEach(ops: seq<Batch>) { forall i | 0 <= i < |ops| :: OneFrameEach(ops[i]) }

  /** A batch sends one frame for each of its send operations exactly if its message, if any,
      comes in one slice, or fails after the first. */
  lemma BatchAlignedExactly(op: Batch)
    ensures Kinds(FramesOf(op)) == OpKindsOf(op) <==> OneFrameEach(op)
    ensures |FramesOf(op)| == |OpKindsOf(op)| <==> OneFrameEach(op)
  {
    assert |FramesOf(op)| == |HeaderFrames(InitialMetadata, op.sendInitial)|
                             + |MessageFrames(op.sendMessage)| + |HeaderFrames(TrailingMetadata, op.sendTrailing)|;
    if op.sendMessage.Some? {
      OneFrameExactly(op.sendMessage.value);
    }
    if OneFrameEach(op) {
      assert Kinds(MessageFrames(op.sendMessage)) == if op.sendMessage.Some? then [MessageBody] else [];
    }
  }

  /** Where no pull fails, a batch sends no fewer frames than it has send operations. */
  lemma FrameCount(op: Batch)
    requires Pulled(op)
    ensures |FramesOf(op)| >= |OpKindsOf(op)|
    ensures OneFrameEach(op) <==> SingleSlice(op)
  {
    if op.sendMessage.Some? {
      MessageExact(op.sendMessage.value);
      OneFrameExactly(op.sendMessage.value);
    }
  }

  lemma KindsSplit(fs: seq<Frame>, ks: seq<Kind>, gs: seq<Frame>, js: seq<Kind>)
    requires |fs| >= |ks| && |gs| >= |js|
    ensures Kinds(fs + gs) == ks + js <==> Kinds(fs) == ks && Kinds(gs) == js
  {
    assert Kinds(fs + gs) == Kinds(fs) + Kinds(gs);
    if Kinds(fs + gs) == ks + js {
      assert |Kinds(fs)| == |ks|;
      assert Kinds(fs) == (ks + js)[..|ks|];
      assert Kinds(gs) == (ks + js)[|ks|..];
    }
  }

  lemma AllSingleSliceSplit(ops: seq<Batch>)
    requires ops != []
    ensures AllSingleSlice(ops) <==> AllSingleSlice(ops[..|ops| - 1]) && SingleSlice(ops[|ops| - 1])
  {
    var last := |ops| - 1;
    if AllSingleSlice(ops) {
      assert forall i | 0 <= i < last :: ops[..last][i] == ops[i];
    }
    if AllSingleSlice(ops[..last]) && SingleSlice(ops[last]) {
      forall i | 0 <= i < |ops|
        ensures SingleSlice(ops[i])
      {
        if i < last { assert SingleSlice(ops[..last][i]); }
      }
    }
  }

  /** Where no pull fails, frames line up with send operations exactly when the first slice of
      every message is all of it; the receiver has no reassembly, so any other slicing shifts
      every later frame. */
  lemma {:induction false} OneFrameEachExactly(ops: seq<Batch>)
    requires AllPulled(ops)
    ensures |AllFrames(ops)| >= |OpKinds(ops)|
    ensures Kinds(AllFrames(ops)) == OpKinds(ops) <==> AllSingleSlice(ops)
  {
    if ops == [] {
    } else {
      var front, op := ops[..|ops| - 1], ops[|ops| - 1];
      assert AllPulled(front) && Pulled(op);
      OneFrameEachExactly(front);
      FrameCount(op);
      BatchAlignedExactly(op);
      KindsSplit(AllFrames(front), OpKinds(front), FramesOf(op), OpKindsOf(op));
      AllSingleSliceSplit(ops);
    }
  }

  /** After every batch, the frames so far line up with the send operations so far. */
  ghost predicate AlwaysAligned(ops: seq<Batch>) {
    ops == [] || (AlwaysAligned(ops[..|ops| - 1]) && Kinds(AllFrames(ops)) == OpKinds(ops))
  }

  lemma AlignedTail(fs: seq<Frame>, ks: seq<Kind>, gs: seq<Frame>, js: seq<Kind>)
    requires Kinds(fs) == ks
    ensures Kinds(fs + gs) == ks + js <==> Kinds(gs) == js
  {
    assert Kinds(fs + gs) == Kinds(fs) + Kinds(gs);
    assert (ks + js)[|ks|..] == js && (Kinds(fs) + Kinds(gs))[|ks|..] == Kinds(gs);
  }

  lemma AllOneFrameEachSplit(ops: seq<Batch>)
    requires ops != []
    ensures AllOneFrameEach(ops) <==> AllOneFrameEach(ops[..|ops| - 1]) && OneFrameEach(ops[|ops| - 1])
  {
    var last := |ops| - 1;
    forall i | 0 <= i < last
      ensures OneFrameEach(ops[i]) <==> OneFrameEach(ops[..last][i])
    {
    }
    if AllOneFrameEach(ops[..last]) && OneFrameEach(ops[last]) {
      forall i | 0 <= i < |ops|
        ensures OneFrameEach(ops[i])
      {
        if i < last { assert OneFrameEach(ops[..last][i]); }
      }
    }
  }

  /** Failing pulls included, frames stay lined up after every batch exactly when every message
      goes out in one frame. */
  lemma {:induction false} AlwaysAlignedExactly(ops: seq<Batch>)
    ensures AlwaysAligned(ops) <==> AllOneFrameEach(ops)
    ensures AlwaysAligned(ops) ==> Kinds(AllFrames(ops)) == OpKinds(ops)
  {
    if ops == [] {
    } else {
      var front, op := ops[..|ops| - 1], ops[|ops| - 1];
      AlwaysAlignedExactly(front);
      BatchAlignedExactly(op);
      AllOneFrameEachSplit(ops);
      if AlwaysAligned(front) {
        AlignedTail(AllFrames(front), OpKinds(front), FramesOf(op), OpKindsOf(op));
      }
    }
  }

  // What the send operations carry

  /** What one send operation is about. */
  datatype Payload = List(kind: Kind, md: seq<Pair>) | Whole(message: Message)

  function PayloadsOf(op: Batch): seq<Payload> {
    (if op.sendInitial.Some? then [List(InitialMetadata, op.sendInitial.value)] else [])
    + (if op.sendMessage.Some? then [Whole(op.sendMessage.value)] else [])
    + (if op.sendTrailing.Some? then [List(TrailingMetadata, op.sendTrailing.value)] else [])
  }

  function Payloads(ops: seq<Batch>): seq<Payload> {
    if ops == [] then [] else Payloads(ops[..|ops| - 1]) + PayloadsOf(ops[|ops| - 1])
  }

  /** The bytes of a whole message. */
  function BytesOf(m: Source): Buffer { Concat(Slices(m.pulls)) }

  /** The frame that carries a payload alone. */
  function FrameFor(p: Payload): Frame {
    match p
    case List(kind, md) => Headers(kind, md)
    case Whole(m) => Body(BytesOf(m))
  }

  function FramesFor(ps: seq<Payload>): seq<Frame> {
    seq(|ps|, i requires 0 <= i < |ps| => FrameFor(ps[i]))
  }

  lemma OneSliceIsWhole(m: Message)
    requires m.pulls[0].Slice? && |m.pulls[0].bytes| == m.length
    ensures SentFrames(m) == [BytesOf(m)] && |BytesOf(m)| == m.length
  {
    MessageExact(m);
    var b := m.pulls[0].bytes;
    assert SentFrames(m) == [b];
    ConcatFirst(b, []);
    assert [b] + [] == [b] && b + [] == b;
  }

  ghost predicate AllWhole(ps: seq<Payload>) {
    forall k | 0 <= k < |ps| && ps[k].Whole? :: |BytesOf(ps[k].message)| == ps[k].message.length
  }

  lemma FramesArePayloads(op: Batch)
    requires SingleSlice(op)
    ensures FramesOf(op) == FramesFor(PayloadsOf(op)) && AllWhole(PayloadsOf(op))
  {
    if op.sendMessage.Some? {
      OneSliceIsWhole(op.sendMessage.value);
      assert MessageFrames(op.sendMessage) == [Body(BytesOf(op.sendMessage.value))];
    }
  }

  lemma FramesForConcat(a: seq<Payload>, b: seq<Payload>)
    ensures FramesFor(a + b) == FramesFor(a) + FramesFor(b)
  {
  }

  lemma AllWholeConcat(a: seq<Payload>, b: seq<Payload>)
    requires AllWhole(a) && AllWhole(b)
    ensures AllWhole(a + b)
  {
  }

  /** Where the first slice of every message is all of it, the k-th frame is the k-th payload, whole. */
  lemma {:induction false} AllFramesArePayloads(ops: seq<Batch>)
    requires AllSingleSlice(ops)
    ensures AllFrames(ops) == FramesFor(Payloads(ops)) && AllWhole(Payloads(ops))
  {
    if ops == [] {
    } else {
      var front, op := ops[..|ops| - 1], ops[|ops| - 1];
      assert AllSingleSlice(front) && SingleSlice(op);
      AllFramesArePayloads(front);
      FramesArePayloads(op);
      FramesForConcat(Payloads(front), PayloadsOf(op));
      AllWholeConcat(Payloads(front), PayloadsOf(op));
    }
  }

  lemma {:induction false} PayloadKinds(ops: seq<Batch>)
    ensures |Payloads(ops)| == |OpKinds(ops)|
    ensures forall k | 0 <= k < |Payloads(ops)| :: KindOf(FrameFor(Payloads(ops)[k])) == OpKinds(ops)[k]
  {
    if ops == [] {
    } else {
      PayloadKinds(ops[..|ops| - 1]);
    }
  }

  /** The bytes of the message frames among these, in order. */
  function BodyBytes(fs: seq<Frame>): Buffer {
    if fs == [] then [] else (if fs[0].Body? then fs[0].bytes else []) + BodyBytes(fs[1..])
  }

  lemma {:induction false} BodyBytesConcat(a: seq<Frame>, b: seq<Frame>)
    ensures BodyBytes(a + b) == BodyBytes(a) + BodyBytes(b)
  {
    if a == [] {
      assert a + b == b;
    } else {
      BodyBytesConcat(a[1..], b);
      assert (a + b)[1..] == a[1..] + b;
    }
  }

  lemma {:induction false} BodyBytesOfSlices(slices: seq<Buffer>)
    ensures BodyBytes(Bodies(slices)) == Concat(slices)
  {
    if slices == [] {
    } else {
      BodyBytesOfSlices(slices[1..]);
      assert Bodies(slices)[1..] == Bodies(slices[1..]);
    }
  }

  /** However a message is sliced, the frames of its batch carry its bytes, in order. */
  lemma FramesCarryMessage(op: Batch)
    ensures BodyBytes(FramesOf(op)) == if op.sendMessage.Some? then BytesOf(op.sendMessage.value) else []
  {
    var a, b, c := HeaderFrames(InitialMetadata, op.sendInitial), MessageFrames(op.sendMessage),
                   HeaderFrames(TrailingMetadata, op.sendTrailing);
    BodyBytesConcat(a + b, c);
    BodyBytesConcat(a, b);
    if op.sendMessage.Some? {
      BodyBytesOfSlices(SentFrames(op.sendMessage.value));
      MessageExact(op.sendMessage.value);
    }
  }

  /** Two bytes in two slices. */
  function TwoSlices(): (m: Source)
    ensures Supplies(m.pulls, m.length)
  {
    var m := Source(2, [Slice([1]), Slice([2])]);
    assert m.pulls[1..] == [Slice([2])] && Slices(m.pulls[1..]) == [[2]];
    assert Slices(m.pulls) == [[1], [2]] && Concat([[1], [2]][1..]) == [2];
    m
  }

  /** Such a message before trailing metadata: whoever waits for the metadata is handed the
      second slice. */
  lemma TwoSlicesShift(md: seq<Pair>)
    ensures var op := Batch(0, None, Some(TwoSlices()), Some(md), None, None, None, Closure(0, []));
            && OpKinds([op]) == [MessageBody, TrailingMetadata]
            && AllFrames([op]) == [Body([1]), Body([2]), Headers(TrailingMetadata, md)]
  {
    var m := TwoSlices();
    var op := Batch(0, None, Some(m), Some(md), None, None, None, Closure(0, []));
    assert [op][..0] == [] && m.pulls[1..] == [Slice([2])];
    assert Sent(m.pulls[1..], 1) == [[2]];
    assert SentFrames(m) == [[1], [2]];
  }

  /** A message whose only pull fails. */
  function NoSlice(): (m: Source)
    ensures Supplies(m.pulls, m.length)
  {
    var m := Source(1, [PullFailed]);
    assert Slices(m.pulls) == [];
    m
  }

  /** It sends nothing, so whoever waits for the message is handed the trailing metadata. */
  lemma FailedPullShifts(md: seq<Pair>)
    ensures var op := Batch(0, None, Some(NoSlice()), Some(md), None, None, None, Closure(0, []));
            && OpKinds([op]) == [MessageBody, TrailingMetadata]
            && AllFrames([op]) == [Headers(TrailingMetadata, md)]
  {
    var op := Batch(0, None, Some(NoSlice()), Some(md), None, None, None, Closure(0, []));
    assert [op][..0] == [] && SentFrames(NoSlice()) == [];
  }
}
