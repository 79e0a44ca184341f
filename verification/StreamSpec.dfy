/**
`AyameStream` (`src/ayame_transport.h`) as a value with histories, its atomic steps as
functions, and what every step keeps. A stream has two independent halves: the link, which
decides whether a batch runs, waits or is lost, and the queues, which hand frames to waiters.
*/
module StreamSpec {
  import opened Wrappers
  import opened Metadata
  import opened Batches
  import opened Rendezvous
  import opened Ledger

  datatype DataState = Connecting | Open | Closing | Closed

  /** `dc_`, and `pending_op_` with the histories of batches. `noticeDue`: the channel changed
      state and its observer has not been told yet. */
  datatype Link = Link(
    dc: Option<DataState>,
    noticeDue: bool,
    ledger: Ledger<Batch>)

  /** What a continuation did with its frame. `Threw`: the text was no JSON, or an element was no
      string; the list holds what was appended before. */
  datatype Outcome = Filled(list: seq<Pair>, ok: bool) | Received(bytes: Buffer) | Threw(list: seq<Pair>)

  /** The receive queues, the receive buffer, the closures scheduled on the execution context,
      and the histories of closures run, arrivals, continuations and buffer operations. */
  datatype Queues = Queues(
    meeting: Meeting<Waiter, Buffer>,
    recvBuffer: Option<Buffer>,
    scheduled: seq<Closure>,
    ran: seq<Closure>,
    arrived: seq<Buffer>,
    waiters: seq<Waiter>,
    outcomes: seq<Outcome>,
    inits: nat,
    destroys: nat)

  /** `sent`: what the channel was given. */
  datatype Stream = Stream(link: Link, sent: seq<Buffer>, queues: Queues)

  // The queues

  function Fill(lib: Lib, w: Waiter, js: Json): (seq<Pair>, bool) {
    Appended(lib.callouts, w.into, Members(js))
  }

  function OutcomeOf(lib: Lib, w: Waiter, buffer: Buffer): Outcome {
    if w.kind == MessageBody then Received(buffer)
    else match lib.parse(buffer)
      case None => Threw(w.into)
      case Some(js) =>
        var (list, ok) := Fill(lib, w, js);
        if js.Broken? && ok then Threw(list) else Filled(list, ok)
  }

  /** A continuation runs on its frame; the queue change is given separately. */
  function Deliver(lib: Lib, q: Queues, w: Waiter, buffer: Buffer): Queues {
    var outcome := OutcomeOf(lib, w, buffer);
    var r := q.(outcomes := q.outcomes + [outcome],
                scheduled := if outcome.Threw? then q.scheduled else q.scheduled + [w.ready]);
    if w.kind == MessageBody then
      r.(recvBuffer := Some(buffer), inits := q.inits + 1,
         destroys := q.destroys + if q.recvBuffer.Some? then 1 else 0)
    else r
  }

  function Arrive(lib: Lib, q: Queues, buffer: Buffer): Queues {
    var r := q.(meeting := OnData(q.meeting, buffer), arrived := q.arrived + [buffer]);
    if q.meeting.waiting == [] then r else Deliver(lib, r, q.meeting.waiting[0], buffer)
  }

  function Wait(lib: Lib, q: Queues, w: Waiter): Queues {
    var r := q.(meeting := OnWait(q.meeting, w), waiters := q.waiters + [w]);
    if q.meeting.data == [] then r else Deliver(lib, r, w, q.meeting.data[0])
  }

  function WaitAll(lib: Lib, q: Queues, ws: seq<Waiter>): Queues
    decreases |ws|
  {
    if ws == [] then q else WaitAll(lib, Wait(lib, q, ws[0]), ws[1..])
  }

  /** The part of an executed batch that concerns the queues. */
  function Register(lib: Lib, q: Queues, op: Batch): Queues {
    WaitAll(lib, if op.Sends() then q.(scheduled := q.scheduled + [op.onComplete]) else q, WaitersOf(op))
  }

  // The link

  /** `PerformOp` as far as the batch's own fate goes. The channel can be made only once
      signalling is ready, and a batch runs only on an open channel. */
  ghost function Attempt(l: Link, op: Batch, ready: bool): Link {
    l.(dc := if l.dc.None? && ready then Some(Connecting) else l.dc,
       ledger := Attempted(l.ledger, op, l.dc == Some(Open)))
  }

  // The stream

  ghost function PerformOp(lib: Lib, s: Stream, op: Batch, ready: bool): Stream {
    var link := Attempt(s.link, op, ready);
    if s.link.dc == Some(Open) then
      Stream(link, s.sent + WireAll(lib, FramesOf(op)), Register(lib, s.queues, op))
    else s.(link := link)
  }

  ghost function CountedLink(l: Link, op: Batch): Link { l.(ledger := Counted(l.ledger, op)) }

  ghost function Submit(lib: Lib, s: Stream, op: Batch, ready: bool): Stream {
    PerformOp(lib, s.(link := CountedLink(s.link, op)), op, ready)
  }

  ghost function SubmitAll(lib: Lib, s: Stream, ops: seq<Batch>, ready: bool): Stream
    decreases |ops|
  {
    if ops == [] then s else SubmitAll(lib, Submit(lib, s, ops[0], ready), ops[1..], ready)
  }

  /** The pending batch, if there is one, is tried again. */
  ghost function Retry(lib: Lib, s: Stream, ready: bool): Stream {
    if s.link.ledger.pending.Some? then PerformOp(lib, s, s.link.ledger.pending.value, ready) else s
  }

  /** The observer is told of a state change; only an open channel wakes the pending batch. */
  ghost function Notice(lib: Lib, s: Stream, ready: bool): Stream {
    var told := s.(link := s.link.(noticeDue := false));
    if s.link.dc == Some(Open) then Retry(lib, told, ready) else told
  }

  /** The first scheduled closure leaves the execution context to run. */
  function Popped(s: Stream): Stream
    requires s.queues.scheduled != []
  {
    s.(queues := s.queues.(scheduled := s.queues.scheduled[1..], ran := s.queues.ran + [s.queues.scheduled[0]]))
  }

  /** It runs, and submits its batches. */
  ghost function RunOne(lib: Lib, s: Stream, ready: bool): Stream {
    if s.queues.scheduled == [] then s
    else SubmitAll(lib, Popped(s), s.queues.scheduled[0].submits, ready)
  }

  /** The destructor: the receive buffer goes, and the given closure is scheduled. */
  function Destroyed(q: Queues, thenClosure: Option<Closure>): Queues {
    q.(recvBuffer := None, destroys := q.destroys + One(q.recvBuffer.Some?),
       scheduled := q.scheduled + ToSeq(thenClosure))
  }

  function Fresh(dc: Option<DataState>, noticeDue: bool): Stream {
    Stream(Link(dc, noticeDue, Empty()), [],
           Queues(Meeting([], [], []), None, [], [], [], [], [], 0, 0))
  }

  // What the queues keep

  /** The most recent message handed to a continuation. */
  function LastMessage(matched: seq<(Waiter, Buffer)>): Option<Buffer> {
    if matched == [] then None
    else
      var (w, buffer) := matched[|matched| - 1];
      if w.kind == MessageBody then Some(buffer) else LastMessage(matched[..|matched| - 1])
  }

  /** How many messages were handed to continuations. */
  function MessagesIn(matched: seq<(Waiter, Buffer)>): nat {
    if matched == [] then 0
    else MessagesIn(matched[..|matched| - 1]) + One(matched[|matched| - 1].0.kind == MessageBody)
  }

  ghost predicate QueuesOk(lib: Lib, q: Queues) {
    && q.meeting == Paired(q.arrived, q.waiters)
    && |q.outcomes| == |q.meeting.matched|
    && (forall k | 0 <= k < |q.outcomes| ::
          q.outcomes[k] == OutcomeOf(lib, q.meeting.matched[k].0, q.meeting.matched[k].1))
    && q.recvBuffer == LastMessage(q.meeting.matched)
    && q.inits == MessagesIn(q.meeting.matched)
    && q.inits == q.destroys + if q.recvBuffer.Some? then 1 else 0
  }

  lemma ArriveKeeps(lib: Lib, q: Queues, buffer: Buffer)
    requires QueuesOk(lib, q)
    ensures QueuesOk(lib, Arrive(lib, q, buffer))
  {
    PairedArrival(q.arrived, q.waiters, buffer);
    var r := Arrive(lib, q, buffer);
    if q.meeting.waiting != [] {
      assert r.meeting.matched[..|r.meeting.matched| - 1] == q.meeting.matched;
    }
  }

  lemma WaitKeeps(lib: Lib, q: Queues, w: Waiter)
    requires QueuesOk(lib, q)
    ensures QueuesOk(lib, Wait(lib, q, w))
  {
    PairedWait(q.arrived, q.waiters, w);
    var r := Wait(lib, q, w);
    if q.meeting.data != [] {
      assert r.meeting.matched[..|r.meeting.matched| - 1] == q.meeting.matched;
    }
  }

  lemma {:induction false} WaitAllKeeps(lib: Lib, q: Queues, ws: seq<Waiter>)
    requires QueuesOk(lib, q)
    ensures QueuesOk(lib, WaitAll(lib, q, ws))
    decreases |ws|
  {
    if ws == [] {
    } else {
      WaitKeeps(lib, q, ws[0]);
      WaitAllKeeps(lib, Wait(lib, q, ws[0]), ws[1..]);
    }
  }

  lemma {:induction false} WaitAllHistory(lib: Lib, q: Queues, ws: seq<Waiter>)
    ensures WaitAll(lib, q, ws).waiters == q.waiters + ws
    ensures WaitAll(lib, q, ws).arrived == q.arrived
    decreases |ws|
  {
    if ws == [] {
    } else {
      WaitAllHistory(lib, Wait(lib, q, ws[0]), ws[1..]);
      assert q.waiters + [ws[0]] + ws[1..] == q.waiters + ws;
    }
  }

  // What the link keeps

  /** A pending batch beside an open channel still has a notice to come. */
  ghost predicate WakeUpDue(l: Link) {
    l.ledger.pending.Some? && l.dc == Some(Open) ==> l.noticeDue
  }

  ghost predicate LinkOk(l: Link) { Balanced(l.ledger) && InOrder(l.ledger) && WakeUpDue(l) }

  lemma AttemptKeeps(l: Link, op: Batch, ready: bool)
    requires LinkOk(l)
    ensures LinkOk(Attempt(CountedLink(l, op), op, ready))
  {
    AttemptBalanced(l.ledger, op, l.dc == Some(Open));
    AttemptInOrder(l.ledger, op, l.dc == Some(Open));
  }

  // What a stream keeps

  /** The channel was given the frames of the executed batches, and the queues their waiters. */
  ghost predicate InStep(lib: Lib, s: Stream) {
    && s.sent == WireAll(lib, AllFrames(s.link.ledger.executed))
    && s.queues.waiters == AllWaiters(s.link.ledger.executed)
  }

  ghost predicate StreamOk(lib: Lib, s: Stream) {
    QueuesOk(lib, s.queues) && LinkOk(s.link) && InStep(lib, s)
  }

  /** What a step without an arrival leaves of the histories. */
  ghost predicate Extends(s: Stream, r: Stream) {
    r.queues.arrived == s.queues.arrived && s.sent <= r.sent
  }

  lemma FreshQueues(lib: Lib)
    ensures QueuesOk(lib, Fresh(None, false).queues)
  {
    assert Paired<Waiter, Buffer>([], []).matched == [];
  }

  lemma FreshLink(dc: Option<DataState>, noticeDue: bool)
    ensures LinkOk(Link(dc, noticeDue, Empty()))
  {
    EmptyOk<Batch>();
  }

  lemma NothingSent(lib: Lib)
    ensures WireAll(lib, AllFrames([])) == []
  {
  }

  lemma FreshOk(lib: Lib, dc: Option<DataState>, noticeDue: bool)
    ensures StreamOk(lib, Fresh(dc, noticeDue))
  {
    FreshQueues(lib);
    FreshLink(dc, noticeDue);
    NothingSent(lib);
  }

  lemma PerformQueues(lib: Lib, s: Stream, op: Batch, ready: bool)
    requires QueuesOk(lib, s.queues)
    ensures QueuesOk(lib, PerformOp(lib, s, op, ready).queues)
  {
    var q := if op.Sends() then s.queues.(scheduled := s.queues.scheduled + [op.onComplete]) else s.queues;
    WaitAllKeeps(lib, q, WaitersOf(op));
  }

  /** Running a batch adds its frames to the channel and its waiters to the queues, in order. */
  lemma PerformInStep(lib: Lib, s: Stream, op: Batch, ready: bool)
    requires InStep(lib, s)
    ensures InStep(lib, PerformOp(lib, s, op, ready))
    ensures Extends(s, PerformOp(lib, s, op, ready))
  {
    var r := PerformOp(lib, s, op, ready);
    if s.link.dc == Some(Open) {
      var q := if op.Sends() then s.queues.(scheduled := s.queues.scheduled + [op.onComplete]) else s.queues;
      WaitAllHistory(lib, q, WaitersOf(op));
      assert r.link.ledger.executed[..|r.link.ledger.executed| - 1] == s.link.ledger.executed;
      WireAllConcat(lib, AllFrames(s.link.ledger.executed), FramesOf(op));
    }
  }

  lemma SubmitKeeps(lib: Lib, s: Stream, op: Batch, ready: bool)
    requires StreamOk(lib, s)
    ensures StreamOk(lib, Submit(lib, s, op, ready)) && Extends(s, Submit(lib, s, op, ready))
  {
    var s0 := s.(link := CountedLink(s.link, op));
    AttemptKeeps(s.link, op, ready);
    PerformQueues(lib, s0, op, ready);
    PerformInStep(lib, s0, op, ready);
  }

  lemma {:induction false} SubmitAllKeeps(lib: Lib, s: Stream, ops: seq<Batch>, ready: bool)
    requires StreamOk(lib, s)
    ensures StreamOk(lib, SubmitAll(lib, s, ops, ready)) && Extends(s, SubmitAll(lib, s, ops, ready))
    decreases |ops|
  {
    if ops == [] {
    } else {
      SubmitKeeps(lib, s, ops[0], ready);
      SubmitAllKeeps(lib, Submit(lib, s, ops[0], ready), ops[1..], ready);
    }
  }

  lemma RetryKeeps(lib: Lib, s: Stream, ready: bool)
    requires StreamOk(lib, s)
    ensures StreamOk(lib, Retry(lib, s, ready)) && Extends(s, Retry(lib, s, ready))
  {
    if s.link.ledger.pending.Some? {
      SubmitKeeps(lib, s, s.link.ledger.pending.value, ready);
    }
  }

  lemma NoticeKeeps(lib: Lib, s: Stream, ready: bool)
    requires StreamOk(lib, s)
    ensures StreamOk(lib, Notice(lib, s, ready)) && Extends(s, Notice(lib, s, ready))
  {
    var told := s.(link := s.link.(noticeDue := false));
    if s.link.dc == Some(Open) && s.link.ledger.pending.Some? {
      var op := s.link.ledger.pending.value;
      RetryKeeps(lib, s, ready);
      assert Attempt(told.link, op, ready) == Attempt(s.link, op, ready).(noticeDue := false);
    }
  }

  lemma RunOneKeeps(lib: Lib, s: Stream, ready: bool)
    requires StreamOk(lib, s)
    ensures StreamOk(lib, RunOne(lib, s, ready)) && Extends(s, RunOne(lib, s, ready))
  {
    if s.queues.scheduled != [] {
      SubmitAllKeeps(lib, Popped(s), s.queues.scheduled[0].submits, ready);
    }
  }

  // Completion closures terminate

  function QueueLoad(q: Queues): nat {
    ClosuresWeight(q.scheduled) + WaitersWeight(q.meeting.waiting)
  }

  function PendingWeight(l: Link): nat {
    match l.ledger.pending
    case None => 0
    case Some(op) => BatchWeight(op)
  }

  /** All code a stream may still run without new submissions from outside. */
  function Load(s: Stream): nat {
    QueueLoad(s.queues) + PendingWeight(s.link)
  }

  lemma WaitLoad(lib: Lib, q: Queues, w: Waiter)
    ensures QueueLoad(Wait(lib, q, w)) <= QueueLoad(q) + Weight(w.ready)
  {
    ClosuresWeightConcat(q.scheduled, [w.ready]);
    WaitersWeightConcat(q.meeting.waiting, [w]);
  }

  lemma {:induction false} WaitAllLoad(lib: Lib, q: Queues, ws: seq<Waiter>)
    ensures QueueLoad(WaitAll(lib, q, ws)) <= QueueLoad(q) + WaitersWeight(ws)
    decreases |ws|
  {
    if ws == [] {
    } else {
      WaitLoad(lib, q, ws[0]);
      WaitAllLoad(lib, Wait(lib, q, ws[0]), ws[1..]);
    }
  }

  lemma PerformLoad(lib: Lib, s: Stream, op: Batch, ready: bool)
    ensures Load(PerformOp(lib, s, op, ready)) <= Load(s) + BatchWeight(op)
    ensures s.link.ledger.pending == Some(op) ==> Load(PerformOp(lib, s, op, ready)) <= Load(s)
  {
    ClosuresWeightConcat(s.queues.scheduled, [op.onComplete]);
    WaitersOfWeight(op);
    var q := if op.Sends() then s.queues.(scheduled := s.queues.scheduled + [op.onComplete]) else s.queues;
    WaitAllLoad(lib, q, WaitersOf(op));
  }

  lemma {:induction false} SubmitAllLoad(lib: Lib, s: Stream, ops: seq<Batch>, ready: bool)
    ensures Load(SubmitAll(lib, s, ops, ready)) <= Load(s) + BatchesWeight(ops)
    decreases |ops|
  {
    if ops == [] {
    } else {
      var op := ops[0];
      PerformLoad(lib, s.(link := CountedLink(s.link, op)), op, ready);
      SubmitAllLoad(lib, Submit(lib, s, op, ready), ops[1..], ready);
    }
  }

  /** Running a closure uses it up: what it submits was part of it. */
  lemma RunOneLoad(lib: Lib, s: Stream, ready: bool)
    requires s.queues.scheduled != []
    ensures Load(RunOne(lib, s, ready)) < Load(s)
  {
    SubmitAllLoad(lib, Popped(s), s.queues.scheduled[0].submits, ready);
  }

  /** The flush of an execution context: closures run until none is scheduled. */
  ghost function Flush(lib: Lib, s: Stream, ready: bool): Stream
    decreases Load(s)
  {
    if s.queues.scheduled == [] then s
    else
      RunOneLoad(lib, s, ready);
      Flush(lib, RunOne(lib, s, ready), ready)
  }

  /** Whatever its closures submit, a flush ends with nothing scheduled and keeps the stream. */
  lemma {:induction false} FlushKeeps(lib: Lib, s: Stream, ready: bool)
    requires StreamOk(lib, s)
    ensures StreamOk(lib, Flush(lib, s, ready)) && Extends(s, Flush(lib, s, ready))
    ensures Flush(lib, s, ready).queues.scheduled == []
    decreases Load(s)
  {
    if s.queues.scheduled == [] {
    } else {
      RunOneKeeps(lib, s, ready);
      RunOneLoad(lib, s, ready);
      FlushKeeps(lib, RunOne(lib, s, ready), ready);
    }
  }
}
