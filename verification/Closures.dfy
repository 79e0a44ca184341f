/**
The callers' closures: `on_complete` of a batch and the ready closures of its receive
requests. None is lost, none runs twice, none runs without cause.
*/
module Closures {
  import opened Wrappers
  import opened Metadata
  import opened Batches
  import opened Rendezvous
  import opened Ledger
  import opened StreamSpec
  import EndToEnd

  /** A continuation throws: the text is no JSON, or it comes to an element that is no string
      before one that is refused. */
  ghost predicate Throws(lib: Lib, w: Waiter, buffer: Buffer) {
    w.kind != MessageBody &&
    match lib.parse(buffer)
    case None => true
    case Some(js) =>
      js.Broken? && forall i | 0 <= i < |js.members| :: !Refused(lib.callouts, w.into + js.members[..i], js.members[i])
  }

  /** What a continuation leaves where its batch points: messages whole, metadata up to the first
      element that is refused. */
  lemma OutcomeExactly(lib: Lib, w: Waiter, buffer: Buffer) returns (n: nat)
    ensures OutcomeOf(lib, w, buffer).Threw? <==> Throws(lib, w, buffer)
    ensures w.kind == MessageBody ==> OutcomeOf(lib, w, buffer) == Received(buffer)
    ensures w.kind != MessageBody && lib.parse(buffer).None? ==> OutcomeOf(lib, w, buffer) == Threw(w.into)
    ensures w.kind != MessageBody && lib.parse(buffer).Some? ==>
              var items, o := Members(lib.parse(buffer).value), OutcomeOf(lib, w, buffer);
              && n <= |items| && o != Received(buffer) && o.list == w.into + items[..n]
              && (forall i | 0 <= i < n :: !Refused(lib.callouts, w.into + items[..i], items[i]))
              && (n < |items| ==> Refused(lib.callouts, w.into + items[..n], items[n]) && o == Filled(o.list, false))
  {
    n := 0;
    if w.kind != MessageBody && lib.parse(buffer).Some? {
      n := AppendedPrefix(lib.callouts, w.into, Members(lib.parse(buffer).value));
    }
  }

  /** How often `c` is the completion of an executed batch that has a send operation. */
  function Completions(ops: seq<Batch>, c: Closure): nat {
    if ops == [] then 0
    else
      var op := ops[|ops| - 1];
      Completions(ops[..|ops| - 1], c) + One(OpKindsOf(op) != [] && op.onComplete == c)
  }

  /** How often `c` is the ready closure of a continuation that ran to its end. */
  ghost function Readies(lib: Lib, matched: seq<(Waiter, Buffer)>, c: Closure): nat {
    if matched == [] then 0
    else
      var (w, buffer) := matched[|matched| - 1];
      Readies(lib, matched[..|matched| - 1], c) + One(!Throws(lib, w, buffer) && w.ready == c)
  }

  /** How often `c` was ever scheduled. */
  ghost function Scheduled(q: Queues, c: Closure): nat { Count(q.ran, c) + Count(q.scheduled, c) }

  /** Scheduled closures the queues have no delivered frame for: completions of batches. */
  ghost function Surplus(lib: Lib, q: Queues, c: Closure): int {
    Scheduled(q, c) - Readies(lib, q.meeting.matched, c)
  }

  ghost predicate Due(lib: Lib, s: Stream, c: Closure) {
    Surplus(lib, s.queues, c) == Completions(s.link.ledger.executed, c)
  }

  lemma MatchedAppend(lib: Lib, matched: seq<(Waiter, Buffer)>, w: Waiter, buffer: Buffer, c: Closure)
    ensures Readies(lib, matched + [(w, buffer)], c)
            == Readies(lib, matched, c) + One(!Throws(lib, w, buffer) && w.ready == c)
  {
    assert (matched + [(w, buffer)])[..|matched|] == matched;
  }

  lemma DeliverSurplus(lib: Lib, q: Queues, w: Waiter, buffer: Buffer, c: Closure)
    ensures Scheduled(Deliver(lib, q, w, buffer), c)
            == Scheduled(q, c) + One(!Throws(lib, w, buffer) && w.ready == c)
  {
    CountAppend(q.scheduled, w.ready);
    var n := OutcomeExactly(lib, w, buffer);
  }

  lemma OneMoreSurplus(lib: Lib, q: Queues, r: Queues, w: Waiter, buffer: Buffer, c: Closure)
    requires r.meeting.matched == q.meeting.matched + [(w, buffer)]
    requires Scheduled(r, c) == Scheduled(q, c) + One(!Throws(lib, w, buffer) && w.ready == c)
    ensures Surplus(lib, r, c) == Surplus(lib, q, c)
  {
    MatchedAppend(lib, q.meeting.matched, w, buffer, c);
  }

  lemma ArriveSurplus(lib: Lib, q: Queues, buffer: Buffer, c: Closure)
    ensures Surplus(lib, Arrive(lib, q, buffer), c) == Surplus(lib, q, c)
  {
    if q.meeting.waiting != [] {
      var w := q.meeting.waiting[0];
      DeliverSurplus(lib, q.(meeting := OnData(q.meeting, buffer), arrived := q.arrived + [buffer]), w, buffer, c);
      OneMoreSurplus(lib, q, Arrive(lib, q, buffer), w, buffer, c);
    }
  }

  lemma WaitSurplus(lib: Lib, q: Queues, w: Waiter, c: Closure)
    ensures Surplus(lib, Wait(lib, q, w), c) == Surplus(lib, q, c)
  {
    if q.meeting.data != [] {
      var buffer := q.meeting.data[0];
      DeliverSurplus(lib, q.(meeting := OnWait(q.meeting, w), waiters := q.waiters + [w]), w, buffer, c);
      OneMoreSurplus(lib, q, Wait(lib, q, w), w, buffer, c);
    }
  }

  lemma {:induction false} WaitAllSurplus(lib: Lib, q: Queues, ws: seq<Waiter>, c: Closure)
    ensures Surplus(lib, WaitAll(lib, q, ws), c) == Surplus(lib, q, c)
    decreases |ws|
  {
    if ws == [] {
    } else {
      WaitSurplus(lib, q, ws[0], c);
      WaitAllSurplus(lib, Wait(lib, q, ws[0]), ws[1..], c);
    }
  }

  /** Running a batch schedules its completion once, if it sends anything. */
  lemma RegisterSurplus(lib: Lib, q: Queues, op: Batch, c: Closure)
    ensures Surplus(lib, Register(lib, q, op), c) == Surplus(lib, q, c) + One(OpKindsOf(op) != [] && op.onComplete == c)
  {
    SendsExactly(op);
    CountAppend(q.scheduled, op.onComplete);
    WaitAllSurplus(lib, if op.Sends() then q.(scheduled := q.scheduled + [op.onComplete]) else q, WaitersOf(op), c);
  }

  lemma CompletionsAppend(ops: seq<Batch>, op: Batch, c: Closure)
    ensures Completions(ops + [op], c) == Completions(ops, c) + One(OpKindsOf(op) != [] && op.onComplete == c)
  {
    assert (ops + [op])[..|ops|] == ops;
  }

  lemma PerformDue(lib: Lib, s: Stream, op: Batch, ready: bool, c: Closure)
    requires Due(lib, s, c)
    ensures Due(lib, PerformOp(lib, s, op, ready), c)
  {
    RegisterSurplus(lib, s.queues, op, c);
    CompletionsAppend(s.link.ledger.executed, op, c);
  }

  lemma {:induction false} SubmitAllDue(lib: Lib, s: Stream, ops: seq<Batch>, ready: bool, c: Closure)
    requires Due(lib, s, c)
    ensures Due(lib, SubmitAll(lib, s, ops, ready), c)
    decreases |ops|
  {
    if ops == [] {
    } else {
      PerformDue(lib, s.(link := CountedLink(s.link, ops[0])), ops[0], ready, c);
      SubmitAllDue(lib, Submit(lib, s, ops[0], ready), ops[1..], ready, c);
    }
  }

  lemma PoppedDue(lib: Lib, s: Stream, c: Closure)
    requires Due(lib, s, c) && s.queues.scheduled != []
    ensures Due(lib, Popped(s), c)
  {
    var first, rest := s.queues.scheduled[0], s.queues.scheduled[1..];
    assert s.queues.scheduled == [first] + rest;
    CountAppend(s.queues.ran, first);
  }

  lemma LocalDue(lib: Lib, s: Stream, e: EndToEnd.Event, c: Closure)
    requires Due(lib, s, c) && !e.FrameArrives?
    ensures Due(lib, EndToEnd.Local(lib, s, e), c)
  {
    match e {
      case Submits(_, op, ready) => PerformDue(lib, s.(link := CountedLink(s.link, op)), op, ready, c);
      case RunsClosure(_, ready) =>
        if s.queues.scheduled != [] {
          PoppedDue(lib, s, c);
          SubmitAllDue(lib, Popped(s), s.queues.scheduled[0].submits, ready, c);
        }
      case Retries(_, ready) =>
        if s.link.ledger.pending.Some? { PerformDue(lib, s, s.link.ledger.pending.value, ready, c); }
      case ChannelMoves(_, _) =>
      case IsTold(_, ready) =>
        if s.link.ledger.pending.Some? {
          PerformDue(lib, s.(link := s.link.(noticeDue := false)), s.link.ledger.pending.value, ready, c);
        }
    }
  }

  lemma StepDue(lib: Lib, w: EndToEnd.World, e: EndToEnd.Event, c: Closure)
    requires Due(lib, w.a, c) && Due(lib, w.b, c)
    ensures Due(lib, EndToEnd.Step(lib, w, e).a, c) && Due(lib, EndToEnd.Step(lib, w, e).b, c)
  {
    if !e.FrameArrives? {
      LocalDue(lib, if e.atA then w.a else w.b, e, c);
    } else if e.atA && w.ba != [] {
      ArriveSurplus(lib, w.a.queues, w.ba[0], c);
    } else if !e.atA && w.ab != [] {
      ArriveSurplus(lib, w.b.queues, w.ab[0], c);
    }
  }

  /** With nothing scheduled, the closure ran exactly as often as it was due. */
  ghost predicate RanAsDue(lib: Lib, s: Stream, c: Closure) {
    s.queues.scheduled == [] ==>
      Count(s.queues.ran, c) == Completions(s.link.ledger.executed, c) + Readies(lib, s.queues.meeting.matched, c)
  }

  /** In every run of the two streams and for every closure: the times it ran or is scheduled
      to run are the executed sending batches it completes plus the delivered frames it
      announces. Once nothing is scheduled, it ran exactly that often. */
  lemma {:induction false} ClosuresConserved(lib: Lib, w: EndToEnd.World, events: seq<EndToEnd.Event>, c: Closure)
    requires EndToEnd.Initial(w)
    ensures var r := EndToEnd.Run(lib, w, events); Due(lib, r.a, c) && Due(lib, r.b, c)
    ensures var r := EndToEnd.Run(lib, w, events); RanAsDue(lib, r.a, c) && RanAsDue(lib, r.b, c)
  {
    if events == [] {
    } else {
      ClosuresConserved(lib, w, events[..|events| - 1], c);
      StepDue(lib, EndToEnd.Run(lib, w, events[..|events| - 1]), events[|events| - 1], c);
    }
  }

  // In which order

  /** Every closure ever scheduled, in order: those that ran, then those still to run. */
  function Log(q: Queues): seq<Closure> { q.ran + q.scheduled }

  /** The ready closures of continuations that ran to their end, in order. */
  ghost function ReadyLog(lib: Lib, matched: seq<(Waiter, Buffer)>): seq<Closure> {
    if matched == [] then []
    else
      var (w, buffer) := matched[|matched| - 1];
      ReadyLog(lib, matched[..|matched| - 1]) + if Throws(lib, w, buffer) then [] else [w.ready]
  }

  lemma ReadyLogAppend(lib: Lib, matched: seq<(Waiter, Buffer)>, w: Waiter, buffer: Buffer)
    ensures ReadyLog(lib, matched + [(w, buffer)])
            == ReadyLog(lib, matched) + if Throws(lib, w, buffer) then [] else [w.ready]
  {
    assert (matched + [(w, buffer)])[..|matched|] == matched;
  }

  /** What was scheduled and what was matched since `q`. */
  ghost predicate Announces(lib: Lib, q: Queues, r: Queues, first: seq<Closure>) {
    && q.meeting.matched <= r.meeting.matched
    && Log(r) == Log(q) + first + ReadyLog(lib, r.meeting.matched[|q.meeting.matched|..])
  }

  lemma DeliverLog(lib: Lib, q: Queues, w: Waiter, buffer: Buffer)
    ensures Log(Deliver(lib, q, w, buffer)) == Log(q) + if Throws(lib, w, buffer) then [] else [w.ready]
  {
    var n := OutcomeExactly(lib, w, buffer);
    assert q.ran + (q.scheduled + [w.ready]) == q.ran + q.scheduled + [w.ready];
  }

  lemma OneMoreLog(lib: Lib, q: Queues, r: Queues, w: Waiter, buffer: Buffer)
    requires r.meeting.matched == q.meeting.matched + [(w, buffer)]
    requires Log(r) == Log(q) + if Throws(lib, w, buffer) then [] else [w.ready]
    ensures Announces(lib, q, r, [])
  {
    ReadyLogAppend(lib, [], w, buffer);
    assert r.meeting.matched[|q.meeting.matched|..] == [] + [(w, buffer)];
    assert Log(q) + [] == Log(q);
  }

  lemma NothingNewLog(lib: Lib, q: Queues, r: Queues)
    requires r.meeting.matched == q.meeting.matched && Log(r) == Log(q)
    ensures Announces(lib, q, r, [])
  {
    assert r.meeting.matched[|q.meeting.matched|..] == [];
  }

  /** An arrival schedules the ready closure of the continuation it meets, last. */
  lemma ArriveLog(lib: Lib, q: Queues, buffer: Buffer)
    ensures Announces(lib, q, Arrive(lib, q, buffer), [])
  {
    if q.meeting.waiting == [] {
      NothingNewLog(lib, q, Arrive(lib, q, buffer));
    } else {
      var w := q.meeting.waiting[0];
      DeliverLog(lib, q.(meeting := OnData(q.meeting, buffer), arrived := q.arrived + [buffer]), w, buffer);
      OneMoreLog(lib, q, Arrive(lib, q, buffer), w, buffer);
    }
  }

  lemma WaitLog(lib: Lib, q: Queues, w: Waiter)
    ensures Announces(lib, q, Wait(lib, q, w), [])
  {
    if q.meeting.data == [] {
      NothingNewLog(lib, q, Wait(lib, q, w));
    } else {
      DeliverLog(lib, q.(meeting := OnWait(q.meeting, w), waiters := q.waiters + [w]), w, q.meeting.data[0]);
      OneMoreLog(lib, q, Wait(lib, q, w), w, q.meeting.data[0]);
    }
  }

  lemma {:induction false} ReadyLogConcat(lib: Lib, a: seq<(Waiter, Buffer)>, b: seq<(Waiter, Buffer)>)
    ensures ReadyLog(lib, a + b) == ReadyLog(lib, a) + ReadyLog(lib, b)
    decreases |b|
  {
    if b == [] {
      assert a + b == a;
    } else {
      var last := |b| - 1;
      ReadyLogConcat(lib, a, b[..last]);
      assert (a + b)[..|a + b| - 1] == a + b[..last];
    }
  }

  lemma TailsConcat(a: seq<(Waiter, Buffer)>, b: seq<(Waiter, Buffer)>, c: seq<(Waiter, Buffer)>)
    requires a <= b <= c
    ensures c[|a|..] == b[|a|..] + c[|b|..]
  {
  }

  lemma Regroup(log: seq<Closure>, first: seq<Closure>, x: seq<Closure>, y: seq<Closure>)
    ensures (log + first + x) + [] + y == log + first + (x + y)
  {
  }

  lemma AnnouncesTransitive(lib: Lib, q: Queues, r: Queues, t: Queues, first: seq<Closure>)
    requires Announces(lib, q, r, first) && Announces(lib, r, t, [])
    ensures Announces(lib, q, t, first)
  {
    var a, b, c := q.meeting.matched, r.meeting.matched, t.meeting.matched;
    TailsConcat(a, b, c);
    ReadyLogConcat(lib, b[|a|..], c[|b|..]);
    Regroup(Log(q), first, ReadyLog(lib, b[|a|..]), ReadyLog(lib, c[|b|..]));
  }

  lemma {:induction false} WaitAllLog(lib: Lib, q: Queues, ws: seq<Waiter>)
    ensures Announces(lib, q, WaitAll(lib, q, ws), [])
    decreases |ws|
  {
    if ws == [] {
      NothingNewLog(lib, q, q);
    } else {
      WaitLog(lib, q, ws[0]);
      WaitAllLog(lib, Wait(lib, q, ws[0]), ws[1..]);
      AnnouncesTransitive(lib, q, Wait(lib, q, ws[0]), WaitAll(lib, q, ws), []);
    }
  }

  /** An executed batch schedules its completion first, if it has a send operation, and then the
      ready closures of its continuations that found a frame. */
  lemma RegisterLog(lib: Lib, q: Queues, op: Batch)
    ensures Announces(lib, q, Register(lib, q, op), if OpKindsOf(op) != [] then [op.onComplete] else [])
  {
    SendsExactly(op);
    var first := if op.Sends() then [op.onComplete] else [];
    var r := if op.Sends() then q.(scheduled := q.scheduled + [op.onComplete]) else q;
    assert r.meeting.matched[|q.meeting.matched|..] == [];
    assert Log(r) == Log(q) + first + [];
    WaitAllLog(lib, r, WaitersOf(op));
    AnnouncesTransitive(lib, q, r, Register(lib, q, op), first);
  }

  // Closures run in the order in which they were scheduled

  ghost predicate LogLater(q: Queues, r: Queues) { q.ran <= r.ran && Log(q) <= Log(r) }

  lemma AnnouncesLater(lib: Lib, q: Queues, r: Queues, first: seq<Closure>)
    requires Announces(lib, q, r, first) && r.ran == q.ran
    ensures LogLater(q, r)
  {
  }

  lemma {:induction false} WaitAllRan(lib: Lib, q: Queues, ws: seq<Waiter>)
    ensures WaitAll(lib, q, ws).ran == q.ran
    decreases |ws|
  {
    if ws == [] {
    } else {
      WaitAllRan(lib, Wait(lib, q, ws[0]), ws[1..]);
    }
  }

  lemma PerformLogs(lib: Lib, s: Stream, op: Batch, ready: bool)
    ensures LogLater(s.queues, PerformOp(lib, s, op, ready).queues)
    ensures PerformOp(lib, s, op, ready).queues.ran == s.queues.ran
  {
    RegisterLog(lib, s.queues, op);
    WaitAllRan(lib, if op.Sends() then s.queues.(scheduled := s.queues.scheduled + [op.onComplete]) else s.queues,
               WaitersOf(op));
    AnnouncesLater(lib, s.queues, Register(lib, s.queues, op), if OpKindsOf(op) != [] then [op.onComplete] else []);
  }

  lemma {:induction false} SubmitAllLogs(lib: Lib, s: Stream, ops: seq<Batch>, ready: bool)
    ensures LogLater(s.queues, SubmitAll(lib, s, ops, ready).queues)
    ensures SubmitAll(lib, s, ops, ready).queues.ran == s.queues.ran
    decreases |ops|
  {
    if ops == [] {
    } else {
      PerformLogs(lib, s.(link := CountedLink(s.link, ops[0])), ops[0], ready);
      SubmitAllLogs(lib, Submit(lib, s, ops[0], ready), ops[1..], ready);
    }
  }

  /** A step runs the first closure scheduled, and no other. */
  lemma RunOneLogs(lib: Lib, s: Stream, ready: bool)
    ensures LogLater(s.queues, RunOne(lib, s, ready).queues)
    ensures s.queues.scheduled != [] ==> RunOne(lib, s, ready).queues.ran == s.queues.ran + [s.queues.scheduled[0]]
  {
    if s.queues.scheduled != [] {
      assert Log(Popped(s).queues) == Log(s.queues);
      SubmitAllLogs(lib, Popped(s), s.queues.scheduled[0].submits, ready);
    }
  }

  lemma LocalLogs(lib: Lib, s: Stream, e: EndToEnd.Event)
    requires !e.FrameArrives?
    ensures LogLater(s.queues, EndToEnd.Local(lib, s, e).queues)
  {
    match e {
      case Submits(_, op, ready) => PerformLogs(lib, s.(link := CountedLink(s.link, op)), op, ready);
      case RunsClosure(_, ready) => RunOneLogs(lib, s, ready);
      case Retries(_, ready) =>
        if s.link.ledger.pending.Some? { PerformLogs(lib, s, s.link.ledger.pending.value, ready); }
      case ChannelMoves(_, _) =>
      case IsTold(_, ready) =>
        if s.link.ledger.pending.Some? {
          PerformLogs(lib, s.(link := s.link.(noticeDue := false)), s.link.ledger.pending.value, ready);
        }
    }
  }

  lemma ArrivalLogs(lib: Lib, q: Queues, buffer: Buffer)
    ensures LogLater(q, Arrive(lib, q, buffer))
  {
    ArriveLog(lib, q, buffer);
    AnnouncesLater(lib, q, Arrive(lib, q, buffer), []);
  }

  lemma StepLogs(lib: Lib, w: EndToEnd.World, e: EndToEnd.Event)
    ensures LogLater(w.a.queues, EndToEnd.Step(lib, w, e).a.queues)
    ensures LogLater(w.b.queues, EndToEnd.Step(lib, w, e).b.queues)
  {
    if !e.FrameArrives? {
      LocalLogs(lib, if e.atA then w.a else w.b, e);
    } else if e.atA && w.ba != [] {
      ArrivalLogs(lib, w.a.queues, w.ba[0]);
    } else if !e.atA && w.ab != [] {
      ArrivalLogs(lib, w.b.queues, w.ab[0]);
    }
  }

  ghost predicate BothLater(v: EndToEnd.World, w: EndToEnd.World) {
    LogLater(v.a.queues, w.a.queues) && LogLater(v.b.queues, w.b.queues)
  }

  lemma BothLaterTransitive(u: EndToEnd.World, v: EndToEnd.World, w: EndToEnd.World)
    requires BothLater(u, v) && BothLater(v, w)
    ensures BothLater(u, w)
  {
  }

  lemma {:induction false} LogsAfter(lib: Lib, w: EndToEnd.World, events: seq<EndToEnd.Event>)
    ensures BothLater(w, EndToEnd.Run(lib, w, events))
  {
    if events == [] {
    } else {
      var before, e := EndToEnd.Run(lib, w, events[..|events| - 1]), events[|events| - 1];
      LogsAfter(lib, w, events[..|events| - 1]);
      StepLogs(lib, before, e);
      BothLaterTransitive(w, before, EndToEnd.Step(lib, before, e));
    }
  }

  lemma {:induction false} RunConcat(lib: Lib, w: EndToEnd.World, events: seq<EndToEnd.Event>,
                                     more: seq<EndToEnd.Event>)
    ensures EndToEnd.Run(lib, w, events + more) == EndToEnd.Run(lib, EndToEnd.Run(lib, w, events), more)
    decreases |more|
  {
    if more == [] {
      assert events + more == events;
    } else {
      var last := |more| - 1;
      RunConcat(lib, w, events, more[..last]);
      assert (events + more)[..|events + more| - 1] == events + more[..last];
    }
  }

  /** Whatever follows, the closures scheduled so far run before any later one, in the order in
      which they were scheduled. */
  lemma {:induction false} ClosuresRunInOrder(lib: Lib, w: EndToEnd.World, events: seq<EndToEnd.Event>,
                                              more: seq<EndToEnd.Event>)
    ensures BothLater(EndToEnd.Run(lib, w, events), EndToEnd.Run(lib, w, events + more))
  {
    RunConcat(lib, w, events, more);
    LogsAfter(lib, EndToEnd.Run(lib, w, events), more);
  }

  // A flush is a run

  /** The steps of a flush: closures run, one after the other, on one side. */
  function Flushing(atA: bool, ready: bool, n: nat): seq<EndToEnd.Event> {
    seq(n, _ => EndToEnd.RunsClosure(atA, ready))
  }

  function SideOf(w: EndToEnd.World, atA: bool): Stream { if atA then w.a else w.b }

  lemma FlushOnce(lib: Lib, s: Stream, ready: bool)
    requires s.queues.scheduled != []
    ensures Flush(lib, s, ready) == Flush(lib, RunOne(lib, s, ready), ready)
    ensures Load(RunOne(lib, s, ready)) < Load(s)
    ensures |RunOne(lib, s, ready).queues.ran| == |s.queues.ran| + 1
  {
    RunOneLoad(lib, s, ready);
    RunOneLogs(lib, s, ready);
  }

  lemma {:induction false} ClosureStep(lib: Lib, w: EndToEnd.World, atA: bool, ready: bool)
    ensures var v := EndToEnd.Step(lib, w, EndToEnd.RunsClosure(atA, ready));
            SideOf(v, atA) == RunOne(lib, SideOf(w, atA), ready) && EndToEnd.Run(lib, w, Flushing(atA, ready, 1)) == v
  {
    assert Flushing(atA, ready, 1) == [EndToEnd.RunsClosure(atA, ready)];
    assert Flushing(atA, ready, 1)[..0] == [];
  }

  /** The stream `t` is what `n` closure steps make of the given side of a world. */
  ghost predicate Reached(lib: Lib, w: EndToEnd.World, atA: bool, ready: bool, n: nat, t: Stream) {
    SideOf(EndToEnd.Run(lib, w, Flushing(atA, ready, n)), atA) == t
  }

  lemma {:induction false} ReachedLater(lib: Lib, w: EndToEnd.World, atA: bool, ready: bool, k: nat, t: Stream)
    requires Reached(lib, EndToEnd.Step(lib, w, EndToEnd.RunsClosure(atA, ready)), atA, ready, k, t)
    ensures Reached(lib, w, atA, ready, k + 1, t)
  {
    ClosureStep(lib, w, atA, ready);
    RunConcat(lib, w, Flushing(atA, ready, 1), Flushing(atA, ready, k));
    assert Flushing(atA, ready, 1) + Flushing(atA, ready, k) == Flushing(atA, ready, k + 1);
  }

  lemma {:induction false} FlushFrom(lib: Lib, w: EndToEnd.World, atA: bool, ready: bool) returns (n: nat)
    ensures var t := Flush(lib, SideOf(w, atA), ready);
            && Reached(lib, w, atA, ready, n, t) && t.queues.scheduled == []
            && |t.queues.ran| == |SideOf(w, atA).queues.ran| + n
    decreases Load(SideOf(w, atA))
  {
    if SideOf(w, atA).queues.scheduled == [] {
      n := 0;
      assert Flushing(atA, ready, 0) == [];
    } else {
      ClosureStep(lib, w, atA, ready);
      FlushOnce(lib, SideOf(w, atA), ready);
      var k := FlushFrom(lib, EndToEnd.Step(lib, w, EndToEnd.RunsClosure(atA, ready)), atA, ready);
      n := k + 1;
      ReachedLater(lib, w, atA, ready, k, Flush(lib, SideOf(w, atA), ready));
    }
  }

  /** From every state, a flush is a run of closure steps, each of which runs one that is
      scheduled, until none is. What holds of runs holds of flushes. */
  lemma {:induction false} FlushIsRun(lib: Lib, w: EndToEnd.World, events: seq<EndToEnd.Event>, atA: bool, ready: bool)
    returns (n: nat)
    ensures var s := SideOf(EndToEnd.Run(lib, w, events), atA);
            var t := Flush(lib, s, ready);
            && SideOf(EndToEnd.Run(lib, w, events + Flushing(atA, ready, n)), atA) == t
            && t.queues.scheduled == [] && |t.queues.ran| == |s.queues.ran| + n
  {
    n := FlushFrom(lib, EndToEnd.Run(lib, w, events), atA, ready);
    RunConcat(lib, w, events, Flushing(atA, ready, n));
  }

  /** A flush loses no closure: those scheduled run, first and in order, and every closure stays
      accounted for. */
  lemma {:induction false} FlushRunsAll(lib: Lib, s: Stream, ready: bool, c: Closure)
    ensures Log(s.queues) <= Flush(lib, s, ready).queues.ran
    ensures Flush(lib, s, ready).queues.scheduled == []
    ensures Due(lib, s, c) ==> Due(lib, Flush(lib, s, ready), c)
    decreases Load(s)
  {
    if s.queues.scheduled == [] {
      assert s.queues.ran + [] == s.queues.ran;
    } else {
      RunOneLoad(lib, s, ready);
      RunOneLogs(lib, s, ready);
      if Due(lib, s, c) {
        PoppedDue(lib, s, c);
        SubmitAllDue(lib, Popped(s), s.queues.scheduled[0].submits, ready, c);
      }
      FlushRunsAll(lib, RunOne(lib, s, ready), ready, c);
    }
  }
}
