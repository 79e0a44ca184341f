/**
What becomes of a batch that waits. Once signalling is ready, the channel opens and its
observer is told, the batch is decided, whatever happens in between; before a peer has read any
offer or answer, no outgoing batch is ever sent.
*/
module WakeUps {
  import opened Wrappers
  import opened Metadata
  import opened Batches
  import opened Ledger
  import opened StreamSpec
  import opened TransportRuns
  import Displacement
  import EndToEnd
  import SignalingSpec

  // What only grows

  ghost predicate ChannelLater(a: Option<DataState>, b: Option<DataState>) {
    a.Some? ==> b.Some? && EndToEnd.Rank(a.value) <= EndToEnd.Rank(b.value)
  }

  ghost predicate LinkLater(l: Link, m: Link) {
    && l.ledger.submitted <= m.ledger.submitted && l.ledger.executed <= m.ledger.executed
    && l.ledger.displaced <= m.ledger.displaced && ChannelLater(l.dc, m.dc)
  }

  lemma PerformLater(lib: Lib, s: Stream, op: Batch, ready: bool)
    ensures LinkLater(s.link, PerformOp(lib, s, op, ready).link)
  {
  }

  lemma SubmitLater(lib: Lib, s: Stream, op: Batch, ready: bool)
    ensures LinkLater(s.link, Submit(lib, s, op, ready).link)
  {
    PerformLater(lib, s.(link := CountedLink(s.link, op)), op, ready);
  }

  lemma {:induction false} SubmitAllLater(lib: Lib, s: Stream, ops: seq<Batch>, ready: bool)
    ensures LinkLater(s.link, SubmitAll(lib, s, ops, ready).link)
    decreases |ops|
  {
    if ops == [] {
    } else {
      SubmitLater(lib, s, ops[0], ready);
      SubmitAllLater(lib, Submit(lib, s, ops[0], ready), ops[1..], ready);
    }
  }

  lemma RetryLater(lib: Lib, s: Stream, ready: bool)
    ensures LinkLater(s.link, Retry(lib, s, ready).link) && LinkLater(s.link, Notice(lib, s, ready).link)
  {
    if s.link.ledger.pending.Some? {
      PerformLater(lib, s, s.link.ledger.pending.value, ready);
      PerformLater(lib, s.(link := s.link.(noticeDue := false)), s.link.ledger.pending.value, ready);
    }
  }

  lemma SteppedLater(lib: Lib, s: Stream, e: Event, ready: bool)
    requires OnStream(e)
    ensures LinkLater(s.link, Stepped(lib, s, e, ready).link)
  {
    match e {
      case Submits(_, op) => SubmitLater(lib, s, op, ready);
      case RunsClosure(_) =>
        if s.queues.scheduled != [] {
          SubmitAllLater(lib, Popped(s), s.queues.scheduled[0].submits, ready);
        }
      case ChannelMoves(_, _) =>
      case IsTold(_) => RetryLater(lib, s, ready);
      case FrameArrives(_, _) =>
    }
  }

  lemma StepLater(lib: Lib, n: Node, e: Event, i: nat)
    requires HubOk(n.hub, |n.streams|) && i < |n.streams|
    ensures i < |Step(lib, n, e).streams| && LinkLater(n.streams[i].link, Step(lib, n, e).streams[i].link)
  {
    if n.crashed {
    } else if e.Signals? {
      SignaledStream(lib, n, e.e, i);
      RetryLater(lib, n.streams[i], true);
    } else if e.Builds? {
    } else {
      Displacement.OwnStep(lib, n, e, i);
      SteppedLater(lib, n.streams[i], e, Ready(n));
    }
  }

  /** What later steps leave of a node. */
  ghost predicate NodeLater(n: Node, m: Node, i: nat) {
    && (n.crashed ==> m.crashed) && (Ready(n) ==> Ready(m))
    && (i < |n.streams| ==> i < |m.streams| && LinkLater(n.streams[i].link, m.streams[i].link))
  }

  lemma NextLater(lib: Lib, n: Node, e: Event, i: nat)
    requires HubOk(n.hub, |n.streams|)
    ensures NodeLater(n, Step(lib, n, e), i)
  {
    StepKeepsHub(lib, n, e);
    if i < |n.streams| {
      StepLater(lib, n, e, i);
    }
  }

  lemma {:induction false} RunLater(lib: Lib, events: seq<Event>, more: seq<Event>, i: nat)
    ensures NodeLater(Run(lib, events), Run(lib, events + more), i)
    decreases |more|
  {
    if more == [] {
      assert events + more == events;
    } else {
      var last := |more| - 1;
      var before := events + more[..last];
      RunLater(lib, events, more[..last], i);
      assert (events + more)[..|events + more| - 1] == before && (events + more)[|before|] == more[last];
      RunKeepsHub(lib, before);
      NextLater(lib, Run(lib, before), more[last], i);
    }
  }

  // Ready, open, told

  ghost predicate Decided(l: Ledger<Batch>, op: Batch) { op in l.executed || op in l.displaced }

  lemma SubmittedIsAccounted(l: Ledger<Batch>, op: Batch)
    requires Balanced(l) && op in l.submitted
    ensures Decided(l, op) || l.pending == Some(op)
  {
    assert BalancedAt(l, op) && op in multiset(l.submitted);
    OnceExactly(l.executed);
    OnceExactly(l.displaced);
  }

  predicate Gone(dc: Option<DataState>) { dc == Some(Closing) || dc == Some(Closed) }

  /** The channel opened at some time, unless the batch is decided. */
  ghost predicate OpenedOrDecided(l: Link, op: Batch) {
    op in l.ledger.submitted && (Decided(l.ledger, op) || (l.dc.Some? && EndToEnd.Rank(l.dc.value) >= 1))
  }

  /** The channel of a stream opens while signalling is ready. */
  lemma {:induction false} OpeningLeaves(lib: Lib, events: seq<Event>, i: nat, op: Batch)
    requires Ready(Run(lib, events)) && i < |Run(lib, events).streams|
    requires op in Run(lib, events).streams[i].link.ledger.submitted
    requires !Step(lib, Run(lib, events), ChannelMoves(i, Open)).crashed
    ensures var r := Step(lib, Run(lib, events), ChannelMoves(i, Open));
            i < |r.streams| && OpenedOrDecided(r.streams[i].link, op)
  {
    RunKeepsStream(lib, events, i);
    var n := Run(lib, events);
    SubmittedIsAccounted(n.streams[i].link.ledger, op);
    Displacement.OwnStep(lib, n, ChannelMoves(i, Open), i);
  }

  lemma NoticeDecides(lib: Lib, s: Stream, op: Batch, ready: bool)
    requires StreamOk(lib, s) && OpenedOrDecided(s.link, op)
    ensures var l := Notice(lib, s, ready).link; Decided(l.ledger, op) || Gone(l.dc)
  {
    NoticeKeeps(lib, s, ready);
    RetryLater(lib, s, ready);
    var l := Notice(lib, s, ready).link;
    SubmittedIsAccounted(l.ledger, op);
  }

  /** The observer is told. */
  lemma {:induction false} TellingDecides(lib: Lib, events: seq<Event>, i: nat, op: Batch)
    requires i < |Run(lib, events).streams| && OpenedOrDecided(Run(lib, events).streams[i].link, op)
    requires !Step(lib, Run(lib, events), IsTold(i)).crashed
    ensures var r := Step(lib, Run(lib, events), IsTold(i));
            && i < |r.streams|
            && (Decided(r.streams[i].link.ledger, op) || Gone(r.streams[i].link.dc))
  {
    RunKeepsStream(lib, events, i);
    var n := Run(lib, events);
    Displacement.OwnStep(lib, n, IsTold(i), i);
    NoticeDecides(lib, n.streams[i], op, Ready(n));
  }

  lemma LaterStaysDecided(l: Link, m: Link, op: Batch)
    requires LinkLater(l, m)
    ensures OpenedOrDecided(l, op) ==> OpenedOrDecided(m, op)
    ensures Decided(l.ledger, op) || Gone(l.dc) ==> Decided(m.ledger, op) || Gone(m.dc)
  {
  }

  lemma {:induction false} AfterOpening(lib: Lib, events: seq<Event>, more: seq<Event>, i: nat, op: Batch)
    requires i < |Run(lib, events).streams| && OpenedOrDecided(Run(lib, events).streams[i].link, op)
    requires !Run(lib, events + more + [IsTold(i)]).crashed
    ensures var r := Run(lib, events + more + [IsTold(i)]);
            && i < |r.streams|
            && (Decided(r.streams[i].link.ledger, op) || Gone(r.streams[i].link.dc))
  {
    var before := events + more;
    assert (before + [IsTold(i)])[..|before|] == before;
    RunLater(lib, events, more, i);
    LaterStaysDecided(Run(lib, events).streams[i].link, Run(lib, before).streams[i].link, op);
    TellingDecides(lib, before, i, op);
  }

  /** A batch submitted by the time signalling is ready is decided once the channel opens and its
      observer is told, whatever happens between these and whichever wakes it: it has executed or
      was displaced, unless the channel has gone by then; and so it stays. */
  lemma {:induction false} WakeUpsSuffice(lib: Lib, ready: seq<Event>, a: seq<Event>, b: seq<Event>, c: seq<Event>,
                                          i: nat, op: Batch)
    requires Ready(Run(lib, ready)) && i < |Run(lib, ready).streams|
    requires op in Run(lib, ready).streams[i].link.ledger.submitted
    requires !Run(lib, ready + a + [ChannelMoves(i, Open)] + b + [IsTold(i)]).crashed
    ensures var r := Run(lib, ready + a + [ChannelMoves(i, Open)] + b + [IsTold(i)] + c);
            && i < |r.streams|
            && (Decided(r.streams[i].link.ledger, op) || Gone(r.streams[i].link.dc))
  {
    var atOpen := ready + a + [ChannelMoves(i, Open)];
    var told := atOpen + b + [IsTold(i)];
    assert atOpen[..|ready + a|] == ready + a;
    RunLater(lib, atOpen, b + [IsTold(i)], i);
    assert atOpen + (b + [IsTold(i)]) == told;
    RunLater(lib, ready, a, i);
    OpeningLeaves(lib, ready + a, i, op);
    AfterOpening(lib, atOpen, b, i, op);
    RunLater(lib, told, c, i);
    LaterStaysDecided(Run(lib, told).streams[i].link, Run(lib, told + c).streams[i].link, op);
  }

  // Before an offer or an answer

  /** A stream that waits for signalling has no channel and has sent nothing. */
  ghost predicate Idle(s: Stream) { s.link.dc.None? && s.link.ledger.executed == [] && s.sent == [] }

  lemma SubmitIdles(lib: Lib, s: Stream, op: Batch)
    requires Idle(s)
    ensures Idle(Submit(lib, s, op, false))
  {
  }

  lemma {:induction false} SubmitAllIdles(lib: Lib, s: Stream, ops: seq<Batch>)
    requires Idle(s)
    ensures Idle(SubmitAll(lib, s, ops, false))
    decreases |ops|
  {
    if ops == [] {
    } else {
      SubmitIdles(lib, s, ops[0]);
      SubmitAllIdles(lib, Submit(lib, s, ops[0], false), ops[1..]);
    }
  }

  lemma SteppedIdles(lib: Lib, s: Stream, e: Event)
    requires OnStream(e) && Idle(s)
    ensures Idle(Stepped(lib, s, e, false))
  {
    match e {
      case Submits(_, op) => SubmitIdles(lib, s, op);
      case RunsClosure(_) =>
        if s.queues.scheduled != [] {
          SubmitAllIdles(lib, Popped(s), s.queues.scheduled[0].submits);
        }
      case ChannelMoves(_, _) =>
      case IsTold(_) =>
      case FrameArrives(_, _) =>
    }
  }

  ghost predicate WaitsIdle(n: Node, i: nat) {
    !Ready(n) && i in n.hub.registered ==> i < |n.streams| && Idle(n.streams[i])
  }

  lemma StepWaitsIdle(lib: Lib, n: Node, e: Event, i: nat)
    requires HubOk(n.hub, |n.streams|) && WaitsIdle(n, i)
    ensures WaitsIdle(Step(lib, n, e), i)
  {
    StepKeepsHub(lib, n, e);
    if n.crashed {
    } else if e.Signals? {
      if i < |n.streams| { SignaledStream(lib, n, e.e, i); }
    } else if e.Builds? {
    } else {
      OnStreamKeepsHub(lib, n, e);
      if i < |n.streams| {
        Displacement.OwnStep(lib, n, e, i);
        if !Ready(n) && i in n.hub.registered { SteppedIdles(lib, n.streams[i], e); }
      }
    }
  }

  lemma StepDescribed(lib: Lib, n: Node, e: Event)
    requires SignalingSpec.DescribedOk(n.hub.peer)
    ensures SignalingSpec.DescribedOk(Step(lib, n, e).hub.peer)
  {
    if e.Signals? {
      SignalingSpec.StepKeepsDescribed(n.hub.peer, e.e);
    }
  }

  lemma {:induction false} RunWaitsIdle(lib: Lib, events: seq<Event>, i: nat)
    ensures WaitsIdle(Run(lib, events), i) && SignalingSpec.DescribedOk(Run(lib, events).hub.peer)
  {
    if events == [] {
    } else {
      var front, e := events[..|events| - 1], events[|events| - 1];
      RunKeepsHub(lib, front);
      RunWaitsIdle(lib, front, i);
      StepWaitsIdle(lib, Run(lib, front), e, i);
      StepDescribed(lib, Run(lib, front), e);
    }
  }

  /** As long as the peer read no offer and no answer, a stream that had to wait for signalling
      has no channel, and none of its batches ran. */
  lemma {:induction false} NoChannelUndescribed(lib: Lib, events: seq<Event>, i: nat)
    requires i in Run(lib, events).hub.registered
    requires !SignalingSpec.WasDescribed(Run(lib, events).hub.peer.loop.handled)
    ensures i < |Run(lib, events).streams| && Idle(Run(lib, events).streams[i])
  {
    RunWaitsIdle(lib, events, i);
  }
}
