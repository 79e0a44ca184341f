/**
When a batch is lost. `pending_op_` holds one batch; who submits while another one is pending
loses one of the two. This is the only way, over every run of a transport with its streams,
whether callers submit or the closures of earlier batches do.
*/
module Displacement {
  import opened Wrappers
  import opened Metadata
  import opened Batches
  import opened Ledger
  import opened StreamSpec
  import opened TransportRuns
  import SignalingSpec

  function Displaced(s: Stream): seq<Batch> { s.link.ledger.displaced }

  /** One of these submissions, made in a row, finds another batch pending. */
  ghost predicate FindsOther(lib: Lib, s: Stream, ops: seq<Batch>, ready: bool)
    decreases |ops|
  {
    ops != [] &&
    (OtherPending(s.link.ledger, ops[0]) || FindsOther(lib, Submit(lib, s, ops[0], ready), ops[1..], ready))
  }

  /** So does a submission of this step, from outside or by the closure that runs. */
  ghost predicate FindsPending(lib: Lib, s: Stream, e: Event, ready: bool) {
    match e
    case Submits(_, op) => OtherPending(s.link.ledger, op)
    case RunsClosure(_) =>
      s.queues.scheduled != [] && FindsOther(lib, Popped(s), s.queues.scheduled[0].submits, ready)
    case _ => false
  }

  ghost predicate Hasty(lib: Lib, n: Node, e: Event, i: nat) {
    && OnStream(e) && e.i == i < |n.streams| && !Step(lib, n, e).crashed
    && FindsPending(lib, n.streams[i], e, Ready(n))
  }

  /** Nobody ever submitted to stream `i` while another of its batches was pending. */
  ghost predicate Patient(lib: Lib, events: seq<Event>, i: nat) {
    events == [] ||
    var front := events[..|events| - 1];
    Patient(lib, front, i) && !Hasty(lib, Run(lib, front), events[|events| - 1], i)
  }

  lemma SubmitDisplaces(lib: Lib, s: Stream, op: Batch, ready: bool)
    ensures |Displaced(Submit(lib, s, op, ready))| == |Displaced(s)| + One(OtherPending(s.link.ledger, op))
  {
  }

  lemma {:induction false} SubmitAllDisplaces(lib: Lib, s: Stream, ops: seq<Batch>, ready: bool)
    ensures |Displaced(s)| <= |Displaced(SubmitAll(lib, s, ops, ready))|
    ensures |Displaced(s)| < |Displaced(SubmitAll(lib, s, ops, ready))| <==> FindsOther(lib, s, ops, ready)
    decreases |ops|
  {
    if ops == [] {
    } else {
      SubmitDisplaces(lib, s, ops[0], ready);
      SubmitAllDisplaces(lib, Submit(lib, s, ops[0], ready), ops[1..], ready);
    }
  }

  /** Trying the pending batch again displaces nothing. */
  lemma RetryDisplaces(lib: Lib, s: Stream, ready: bool)
    ensures Displaced(Retry(lib, s, ready)) == Displaced(s)
    ensures Displaced(Notice(lib, s, ready)) == Displaced(s)
  {
  }

  lemma SteppedDisplaces(lib: Lib, s: Stream, e: Event, ready: bool)
    requires OnStream(e)
    ensures |Displaced(s)| <= |Displaced(Stepped(lib, s, e, ready))|
    ensures |Displaced(s)| < |Displaced(Stepped(lib, s, e, ready))| <==> FindsPending(lib, s, e, ready)
  {
    match e {
      case Submits(_, op) => SubmitDisplaces(lib, s, op, ready);
      case RunsClosure(_) =>
        if s.queues.scheduled != [] {
          SubmitAllDisplaces(lib, Popped(s), s.queues.scheduled[0].submits, ready);
        }
      case ChannelMoves(_, _) =>
      case IsTold(_) => RetryDisplaces(lib, s, ready);
      case FrameArrives(_, _) =>
    }
  }

  /** A stream's own steps, where they do not crash, are those of the two-stream system. */
  lemma OwnStep(lib: Lib, n: Node, e: Event, i: nat)
    requires !n.crashed && OnStream(e) && i < |n.streams|
    ensures var r := Step(lib, n, e);
            && |r.streams| == |n.streams|
            && r.streams[i] == if e.i == i && !r.crashed then Stepped(lib, n.streams[i], e, Ready(n)) else n.streams[i]
  {
  }

  lemma StepDisplaces(lib: Lib, n: Node, e: Event, i: nat)
    requires HubOk(n.hub, |n.streams|) && !n.crashed && i < |n.streams|
    ensures i < |Step(lib, n, e).streams|
    ensures |Displaced(n.streams[i])| <= |Displaced(Step(lib, n, e).streams[i])|
    ensures |Displaced(n.streams[i])| < |Displaced(Step(lib, n, e).streams[i])| <==> Hasty(lib, n, e, i)
  {
    if e.Signals? {
      SignaledStream(lib, n, e.e, i);
      RetryDisplaces(lib, n.streams[i], true);
    } else if e.Builds? {
    } else {
      OwnStep(lib, n, e, i);
      SteppedDisplaces(lib, n.streams[i], e, Ready(n));
    }
  }

  /** Streams are only ever added, and a new one has displaced nothing. */
  lemma StepAddsStreams(lib: Lib, n: Node, e: Event, i: nat)
    requires !n.crashed
    ensures |n.streams| <= |Step(lib, n, e).streams|
    ensures |n.streams| <= i < |Step(lib, n, e).streams| ==> Displaced(Step(lib, n, e).streams[i]) == []
  {
    if e.Signals? {
      FireAllLength(lib, n.streams, n.hub.waited);
    } else if e.Builds? && i < |Built(n, e.handed).streams| {
      var dc, due := BuiltStream(n, e.handed, i);
    }
  }

  lemma {:induction false} PatientBefore(lib: Lib, events: seq<Event>, i: nat)
    requires |Run(lib, events).streams| <= i
    ensures Patient(lib, events, i)
  {
    if events == [] {
    } else {
      var front := events[..|events| - 1];
      if !Run(lib, front).crashed {
        StepAddsStreams(lib, Run(lib, front), events[|events| - 1], i);
      }
      PatientBefore(lib, front, i);
    }
  }

  /** In every run, a stream loses a batch if and only if somebody submitted one while another
      was pending. */
  lemma {:induction false} LosesExactly(lib: Lib, events: seq<Event>, i: nat)
    requires i < |Run(lib, events).streams|
    ensures Displaced(Run(lib, events).streams[i]) == [] <==> Patient(lib, events, i)
  {
    if events == [] {
    } else {
      var front, e := events[..|events| - 1], events[|events| - 1];
      var n := Run(lib, front);
      RunKeepsHub(lib, front);
      if i < |n.streams| {
        LosesExactly(lib, front, i);
        if !n.crashed { StepDisplaces(lib, n, e, i); }
      } else {
        PatientBefore(lib, front, i);
        if !n.crashed { StepAddsStreams(lib, n, e, i); }
      }
    }
  }

  lemma LossShows(l: Ledger<Batch>)
    requires Balanced(l) && l.displaced != []
    ensures l.submitted != l.executed + ToSeq(l.pending)
  {
    var x, rest := l.displaced[0], l.executed + ToSeq(l.pending);
    assert BalancedAt(l, x) && x in multiset(l.displaced);
    assert multiset(rest) == multiset(l.executed) + multiset(ToSeq(l.pending));
    assert Count(l.submitted, x) > Count(rest, x);
  }

  /** Then, and only then, the batches executed and the one pending are the batches submitted,
      each once and in submission order. */
  lemma {:induction false} ExecutesInOrder(lib: Lib, events: seq<Event>, i: nat)
    requires i < |Run(lib, events).streams|
    ensures var l := Run(lib, events).streams[i].link.ledger;
            l.submitted == l.executed + ToSeq(l.pending) <==> Patient(lib, events, i)
  {
    LosesExactly(lib, events, i);
    RunKeepsStream(lib, events, i);
    var l := Run(lib, events).streams[i].link.ledger;
    if l.displaced != [] {
      LossShows(l);
    }
  }

  /** A batch without any operation. */
  function Plain(id: nat): Batch { Batch(id, None, None, None, None, None, None, Closure(id, [])) }

  lemma TwoSubmissions(lib: Lib, n: Node)
    requires n == NewNode().(streams := [Fresh(None, false)], hub := n.hub) && n.hub.peer == SignalingSpec.NewPeer()
    ensures var r := Step(lib, Step(lib, n, Submits(0, Plain(1))), Submits(0, Plain(2)));
            |r.streams| == 1 && Displaced(r.streams[0]) == [Plain(2)]
  {
    var r := Step(lib, n, Submits(0, Plain(1)));
    assert r.streams[0] == Submit(lib, Fresh(None, false), Plain(1), false);
    assert r.streams[0].link.ledger.pending == Some(Plain(1));
  }

  /** A run in which a batch is lost: two are submitted before there is a channel. */
  lemma DisplacingRun(lib: Lib)
    ensures var r := Run(lib, [Builds(None), Submits(0, Plain(1)), Submits(0, Plain(2))]);
            |r.streams| == 1 && Displaced(r.streams[0]) == [Plain(2)]
  {
    var events := [Builds(None), Submits(0, Plain(1)), Submits(0, Plain(2))];
    assert events[..2] == [Builds(None), Submits(0, Plain(1))];
    assert events[..2][..1] == [Builds(None)] && [Builds(None)][..0] == [];
    var built := Run(lib, [Builds(None)]);
    assert Run(lib, []) == NewNode() && built == Step(lib, NewNode(), Builds(None));
    assert built == Built(NewNode(), None);
    assert built.streams == [Fresh(None, false)];
    TwoSubmissions(lib, built);
  }
}
