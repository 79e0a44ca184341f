/**
A transport with its signalling peer and all its streams: streams are built before and after
signalling is ready, batches are submitted, closures run, channels change state and observers
are told, in any order. No batch is left behind, and every ready callback runs exactly once.
*/
module TransportRuns {
  import opened Wrappers
  import opened Metadata
  import opened Batches
  import opened Ledger
  import opened StreamSpec
  import EndToEnd
  import SignalingSpec

  /** What the streams share: the signalling peer, and the ready callbacks. `waited` is
      `ready_waited_`, by stream; `registered` and `ran` are the callbacks ever added and run. */
  datatype Hub = Hub(peer: SignalingSpec.Peer, waited: seq<nat>, registered: seq<nat>, ran: seq<nat>)

  /** `crashed`: a channel was asked of a null connection. */
  datatype Node = Node(hub: Hub, streams: seq<Stream>, crashed: bool)

  /** `handed`: the channel an incoming stream is built on, and whether its observer is still
      to be told of its state. */
  datatype Event =
    | Signals(e: SignalingSpec.Event)
    | Builds(handed: Option<(DataState, bool)>)
    | Submits(i: nat, op: Batch)
    | RunsClosure(i: nat)
    | ChannelMoves(i: nat, state: DataState)
    | IsTold(i: nat)
    | FrameArrives(i: nat, buffer: Buffer)

  predicate Ready(n: Node) { n.hub.peer.latch.ready }

  function NewNode(): Node { Node(Hub(SignalingSpec.NewPeer(), [], [], []), [], false) }

  /** `OnReady`: the callbacks run in registration order. */
  ghost function FireAll(lib: Lib, streams: seq<Stream>, waited: seq<nat>): seq<Stream>
    decreases |waited|
  {
    if waited == [] then streams
    else
      var i := waited[0];
      FireAll(lib, if i < |streams| then streams[i := Retry(lib, streams[i], true)] else streams, waited[1..])
  }

  function GoesReady(h: Hub, e: SignalingSpec.Event): bool {
    SignalingSpec.Step(h.peer, e).latch.ready && !h.peer.latch.ready
  }

  function SignaledHub(h: Hub, e: SignalingSpec.Event): Hub {
    var peer := SignalingSpec.Step(h.peer, e);
    if GoesReady(h, e) then Hub(peer, [], h.registered, h.ran + h.waited) else h.(peer := peer)
  }

  ghost function Signaled(lib: Lib, n: Node, e: SignalingSpec.Event): Node {
    n.(hub := SignaledHub(n.hub, e),
       streams := if GoesReady(n.hub, e) then FireAll(lib, n.streams, n.hub.waited) else n.streams)
  }

  /** The constructor of a stream: an incoming one has its channel; an outgoing one asks for
      one, and registers a callback if signalling is not ready. */
  function Built(n: Node, handed: Option<(DataState, bool)>): Node {
    match handed
    case Some((state, due)) => n.(streams := n.streams + [Fresh(Some(state), due)])
    case None =>
      if !Ready(n) then
        var id := |n.streams|;
        Node(n.hub.(waited := n.hub.waited + [id], registered := n.hub.registered + [id]),
             n.streams + [Fresh(None, false)], false)
      else if SignalingSpec.CanCreate(n.hub.peer) then n.(streams := n.streams + [Fresh(Some(Connecting), false)])
      else n.(crashed := true)
  }

  /** A step of one stream, as in the two-stream system, with the readiness of this node. */
  ghost function Stepped(lib: Lib, s: Stream, e: Event, ready: bool): Stream {
    match e
    case Submits(_, op) => Submit(lib, s, op, ready)
    case RunsClosure(_) => RunOne(lib, s, ready)
    case ChannelMoves(_, state) => EndToEnd.Moved(s, state)
    case IsTold(_) => Notice(lib, s, ready)
    case FrameArrives(_, buffer) => EndToEnd.Receives(lib, s, buffer)
    case _ => s
  }

  predicate OnStream(e: Event) { !e.Signals? && !e.Builds? }

  /** The batches a step hands to its stream: from outside, or from the closure that runs. */
  function HandsIn(s: Stream, e: Event): seq<Batch> {
    match e
    case Submits(_, op) => [op]
    case RunsClosure(_) => if s.queues.scheduled == [] then [] else s.queues.scheduled[0].submits
    case _ => []
  }

  predicate AsksForChannel(s: Stream, e: Event) { s.link.dc.None? && HandsIn(s, e) != [] }

  ghost function Step(lib: Lib, n: Node, e: Event): Node {
    if n.crashed then n
    else if e.Signals? then Signaled(lib, n, e.e)
    else if e.Builds? then Built(n, e.handed)
    else if e.i >= |n.streams| then n
    else if AsksForChannel(n.streams[e.i], e) && !SignalingSpec.CanCreate(n.hub.peer) then n.(crashed := true)
    else n.(streams := n.streams[e.i := Stepped(lib, n.streams[e.i], e, Ready(n))])
  }

  ghost function Run(lib: Lib, events: seq<Event>): Node {
    if events == [] then NewNode() else Step(lib, Run(lib, events[..|events| - 1]), events[|events| - 1])
  }

  // What every step keeps

  ghost predicate Increasing(s: seq<nat>, bound: nat) {
    && (forall i, j | 0 <= i < j < |s| :: s[i] < s[j])
    && (forall i | 0 <= i < |s| :: s[i] < bound)
  }

  /** Without a channel, a stream still has its callback, or signalling is ready and nothing is pending. */
  ghost predicate Placed(s: Stream, ready: bool, waits: bool) {
    s.link.dc.None? ==> if ready then s.link.ledger.pending.None? else waits
  }

  /** Callbacks run in registration order, none before signalling is ready and all when it gets so. */
  ghost predicate HubOk(h: Hub, streams: nat) {
    && SignalingSpec.LatchOk(h.peer) && SignalingSpec.LoopOk(h.peer)
    && h.registered == h.ran + h.waited
    && Increasing(h.registered, streams)
    && (if h.peer.latch.ready then h.waited == [] else h.ran == [])
  }

  ghost predicate StreamAtOk(lib: Lib, n: Node, i: nat) {
    i < |n.streams| ==> StreamOk(lib, n.streams[i]) && Placed(n.streams[i], Ready(n), i in n.hub.waited)
  }

  lemma {:induction false} FireAllLength(lib: Lib, streams: seq<Stream>, waited: seq<nat>)
    ensures |FireAll(lib, streams, waited)| == |streams|
    decreases |waited|
  {
    if waited == [] {
    } else {
      var k := waited[0];
      FireAllLength(lib, if k < |streams| then streams[k := Retry(lib, streams[k], true)] else streams, waited[1..]);
    }
  }

  /** A stream is retried exactly when its callback is among those that run. */
  lemma {:induction false} FireAllExactly(lib: Lib, streams: seq<Stream>, waited: seq<nat>, i: nat)
    requires Increasing(waited, |streams|) && i < |streams|
    ensures |FireAll(lib, streams, waited)| == |streams|
    ensures FireAll(lib, streams, waited)[i] == if i in waited then Retry(lib, streams[i], true) else streams[i]
    decreases |waited|
  {
    FireAllLength(lib, streams, waited);
    if waited == [] {
    } else {
      var k, rest := waited[0], waited[1..];
      var next := streams[k := Retry(lib, streams[k], true)];
      assert forall a | 0 <= a < |rest| :: rest[a] == waited[a + 1];
      FireAllExactly(lib, next, rest, i);
      assert next[i] == if i == k then Retry(lib, streams[i], true) else streams[i];
      assert k !in rest;
      assert i in waited <==> i == k || i in rest;
    }
  }

  lemma SignaledKeepsHub(h: Hub, e: SignalingSpec.Event, streams: nat)
    requires HubOk(h, streams)
    ensures HubOk(SignaledHub(h, e), streams)
    ensures h.peer.latch.ready ==> SignaledHub(h, e).peer.latch.ready && SignaledHub(h, e).registered == h.registered
  {
    SignalingSpec.StepKeepsLatch(h.peer, e);
    SignalingSpec.StepKeepsLoop(h.peer, e);
    assert h.ran + h.waited + [] == h.ran + h.waited;
  }

  lemma BuiltKeepsHub(n: Node, handed: Option<(DataState, bool)>)
    requires HubOk(n.hub, |n.streams|)
    ensures HubOk(Built(n, handed).hub, |Built(n, handed).streams|)
    ensures Ready(n) ==> Built(n, handed).hub == n.hub
  {
    var r := Built(n, handed);
    assert n.hub.ran + n.hub.waited + [|n.streams|] == n.hub.ran + (n.hub.waited + [|n.streams|]);
  }

  lemma OnStreamKeepsHub(lib: Lib, n: Node, e: Event)
    requires OnStream(e)
    ensures Step(lib, n, e).hub == n.hub && |Step(lib, n, e).streams| == |n.streams|
  {
  }

  lemma StepKeepsHub(lib: Lib, n: Node, e: Event)
    requires HubOk(n.hub, |n.streams|)
    ensures HubOk(Step(lib, n, e).hub, |Step(lib, n, e).streams|)
    ensures Ready(n) ==> Ready(Step(lib, n, e)) && Step(lib, n, e).hub.registered == n.hub.registered
  {
    if e.Signals? {
      SignaledKeepsHub(n.hub, e.e, |n.streams|);
      FireAllLength(lib, n.streams, n.hub.waited);
    } else if e.Builds? {
      BuiltKeepsHub(n, e.handed);
    } else {
      OnStreamKeepsHub(lib, n, e);
    }
  }

  lemma SignaledStream(lib: Lib, n: Node, e: SignalingSpec.Event, i: nat)
    requires HubOk(n.hub, |n.streams|) && i < |n.streams|
    ensures var r := Signaled(lib, n, e);
            && |r.streams| == |n.streams|
            && r.streams[i] == (if GoesReady(n.hub, e) && i in n.hub.waited then Retry(lib, n.streams[i], true)
                                else n.streams[i])
            && (GoesReady(n.hub, e) ==> r.hub.peer.latch.ready)
            && (!GoesReady(n.hub, e) ==> r.hub.waited == n.hub.waited && Ready(r) == Ready(n))
  {
    SignalingSpec.StepKeepsLatch(n.hub.peer, e);
    if GoesReady(n.hub, e) {
      assert n.hub.registered == n.hub.waited;
      FireAllExactly(lib, n.streams, n.hub.waited, i);
    }
  }

  lemma SignaledKeepsStream(lib: Lib, n: Node, e: SignalingSpec.Event, i: nat)
    requires HubOk(n.hub, |n.streams|) && StreamAtOk(lib, n, i)
    ensures StreamAtOk(lib, Signaled(lib, n, e), i)
  {
    FireAllLength(lib, n.streams, n.hub.waited);
    if i < |n.streams| {
      SignaledStream(lib, n, e, i);
      RetryKeeps(lib, n.streams[i], true);
    }
  }

  lemma BuiltStream(n: Node, handed: Option<(DataState, bool)>, i: nat) returns (dc: Option<DataState>, due: bool)
    requires i < |Built(n, handed).streams|
    ensures var r := Built(n, handed);
            && Ready(r) == Ready(n)
            && (i < |n.streams| ==> r.streams[i] == n.streams[i] && (i in n.hub.waited ==> i in r.hub.waited))
            && (i >= |n.streams| ==> r.streams[i] == Fresh(dc, due) && (dc.None? ==> !Ready(n) && i in r.hub.waited))
  {
    match handed {
      case None => dc, due := if Ready(n) then Some(Connecting) else None, false;
      case Some((state, later)) => dc, due := Some(state), later;
    }
  }

  lemma NewStreamOk(lib: Lib, s: Stream, dc: Option<DataState>, due: bool, ready: bool, waits: bool)
    requires s == Fresh(dc, due) && (dc.None? ==> !ready && waits)
    ensures StreamOk(lib, s) && Placed(s, ready, waits)
  {
    FreshOk(lib, dc, due);
  }

  lemma BuiltKeepsStream(lib: Lib, n: Node, handed: Option<(DataState, bool)>, i: nat)
    requires StreamAtOk(lib, n, i)
    ensures StreamAtOk(lib, Built(n, handed), i)
  {
    var r := Built(n, handed);
    if i < |r.streams| {
      var dc, due := BuiltStream(n, handed, i);
      if i >= |n.streams| {
        NewStreamOk(lib, r.streams[i], dc, due, Ready(r), i in r.hub.waited);
      }
    }
  }

  lemma {:induction false} SubmitAllPlaces(lib: Lib, s: Stream, ops: seq<Batch>, ready: bool, waits: bool)
    requires Placed(s, ready, waits)
    ensures Placed(SubmitAll(lib, s, ops, ready), ready, waits)
    decreases |ops|
  {
    if ops == [] {
    } else {
      SubmitAllPlaces(lib, Submit(lib, s, ops[0], ready), ops[1..], ready, waits);
    }
  }

  lemma SteppedPlaces(lib: Lib, s: Stream, e: Event, ready: bool, waits: bool)
    requires OnStream(e) && Placed(s, ready, waits)
    ensures Placed(Stepped(lib, s, e, ready), ready, waits)
  {
    match e {
      case Submits(_, _) =>
      case RunsClosure(_) =>
        if s.queues.scheduled != [] {
          SubmitAllPlaces(lib, Popped(s), s.queues.scheduled[0].submits, ready, waits);
        }
      case ChannelMoves(_, _) =>
      case IsTold(_) =>
      case FrameArrives(_, _) =>
    }
  }

  lemma SteppedKeeps(lib: Lib, s: Stream, e: Event, ready: bool)
    requires OnStream(e) && StreamOk(lib, s)
    ensures StreamOk(lib, Stepped(lib, s, e, ready))
  {
    match e {
      case Submits(_, op) => SubmitKeeps(lib, s, op, ready);
      case RunsClosure(_) => RunOneKeeps(lib, s, ready);
      case ChannelMoves(_, _) =>
      case IsTold(_) => NoticeKeeps(lib, s, ready);
      case FrameArrives(_, buffer) => ArriveKeeps(lib, s.queues, buffer);
    }
  }

  lemma SteppedStream(lib: Lib, n: Node, e: Event, i: nat)
    requires !n.crashed && OnStream(e) && i < |n.streams|
    ensures var r := Step(lib, n, e);
            && |r.streams| == |n.streams| && r.hub == n.hub
            && (r.streams[i] == n.streams[i] || r.streams[i] == Stepped(lib, n.streams[i], e, Ready(n)))
  {
  }

  lemma SteppedKeepsStream(lib: Lib, n: Node, e: Event, i: nat)
    requires !n.crashed && OnStream(e) && StreamAtOk(lib, n, i)
    ensures StreamAtOk(lib, Step(lib, n, e), i)
  {
    if i < |n.streams| {
      SteppedStream(lib, n, e, i);
      SteppedKeeps(lib, n.streams[i], e, Ready(n));
      SteppedPlaces(lib, n.streams[i], e, Ready(n), i in n.hub.waited);
    }
  }

  lemma StepKeepsStream(lib: Lib, n: Node, e: Event, i: nat)
    requires HubOk(n.hub, |n.streams|) && StreamAtOk(lib, n, i)
    ensures StreamAtOk(lib, Step(lib, n, e), i)
  {
    if !n.crashed {
      if e.Signals? {
        SignaledKeepsStream(lib, n, e.e, i);
      } else if e.Builds? {
        BuiltKeepsStream(lib, n, e.handed, i);
      } else {
        SteppedKeepsStream(lib, n, e, i);
      }
    }
  }

  lemma {:induction false} RunKeepsHub(lib: Lib, events: seq<Event>)
    ensures HubOk(Run(lib, events).hub, |Run(lib, events).streams|)
  {
    if events == [] {
    } else {
      RunKeepsHub(lib, events[..|events| - 1]);
      StepKeepsHub(lib, Run(lib, events[..|events| - 1]), events[|events| - 1]);
    }
  }

  lemma {:induction false} RunKeepsStream(lib: Lib, events: seq<Event>, i: nat)
    ensures StreamAtOk(lib, Run(lib, events), i)
  {
    if events == [] {
    } else {
      RunKeepsHub(lib, events[..|events| - 1]);
      RunKeepsStream(lib, events[..|events| - 1], i);
      StepKeepsStream(lib, Run(lib, events[..|events| - 1]), events[|events| - 1], i);
    }
  }

  // What follows for every run

  /** A pending batch waits for something that will come: the ready callback, the opening of
      the channel or the notice of it; or its channel has gone for good. */
  ghost predicate NotStranded(l: Link, ready: bool, waits: bool) {
    l.ledger.pending.Some? ==>
      match l.dc
      case None => !ready && waits
      case Some(Connecting) => true
      case Some(Open) => l.noticeDue
      case Some(_) => true
  }

  lemma LinkNotStranded(s: Stream, ready: bool, waits: bool)
    requires LinkOk(s.link) && Placed(s, ready, waits)
    ensures NotStranded(s.link, ready, waits)
    ensures s.link.dc == Some(Open) && !s.link.noticeDue ==>
              && s.link.ledger.pending.None? && Balanced(s.link.ledger)
              && (s.link.ledger.displaced == [] ==> s.link.ledger.executed == s.link.ledger.submitted)
  {
    assert s.link.ledger.executed + [] == s.link.ledger.executed;
  }

  /** In every run, between steps, no batch is stranded. Once a channel is open and its
      observer has been told, every batch submitted has run or was displaced by another; and if
      none was displaced, they ran in submission order. */
  lemma NoStrandedBatch(lib: Lib, events: seq<Event>, i: nat)
    requires i < |Run(lib, events).streams|
    ensures var n := Run(lib, events); NotStranded(n.streams[i].link, Ready(n), i in n.hub.waited)
    ensures var l := Run(lib, events).streams[i].link;
            l.dc == Some(Open) && !l.noticeDue ==>
              && l.ledger.pending.None? && Balanced(l.ledger)
              && (l.ledger.displaced == [] ==> l.ledger.executed == l.ledger.submitted)
  {
    RunKeepsStream(lib, events, i);
    var n := Run(lib, events);
    LinkNotStranded(n.streams[i], Ready(n), i in n.hub.waited);
  }

  /** In every run, each stream accounts for its batches: submitted means executed, pending or
      displaced; if none was submitted twice, none executed twice; if none was displaced, they
      executed in submission order. */
  lemma BatchesAccounted(lib: Lib, events: seq<Event>, i: nat)
    requires i < |Run(lib, events).streams|
    ensures var l := Run(lib, events).streams[i].link.ledger;
            && Balanced(l) && InOrder(l)
            && (NoDuplicates(l.submitted) ==>
                  && NoDuplicates(l.executed)
                  && forall op | op in l.executed :: op !in l.displaced && l.pending != Some(op))
  {
    RunKeepsStream(lib, events, i);
    var l := Run(lib, events).streams[i].link.ledger;
    if NoDuplicates(l.submitted) {
      ExecutedAtMostOnce(l);
    }
  }

  /** The message that makes a peer ready. */
  function GoodCandidate(): Event { Signals(SignalingSpec.Reads(SignalingSpec.CandidateMessage(true, true))) }

  lemma ReadyRetries(lib: Lib, n: Node, i: nat)
    requires HubOk(n.hub, |n.streams|) && !n.crashed && i < |n.streams|
    requires Placed(n.streams[i], Ready(n), i in n.hub.waited)
    requires n.streams[i].link.dc.None? && n.streams[i].link.ledger.pending.Some?
    requires Ready(Step(lib, n, GoodCandidate()))
    ensures var r := Step(lib, n, GoodCandidate());
            && !r.crashed && |r.streams| == |n.streams|
            && r.streams[i].link.dc == Some(Connecting)
            && r.streams[i].link.ledger == n.streams[i].link.ledger
  {
    assert n.hub.registered == n.hub.waited;
    FireAllExactly(lib, n.streams, n.hub.waited, i);
  }

  lemma OpeningRuns(lib: Lib, n: Node, i: nat)
    requires !n.crashed && i < |n.streams|
    requires n.streams[i].link.dc == Some(Connecting) && n.streams[i].link.ledger.pending.Some?
    ensures var told := Step(lib, Step(lib, n, ChannelMoves(i, Open)), IsTold(i));
            && |told.streams| == |n.streams|
            && told.streams[i].link.ledger.pending.None?
            && told.streams[i].link.ledger.executed
               == n.streams[i].link.ledger.executed + [n.streams[i].link.ledger.pending.value]
  {
    var open := Step(lib, n, ChannelMoves(i, Open));
    assert open.streams[i].link == n.streams[i].link.(dc := Some(Open), noticeDue := true);
    var told := Step(lib, open, IsTold(i));
    assert told.streams[i] == Notice(lib, open.streams[i], Ready(open));
  }

  /** Ready, then open, then the notice: the pending batch runs. */
  lemma ReadyThenOpenRuns(lib: Lib, events: seq<Event>, i: nat)
    requires var n := Run(lib, events);
             && !n.crashed && i < |n.streams|
             && n.streams[i].link.dc.None? && n.streams[i].link.ledger.pending.Some?
             && Ready(Step(lib, n, GoodCandidate()))
    ensures var n := Run(lib, events);
            var told := Step(lib, Step(lib, Step(lib, n, GoodCandidate()), ChannelMoves(i, Open)), IsTold(i));
            && |told.streams| == |n.streams|
            && told.streams[i].link.ledger.pending.None?
            && told.streams[i].link.ledger.executed
               == n.streams[i].link.ledger.executed + [n.streams[i].link.ledger.pending.value]
  {
    RunKeepsHub(lib, events);
    RunKeepsStream(lib, events, i);
    var n := Run(lib, events);
    ReadyRetries(lib, n, i);
    OpeningRuns(lib, Step(lib, n, GoodCandidate()), i);
  }

  /** Every callback runs exactly once, in registration order, all when signalling becomes
      ready; before that none has run, and afterwards none is registered any more. */
  lemma {:induction false} CallbacksRunOnce(lib: Lib, events: seq<Event>, e: Event)
    ensures var n, r := Run(lib, events), Step(lib, Run(lib, events), e);
            && (if Ready(n) then n.hub.ran == n.hub.registered && n.hub.waited == []
                else n.hub.ran == [] && n.hub.waited == n.hub.registered)
            && Increasing(n.hub.registered, |n.streams|)
            && (Ready(n) ==> Ready(r) && r.hub.registered == n.hub.registered && r.hub.ran == n.hub.ran)
  {
    RunKeepsHub(lib, events);
    var n := Run(lib, events);
    StepKeepsHub(lib, n, e);
    var r := Step(lib, n, e);
    assert n.hub.ran + [] == n.hub.ran && [] + n.hub.waited == n.hub.waited && r.hub.ran + [] == r.hub.ran;
  }

  /** A stream built on a channel has that channel, in its state; one that is built without
      asks for a channel or waits for signalling. */
  lemma {:induction false} BuildsExactly(lib: Lib, events: seq<Event>, handed: Option<(DataState, bool)>)
    requires !Run(lib, events).crashed && !Step(lib, Run(lib, events), Builds(handed)).crashed
    ensures var n, r := Run(lib, events), Step(lib, Run(lib, events), Builds(handed));
            && |r.streams| == |n.streams| + 1 && r.streams[..|n.streams|] == n.streams
            && (match handed
                case Some((state, due)) => r.streams[|n.streams|] == Fresh(Some(state), due) && r.hub == n.hub
                case None =>
                  && r.streams[|n.streams|] == Fresh(if Ready(n) then Some(Connecting) else None, false)
                  && r.hub.waited == n.hub.waited + if Ready(n) then [] else [|n.streams|])
  {
  }

  /** The peer read a bye after it had become ready. */
  predicate PastBye(n: Node) { Ready(n) && SignalingSpec.Bye in n.hub.peer.loop.handled }

  /** From every reachable state, asking for a channel crashes in exactly these steps: past a bye,
      an outgoing stream is built, or a batch is submitted to a stream that has no channel. */
  lemma {:induction false} CrashExactly(lib: Lib, events: seq<Event>, e: Event)
    requires !Run(lib, events).crashed
    ensures var n := Run(lib, events);
            Step(lib, n, e).crashed
            <==> && PastBye(n)
                 && (e == Builds(None)
                     || (OnStream(e) && e.i < |n.streams|
                         && n.streams[e.i].link.dc.None? && HandsIn(n.streams[e.i], e) != []))
  {
    RunKeepsHub(lib, events);
  }

  /** A transport whose peer read no bye, or was not ready, never crashes. */
  lemma {:induction false} CrashNeedsBye(lib: Lib, events: seq<Event>)
    ensures Run(lib, events).crashed ==> PastBye(Run(lib, events))
  {
    if events == [] {
    } else {
      var front := events[..|events| - 1];
      CrashNeedsBye(lib, front);
      if !Run(lib, front).crashed {
        CrashExactly(lib, front, events[|events| - 1]);
      }
    }
  }
}
