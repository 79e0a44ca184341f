/**
One signalling peer (`src/ayame_signaling.cpp`) as a value: the read loop, the reaction to
each message of the signalling server, the offer/answer state of its peer connection, and
the one-shot `ready_` latch.
*/
module SignalingSpec {
  import opened Wrappers

  // Section 3.2 of RFC 8829

  datatype SdpType = Offer | Answer | ProvisionalAnswer

  datatype SignalingState = Stable | HaveLocalOffer | HaveRemoteOffer | HaveLocalPrAnswer | HaveRemotePrAnswer

  function Answered(t: SdpType, provisional: SignalingState): Option<SignalingState> {
    match t
    case Offer => None
    case Answer => Some(Stable)
    case ProvisionalAnswer => Some(provisional)
  }

  /** The state after a local or remote description is applied, where that is allowed. */
  function Applied(s: SignalingState, local: bool, t: SdpType): Option<SignalingState> {
    match s
    case Stable =>
      if t != Offer then None else Some(if local then HaveLocalOffer else HaveRemoteOffer)
    case HaveLocalOffer => if local then (if t == Offer then Some(s) else None) else Answered(t, HaveRemotePrAnswer)
    case HaveRemoteOffer => if local then Answered(t, HaveLocalPrAnswer) else (if t == Offer then Some(s) else None)
    case HaveLocalPrAnswer => if local then Answered(t, s) else None
    case HaveRemotePrAnswer => if local then None else Answered(t, s)
  }

  // Messages

  /** A text for the server, before it is dumped as JSON. */
  datatype Text = Register | Pong | OfferText | AnswerText | LocalCandidate

  /** A message from the server, after its JSON is parsed. `parses`: the library accepts the
      description or candidate inside. `usable`: a parsed candidate fits the remote description. */
  datatype Message =
    | Accept(isExistUser: bool)
    | OfferMessage(parses: bool)
    | AnswerMessage(parses: bool)
    | CandidateMessage(parses: bool, usable: bool)
    | Ping
    | Bye
    | Unknown

  datatype Call = OnConnect | OnReady

  /** The peer connection: its offer/answer state, the descriptions it has, and the
      asynchronous results still to come for `CreateOffer`, for applying a remote offer, and
      for `CreateAnswer`. */
  datatype Connection = Connection(
    state: SignalingState,
    hasLocal: bool,
    hasRemote: bool,
    offersDue: nat,
    remoteOffersDue: nat,
    answersDue: nat)

  /** The read loop. `outstanding`: asynchronous reads under way; `handled`: messages read. */
  datatype Loop = Loop(started: bool, outstanding: nat, closing: bool, handled: seq<Message>)

  /** `ready_`, with the candidates applied and the calls of the listener. */
  datatype Latch = Latch(ready: bool, applied: nat, calls: seq<Call>)

  /** What should not happen. `nullUse`: `connection_` was used while null. `illegal`: a
      description was applied in a state that does not allow it. `early`: a candidate came
      before the remote description. */
  datatype Faults = Faults(nullUse: bool, illegal: bool, early: bool)

  /** `posted`: the texts handed to `SendText`. */
  datatype Peer = Peer(loop: Loop, latch: Latch, connection: Option<Connection>, posted: seq<Text>, faults: Faults)

  function NewPeer(): Peer {
    Peer(Loop(false, 0, false, []), Latch(false, 0, []), None, [], Faults(false, false, false))
  }

  // Handlers

  function DoRead(p: Peer): Peer { p.(loop := p.loop.(outstanding := p.loop.outstanding + 1)) }

  function SendText(p: Peer, t: Text): Peer { p.(posted := p.posted + [t]) }

  function NullUse(p: Peer): Peer { p.(faults := p.faults.(nullUse := true)) }

  /** A connection that took a description on. */
  function Took(c: Connection, state: SignalingState, local: bool, t: SdpType): Connection {
    Connection(state, c.hasLocal || local, c.hasRemote || !local, c.offersDue,
               c.remoteOffersDue + (if !local && t == Offer then 1 else 0), c.answersDue)
  }

  /** `SetLocalDescription` or `SetRemoteDescription`: refused, it changes nothing. */
  function Describe(p: Peer, c: Connection, local: bool, t: SdpType): Peer {
    var r := Applied(c.state, local, t);
    p.(connection := Some(if r.Some? then Took(c, r.value, local, t) else c),
       faults := p.faults.(illegal := p.faults.illegal || r.None?))
  }

  /** `OnHandshake`, which happens once. */
  function Handshake(p: Peer): Peer {
    if p.loop.started then p
    else
      SendText(DoRead(p.(loop := p.loop.(started := true), latch := p.latch.(calls := p.latch.calls + [OnConnect]))),
               Register)
  }

  function RemoteDescription(p: Peer, parses: bool, t: SdpType): Peer {
    if !parses then p
    else if p.connection.None? then NullUse(p)
    else DoRead(Describe(p, p.connection.value, false, t))
  }

  /** The one-shot latch: the first applied candidate sets `ready_` and calls the listener. */
  function Fire(l: Latch): Latch {
    Latch(true, l.applied + 1, if l.ready then l.calls else l.calls + [OnReady])
  }

  function RemoteCandidate(p: Peer, parses: bool, usable: bool): Peer {
    if !parses then p
    else if p.connection.None? then NullUse(p)
    else if !p.connection.value.hasRemote then p.(faults := p.faults.(early := true))
    else if !usable then p
    else DoRead(p.(latch := Fire(p.latch)))
  }

  function React(p: Peer, m: Message): Peer {
    match m
    case Accept(isExistUser) =>
      DoRead(p.(connection := Some(Connection(Stable, false, false, if isExistUser then 1 else 0, 0, 0))))
    case OfferMessage(parses) => RemoteDescription(p, parses, Offer)
    case AnswerMessage(parses) => RemoteDescription(p, parses, Answer)
    case CandidateMessage(parses, usable) => RemoteCandidate(p, parses, usable)
    case Ping => DoRead(SendText(p, Pong))
    case Bye => p.(connection := None, loop := p.loop.(closing := true))
    case Unknown => p
  }

  /** `OnRead` with a message. */
  function Handle(p: Peer, m: Message): Peer {
    if p.loop.outstanding == 0 then p
    else React(p.(loop := p.loop.(outstanding := p.loop.outstanding - 1, handled := p.loop.handled + [m])), m)
  }

  /** `OnRead` with an error; `aborted` is a cancelled read, which does not close. */
  function ReadFails(p: Peer, aborted: bool): Peer {
    if p.loop.outstanding == 0 then p
    else p.(loop := p.loop.(outstanding := p.loop.outstanding - 1, closing := p.loop.closing || !aborted))
  }

  /** `on_create_offer`. */
  function OfferCreated(p: Peer): Peer {
    if p.connection.None? || p.connection.value.offersDue == 0 then p
    else
      var c := p.connection.value;
      SendText(Describe(p, c.(offersDue := c.offersDue - 1), true, Offer), OfferText)
  }

  /** `on_set_offer`. */
  function RemoteOfferSet(p: Peer): Peer {
    if p.connection.None? || p.connection.value.remoteOffersDue == 0 then p
    else
      var c := p.connection.value;
      p.(connection := Some(c.(remoteOffersDue := c.remoteOffersDue - 1, answersDue := c.answersDue + 1)))
  }

  /** `on_create_answer`. */
  function AnswerCreated(p: Peer): Peer {
    if p.connection.None? || p.connection.value.answersDue == 0 then p
    else
      var c := p.connection.value;
      SendText(Describe(p, c.(answersDue := c.answersDue - 1), true, Answer), AnswerText)
  }

  /** `OnIceCandidate`; gathering starts once there is a local description. */
  function CandidateGathered(p: Peer): Peer {
    if p.connection.None? || !p.connection.value.hasLocal then p else SendText(p, LocalCandidate)
  }

  datatype Event =
    | Handshakes
    | Reads(m: Message)
    | FailsToRead(aborted: bool)
    | CreatesOffer
    | SetsRemoteOffer
    | CreatesAnswer
    | Gathers

  function Step(p: Peer, e: Event): Peer {
    match e
    case Handshakes => Handshake(p)
    case Reads(m) => Handle(p, m)
    case FailsToRead(aborted) => ReadFails(p, aborted)
    case CreatesOffer => OfferCreated(p)
    case SetsRemoteOffer => RemoteOfferSet(p)
    case CreatesAnswer => AnswerCreated(p)
    case Gathers => CandidateGathered(p)
  }

  function Run(events: seq<Event>): Peer {
    if events == [] then NewPeer() else Step(Run(events[..|events| - 1]), events[|events| - 1])
  }

  // The read loop and the latch

  /** The calls the listener should have seen: connected once, then ready once. */
  function CallsDue(connected: bool, ready: bool): seq<Call> {
    (if connected then [OnConnect] else []) + (if ready then [OnReady] else [])
  }

  /** The first message that is not a ping decides what the connection is worth. */
  function FirstDecisive(handled: seq<Message>): Option<Message> {
    if handled == [] then None
    else
      var before := FirstDecisive(handled[..|handled| - 1]);
      if before.Some? || handled[|handled| - 1].Ping? then before else Some(handled[|handled| - 1])
  }

  predicate UsesConnection(m: Message) {
    match m
    case OfferMessage(parses) => parses
    case AnswerMessage(parses) => parses
    case CandidateMessage(parses, _) => parses
    case _ => false
  }

  ghost predicate LoopOk(p: Peer) {
    && p.loop.outstanding <= 1
    && (!p.loop.started ==> p.loop.outstanding == 0 && p.loop.handled == [])
    && (match FirstDecisive(p.loop.handled)
        case None => p.connection.None? && !p.faults.nullUse && !p.latch.ready
        case Some(Accept(_)) =>
          && !p.faults.nullUse
          && (p.connection.None? <==> Bye in p.loop.handled)
          && (Bye in p.loop.handled ==> p.loop.outstanding == 0)
        case Some(m) =>
          && p.loop.outstanding == 0 && p.connection.None? && !p.latch.ready
          && (p.faults.nullUse <==> UsesConnection(m)))
  }

  ghost predicate LatchOk(p: Peer) {
    && (p.latch.ready <==> p.latch.applied > 0)
    && p.latch.calls == CallsDue(p.loop.started, p.latch.ready)
    && (!p.loop.started ==> p.loop.outstanding == 0 && !p.latch.ready)
  }

  lemma FirstDecisiveStep(handled: seq<Message>, m: Message)
    ensures FirstDecisive(handled + [m])
            == if FirstDecisive(handled).Some? || m.Ping? then FirstDecisive(handled) else Some(m)
    ensures Bye in handled + [m] <==> Bye in handled || m == Bye
  {
    assert (handled + [m])[..|handled|] == handled;
  }

  lemma {:induction false} NoByeBefore(handled: seq<Message>)
    ensures FirstDecisive(handled).None? ==> Bye !in handled
  {
    if handled == [] {
    } else {
      NoByeBefore(handled[..|handled| - 1]);
    }
  }

  /** What a step other than reading a message leaves alone. */
  ghost predicate Aside(p: Peer, r: Peer) {
    && (r.connection.None? <==> p.connection.None?)
    && r.latch.ready == p.latch.ready && r.latch.applied == p.latch.applied
    && r.loop.handled == p.loop.handled && r.faults.nullUse == p.faults.nullUse
    && (p.loop.started ==> r.loop.started && r.latch.calls == p.latch.calls && r.loop.outstanding <= p.loop.outstanding)
    && (!p.loop.started ==> r.latch.calls == if r.loop.started then p.latch.calls + [OnConnect] else p.latch.calls)
  }

  lemma AsideSteps(p: Peer, e: Event)
    requires !e.Reads?
    ensures Aside(p, Step(p, e))
    ensures !p.loop.started ==> Step(p, e).loop.outstanding <= p.loop.outstanding + if e.Handshakes? then 1 else 0
    ensures Step(p, e).loop.started <==> p.loop.started || e.Handshakes?
  {
    match e {
      case Handshakes =>
      case FailsToRead(_) =>
      case CreatesOffer =>
      case SetsRemoteOffer =>
      case CreatesAnswer =>
      case Gathers =>
    }
  }

  lemma HandleKeepsLoop(p: Peer, m: Message)
    requires LoopOk(p) && p.loop.outstanding == 1
    ensures LoopOk(Handle(p, m)) && Handle(p, m).loop.started
  {
    FirstDecisiveStep(p.loop.handled, m);
    NoByeBefore(p.loop.handled);
    match m {
      case Accept(_) =>
      case OfferMessage(_) =>
      case AnswerMessage(_) =>
      case CandidateMessage(_, _) =>
      case Ping =>
      case Bye =>
      case Unknown =>
    }
  }

  lemma StepKeepsLoop(p: Peer, e: Event)
    requires LoopOk(p)
    ensures LoopOk(Step(p, e))
    ensures p.loop.started ==> Step(p, e).loop.started
    ensures p.loop.started && p.loop.outstanding == 0 ==>
              Step(p, e).loop.outstanding == 0 && Step(p, e).loop.handled == p.loop.handled
    ensures Step(p, e).loop.handled != p.loop.handled ==> p.loop.outstanding == 1
  {
    if !e.Reads? {
      AsideSteps(p, e);
    } else if p.loop.outstanding == 1 {
      HandleKeepsLoop(p, e.m);
    }
  }

  lemma StepKeepsLatch(p: Peer, e: Event)
    requires LatchOk(p)
    ensures LatchOk(Step(p, e))
    ensures p.latch.ready ==> Step(p, e).latch.ready
    ensures Step(p, e).latch.ready && !p.latch.ready ==>
              e.Reads? && e.m == CandidateMessage(true, true) && Step(p, e).latch.applied == p.latch.applied + 1
  {
    if !e.Reads? {
      AsideSteps(p, e);
    } else {
      match e.m {
        case Accept(_) =>
        case OfferMessage(_) =>
        case AnswerMessage(_) =>
        case CandidateMessage(_, _) =>
        case Ping =>
        case Bye =>
        case Unknown =>
      }
    }
  }

  lemma {:induction false} RunKeeps(events: seq<Event>)
    ensures LoopOk(Run(events)) && LatchOk(Run(events))
  {
    if events == [] {
    } else {
      RunKeeps(events[..|events| - 1]);
      StepKeepsLoop(Run(events[..|events| - 1]), events[|events| - 1]);
      StepKeepsLatch(Run(events[..|events| - 1]), events[|events| - 1]);
    }
  }

  /** Once no read is outstanding after the start, nothing more is handled. */
  lemma {:induction false} ReadLoopEnds(before: seq<Event>, after: seq<Event>)
    requires Run(before).loop.started && Run(before).loop.outstanding == 0
    ensures Run(before + after).loop.started && Run(before + after).loop.outstanding == 0
    ensures Run(before + after).loop.handled == Run(before).loop.handled
    decreases |after|
  {
    if after == [] {
      assert before + after == before;
    } else {
      var last := |after| - 1;
      ReadLoopEnds(before, after[..last]);
      RunKeeps(before + after[..last]);
      assert (before + after)[..|before + after| - 1] == before + after[..last];
      StepKeepsLoop(Run(before + after[..last]), after[last]);
    }
  }

  /** A read handler uses a null connection exactly in the runs whose first message other than
      a ping is a parsable offer, answer or candidate; after an accept it never does. */
  lemma {:induction false} NullUseExactly(events: seq<Event>)
    ensures Run(events).faults.nullUse <==>
              && FirstDecisive(Run(events).loop.handled).Some?
              && UsesConnection(FirstDecisive(Run(events).loop.handled).value)
    ensures Run(events).loop.outstanding <= 1
  {
    RunKeeps(events);
  }

  /** A run in which a read handler does: a candidate before the accept. */
  lemma CandidateBeforeAccept()
    ensures Run([Handshakes, Reads(CandidateMessage(true, true))]).faults.nullUse
  {
    var events := [Handshakes, Reads(CandidateMessage(true, true))];
    assert events[..1] == [Handshakes] && [Handshakes][..0] == [];
    assert Run([Handshakes]).loop.outstanding == 1;
  }

  /** The listener hears of readiness at most once, and only because a candidate was applied. */
  lemma {:induction false} ReadyOnce(events: seq<Event>)
    ensures Run(events).latch.calls == CallsDue(Run(events).loop.started, Run(events).latch.applied > 0)
    ensures Run(events).latch.ready <==> Run(events).latch.applied > 0
  {
    RunKeeps(events);
  }

  /** Once ready, a peer stays ready, and the listener is called no more. */
  lemma {:induction false} ReadyStays(before: seq<Event>, after: seq<Event>)
    requires Run(before).latch.ready
    ensures Run(before + after).latch.ready && Run(before + after).latch.calls == Run(before).latch.calls
    decreases |after|
  {
    RunKeeps(before);
    if after == [] {
      assert before + after == before;
    } else {
      var last := |after| - 1;
      ReadyStays(before, after[..last]);
      RunKeeps(before + after[..last]);
      assert (before + after)[..|before + after| - 1] == before + after[..last];
      StepKeepsLatch(Run(before + after[..last]), after[last]);
    }
  }

  /** An offer or an answer was read. */
  predicate WasDescribed(handled: seq<Message>) { exists m | m in handled :: m.OfferMessage? || m.AnswerMessage? }

  predicate DescribedOk(p: Peer) {
    && (p.connection.Some? && p.connection.value.hasRemote ==> WasDescribed(p.loop.handled))
    && (p.latch.ready ==> WasDescribed(p.loop.handled))
  }

  lemma WasDescribedAppend(handled: seq<Message>, m: Message)
    ensures WasDescribed(handled + [m]) <==> WasDescribed(handled) || m.OfferMessage? || m.AnswerMessage?
  {
    var all := handled + [m];
    assert forall x :: x in all <==> x in handled || x == m;
    if WasDescribed(handled) {
      var x :| x in handled && (x.OfferMessage? || x.AnswerMessage?);
      assert x in all;
    }
    assert m in all;
  }

  lemma HandleKeepsDescribed(p: Peer, m: Message)
    requires DescribedOk(p)
    ensures DescribedOk(Handle(p, m))
  {
    WasDescribedAppend(p.loop.handled, m);
    match m {
      case Accept(_) =>
      case OfferMessage(_) =>
      case AnswerMessage(_) =>
      case CandidateMessage(_, _) =>
      case Ping =>
      case Bye =>
      case Unknown =>
    }
  }

  lemma StepKeepsDescribed(p: Peer, e: Event)
    requires DescribedOk(p)
    ensures DescribedOk(Step(p, e))
  {
    match e {
      case Handshakes =>
      case Reads(m) => HandleKeepsDescribed(p, m);
      case FailsToRead(_) =>
      case CreatesOffer =>
      case SetsRemoteOffer =>
      case CreatesAnswer =>
      case Gathers =>
    }
  }

  /** A peer becomes ready only after it read an offer or an answer. */
  lemma {:induction false} ReadyNeedsDescription(events: seq<Event>)
    ensures DescribedOk(Run(events))
  {
    if events == [] {
    } else {
      ReadyNeedsDescription(events[..|events| - 1]);
      StepKeepsDescribed(Run(events[..|events| - 1]), events[|events| - 1]);
    }
  }

  /** `CreateDataChannel` uses `connection_` when ready; that fails exactly after a bye. */
  predicate CanCreate(p: Peer) { p.latch.ready ==> p.connection.Some? }

  lemma {:induction false} CanCreateExactly(events: seq<Event>)
    ensures CanCreate(Run(events)) <==> !(Run(events).latch.ready && Bye in Run(events).loop.handled)
  {
    RunKeeps(events);
  }

  /** A run in which it does fail: ready, then bye. */
  lemma CreateAfterBye()
    ensures !CanCreate(Run([Handshakes, Reads(Accept(false)), Reads(OfferMessage(true)),
                            Reads(CandidateMessage(true, true)), Reads(Bye)]))
  {
    var events := [Handshakes, Reads(Accept(false)), Reads(OfferMessage(true)),
                   Reads(CandidateMessage(true, true)), Reads(Bye)];
    assert events[..4][..3] == events[..3] && events[..3][..2] == events[..2] && events[..2][..1] == events[..1];
    assert events[..1][..0] == [];
    assert Run(events[..1]).loop.outstanding == 1;
    assert Run(events[..2]).connection.Some?;
    assert Run(events[..3]).connection.value.hasRemote;
    assert Run(events[..4]).latch.ready && Run(events[..4]).loop.outstanding == 1;
  }
}
