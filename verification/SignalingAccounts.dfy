/**
What one signalling peer did, told from the events of its run: what it read, posted and
applied, and when it stopped reading or closed. In every run the peer's state says the same.
*/
module SignalingAccounts {
  import opened Wrappers
  import opened SignalingSpec

  // Section 3.2 of RFC 8829, read by the type of description instead of by state

  /** A description is legal, and leads where it leads, exactly as follows: an offer starts from
      stable or repeats on its own side; an answer settles the other side's offer. */
  lemma LegalExactly(s: SignalingState, local: bool, t: SdpType)
    ensures Applied(s, local, t).Some? <==>
              if t == Offer then s == Stable || s == (if local then HaveLocalOffer else HaveRemoteOffer)
              else if local then s == HaveRemoteOffer || s == HaveLocalPrAnswer
              else s == HaveLocalOffer || s == HaveRemotePrAnswer
    ensures Applied(s, local, t).Some? ==>
              Applied(s, local, t).value
              == if t == Offer then (if local then HaveLocalOffer else HaveRemoteOffer)
                 else if t == Answer then Stable
                 else if local then HaveLocalPrAnswer else HaveRemotePrAnswer
  {
    match s {
      case Stable =>
      case HaveLocalOffer =>
      case HaveRemoteOffer =>
      case HaveLocalPrAnswer =>
      case HaveRemotePrAnswer =>
    }
  }

  /** Applying a description: where it is legal the connection has it from then on; where not,
      nothing changes but that it is recorded. */
  lemma DescribesExactly(p: Peer, c: Connection, local: bool, t: SdpType)
    ensures var r, legal := Describe(p, c, local, t), Applied(c.state, local, t).Some?;
            && r.connection.Some? && r.faults.illegal == (p.faults.illegal || !legal)
            && r == p.(connection := r.connection, faults := p.faults.(illegal := r.faults.illegal))
            && (if legal then
                  var d := r.connection.value;
                  && Some(d.state) == Applied(c.state, local, t)
                  && (if local then d.hasLocal && d.hasRemote == c.hasRemote
                      else d.hasRemote && d.hasLocal == c.hasLocal)
                  && d.offersDue == c.offersDue && d.answersDue == c.answersDue
                  && d.remoteOffersDue == c.remoteOffersDue + One(!local && t == Offer)
                else r.connection.value == c)
  {
  }

  // Reading

  /** The handler of this message arms the next read. */
  predicate Continues(p: Peer, m: Message) {
    match m
    case Accept(_) => true
    case Ping => true
    case Bye => false
    case Unknown => false
    case CandidateMessage(parses, usable) =>
      parses && usable && p.connection.Some? && p.connection.value.hasRemote
    case _ => UsesConnection(m) && p.connection.Some?
  }

  /** Whether a read is under way. */
  function Reading(events: seq<Event>): bool {
    if events == [] then false
    else
      var front, e := events[..|events| - 1], events[|events| - 1];
      match e
      case Handshakes => Reading(front) || Handshakes !in front
      case Reads(m) => Reading(front) && Continues(Run(front), m)
      case FailsToRead(_) => false
      case _ => Reading(front)
  }

  /** The messages that came while a read was under way. */
  function ReadSoFar(events: seq<Event>): seq<Message> {
    if events == [] then []
    else
      var front, e := events[..|events| - 1], events[|events| - 1];
      ReadSoFar(front) + if e.Reads? && Reading(front) then [e.m] else []
  }

  lemma HandleContinues(p: Peer, m: Message)
    requires p.loop.outstanding == 1
    ensures Handle(p, m).loop.outstanding == One(Continues(p, m))
    ensures Handle(p, m).loop.handled == p.loop.handled + [m] && Handle(p, m).loop.started == p.loop.started
  {
    match m {
      case Accept(_) =>
      case OfferMessage(_) =>
      case AnswerMessage(_) =>
      case CandidateMessage(_, _) =>
      case Ping =>
      case Bye =>
      case Unknown =>
    }
  }

  lemma OthersLeaveLoop(p: Peer, e: Event)
    requires !e.Handshakes? && !e.Reads? && !e.FailsToRead?
    ensures Step(p, e).loop == p.loop
  {
    match e {
      case CreatesOffer =>
      case SetsRemoteOffer =>
      case CreatesAnswer =>
      case Gathers =>
    }
  }

  /** In every run: a read is under way exactly from the handshake on, until one fails or a
      message ends the loop; and what was handled is what came meanwhile. */
  lemma {:induction false} ReadsExactly(events: seq<Event>)
    ensures Run(events).loop.started <==> Handshakes in events
    ensures Run(events).loop.outstanding == One(Reading(events))
    ensures Run(events).loop.handled == ReadSoFar(events)
  {
    if events == [] {
    } else {
      var front, e := events[..|events| - 1], events[|events| - 1];
      var p := Run(front);
      ReadsExactly(front);
      SignalingSpec.RunKeeps(front);
      assert forall x :: x in events <==> x in front || x == e;
      match e {
        case Handshakes =>
        case Reads(m) =>
          if Reading(front) { HandleContinues(p, m); }
        case FailsToRead(_) =>
        case CreatesOffer => OthersLeaveLoop(p, e);
        case SetsRemoteOffer => OthersLeaveLoop(p, e);
        case CreatesAnswer => OthersLeaveLoop(p, e);
        case Gathers => OthersLeaveLoop(p, e);
      }
    }
  }

  // Closing

  /** A read that was under way failed, and was not cancelled. */
  predicate ReadFailed(events: seq<Event>) {
    exists k | 0 <= k < |events| :: events[k] == FailsToRead(false) && Reading(events[..k])
  }

  lemma ReadFailedStep(front: seq<Event>, e: Event)
    ensures ReadFailed(front + [e]) <==> ReadFailed(front) || (e == FailsToRead(false) && Reading(front))
  {
    var events := front + [e];
    assert forall k | 0 <= k < |front| :: events[k] == front[k] && events[..k] == front[..k];
    assert events[..|front|] == front && events[|front|] == e;
    if ReadFailed(front) {
      var k :| 0 <= k < |front| && front[k] == FailsToRead(false) && Reading(front[..k]);
      assert events[k] == FailsToRead(false) && Reading(events[..k]);
    }
  }

  lemma HandleCloses(p: Peer, m: Message)
    requires p.loop.outstanding == 1
    ensures Handle(p, m).loop.closing == (p.loop.closing || m == Bye)
  {
    match m {
      case Accept(_) =>
      case OfferMessage(_) =>
      case AnswerMessage(_) =>
      case CandidateMessage(_, _) =>
      case Ping =>
      case Bye =>
      case Unknown =>
    }
  }

  /** In every run the peer begins to close exactly if it read a bye or a read failed for
      another reason than being cancelled. */
  lemma {:induction false} ClosesExactly(events: seq<Event>)
    ensures Run(events).loop.closing <==> Bye in Run(events).loop.handled || ReadFailed(events)
  {
    if events == [] {
    } else {
      var front, e := events[..|events| - 1], events[|events| - 1];
      var p := Run(front);
      assert events == front + [e];
      ClosesExactly(front);
      ReadsExactly(front);
      ReadsExactly(events);
      ReadFailedStep(front, e);
      match e {
        case Handshakes =>
        case Reads(m) =>
          if Reading(front) { HandleCloses(p, m); }
        case FailsToRead(_) =>
        case CreatesOffer => OthersLeaveLoop(p, e);
        case SetsRemoteOffer => OthersLeaveLoop(p, e);
        case CreatesAnswer => OthersLeaveLoop(p, e);
        case Gathers => OthersLeaveLoop(p, e);
      }
    }
  }

  // Posting and applying

  /** What a step of a peer posts. */
  function Says(p: Peer, e: Event): seq<Text> {
    match e
    case Handshakes => if p.loop.started then [] else [Register]
    case Reads(m) => if m == Ping && p.loop.outstanding > 0 then [Pong] else []
    case FailsToRead(_) => []
    case CreatesOffer => if p.connection.Some? && p.connection.value.offersDue > 0 then [OfferText] else []
    case SetsRemoteOffer => []
    case CreatesAnswer => if p.connection.Some? && p.connection.value.answersDue > 0 then [AnswerText] else []
    case Gathers => if p.connection.Some? && p.connection.value.hasLocal then [LocalCandidate] else []
  }

  function SaidSoFar(events: seq<Event>): seq<Text> {
    if events == [] then []
    else SaidSoFar(events[..|events| - 1]) + Says(Run(events[..|events| - 1]), events[|events| - 1])
  }

  /** A candidate that can be applied is read. */
  predicate Applies(p: Peer, e: Event) {
    e == Reads(CandidateMessage(true, true)) && p.loop.outstanding > 0
    && p.connection.Some? && p.connection.value.hasRemote
  }

  function AppliedSoFar(events: seq<Event>): nat {
    if events == [] then 0
    else AppliedSoFar(events[..|events| - 1]) + One(Applies(Run(events[..|events| - 1]), events[|events| - 1]))
  }

  lemma StepSays(p: Peer, e: Event)
    ensures Step(p, e).posted == p.posted + Says(p, e)
    ensures Step(p, e).latch.applied == p.latch.applied + One(Applies(p, e))
  {
    match e {
      case Handshakes =>
      case Reads(m) =>
        match m {
          case Accept(_) =>
          case OfferMessage(_) =>
          case AnswerMessage(_) =>
          case CandidateMessage(_, _) =>
          case Ping =>
          case Bye =>
          case Unknown =>
        }
      case FailsToRead(_) =>
      case CreatesOffer =>
      case SetsRemoteOffer =>
      case CreatesAnswer =>
      case Gathers =>
    }
  }

  /** In every run a peer posted a registration for its handshake, a pong for each ping read, and
      each description and candidate its library made, in that order of events; it is ready
      exactly if some candidate it read could be applied. */
  lemma {:induction false} PostsExactly(events: seq<Event>)
    ensures Run(events).posted == SaidSoFar(events)
    ensures Run(events).latch.applied == AppliedSoFar(events)
    ensures Run(events).latch.ready <==> AppliedSoFar(events) > 0
  {
    SignalingSpec.RunKeeps(events);
    if events == [] {
    } else {
      PostsExactly(events[..|events| - 1]);
      StepSays(Run(events[..|events| - 1]), events[|events| - 1]);
    }
  }
}
