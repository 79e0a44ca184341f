/**
How a negotiation ends. If nothing goes wrong the peers cannot stop half way: they can always
settle, and once neither has anything left to do, one offer and one answer were exchanged and
both are stable. If a candidate overtakes its description, the other peer stops reading.
*/
module NegotiationEnds {
  import opened Wrappers
  import opened SignalingSpec
  import opened Negotiation
  import opened NegotiationRuns

  /** Nothing is on its way from or to the end, and no result of its library is due. */
  predicate Settled(x: End) {
    && x.peer.loop.started && x.up == [] && x.down == []
    && (x.peer.connection.Some? ==>
          var c := x.peer.connection.value; c.offersDue == 0 && c.remoteOffersDue == 0 && c.answersDue == 0)
  }

  predicate Negotiated(p: Peer) {
    p.connection.Some? &&
    var c := p.connection.value; c.state == Stable && c.hasLocal && c.hasRemote
  }

  /** The server forwards what the other library can use, says nothing but pings, and reads do not fail. */
  predicate Benign(e: Negotiation.Event) {
    match e
    case Acts(act) => !act.FailsToRead?
    case Takes => true
    case ServerTakes(_, parses, usable) => parses && usable
    case ServerSays(m) => m.Ping?
  }

  predicate AllBenign(events: seq<(bool, Negotiation.Event)>) { forall k | 0 <= k < |events| :: Benign(events[k].1) }

  predicate BenignMessage(m: Message) {
    match m
    case Accept(_) => true
    case OfferMessage(parses) => parses
    case AnswerMessage(parses) => parses
    case CandidateMessage(parses, usable) => parses && usable
    case Ping => true
    case _ => false
  }

  /** The two ends, the acting one first. */
  function Ends(w: World, atA: bool): (End, End) { if atA then (w.a, w.b) else (w.b, w.a) }

  lemma RunStep(events: seq<(bool, Negotiation.Event)>, atA: bool, e: Negotiation.Event)
    returns (after: seq<(bool, Negotiation.Event)>)
    ensures after == events + [(atA, e)]
    ensures var (x, y) := Ends(RunWorld(events), atA); Ends(RunWorld(after), atA) == StepEnds(x, y, e)
    ensures NoneOvertakes(after) <==> NoneOvertakes(events) && !StepOvertakes(Ends(RunWorld(events), atA).0, e)
    ensures AllBenign(after) <==> AllBenign(events) && Benign(e)
  {
    after := events + [(atA, e)];
    assert after[..|events|] == events;
    assert forall k | 0 <= k < |events| :: after[k] == events[k];
    assert after[|events|].1 == e;
  }

  // Both keep reading

  /** The peer still reads. */
  predicate Reads(p: Peer) { p.loop.outstanding == One(p.loop.started) }

  predicate BenignAhead(x: End) { forall m | m in x.down :: BenignMessage(m) }

  lemma BenignReadRearms(p: Peer, first: bool, m: Message)
    requires PeerOk(p, first) && p.loop.outstanding == 1 && Expected(p, first, m) && BenignMessage(m)
    requires m.CandidateMessage? ==> Descriptions(p.loop.handled) > 0
    ensures Handle(p, m).loop.outstanding == 1 && Handle(p, m).loop.started == p.loop.started
  {
    match m {
      case Accept(_) =>
      case OfferMessage(_) =>
      case AnswerMessage(_) =>
      case CandidateMessage(_, _) =>
      case Ping =>
    }
  }

  lemma ActRearms(p: Peer, e: SignalingSpec.Event)
    requires !e.Reads? && !e.FailsToRead? && Reads(p)
    ensures Reads(Step(p, e))
  {
    match e {
      case Handshakes =>
      case CreatesOffer =>
      case SetsRemoteOffer =>
      case CreatesAnswer =>
      case Gathers =>
    }
  }

  lemma NextIsLed(x: End)
    requires DescriptionLed(Log(x)) && x.down != [] && x.down[0].CandidateMessage?
    ensures Descriptions(x.peer.loop.handled) > 0
  {
    var h := x.peer.loop.handled;
    assert Log(x)[..|h| + 1] == h + [x.down[0]] && (h + [x.down[0]])[..|h|] == h;
    DescriptionLedPrefix(Log(x), |h| + 1);
  }

  lemma TakeKeepsReading(x: End, y: End)
    requires WorldOk(x, y) && DescriptionLed(Log(x)) && BenignAhead(x)
    requires x.down != [] && x.peer.loop.outstanding > 0
    ensures Reads(Handle(x.peer, x.down[0])) && BenignAhead(x.(down := x.down[1..]))
  {
    NextIsExpected(x, y);
    assert x.down[0] in x.down;
    if x.down[0].CandidateMessage? {
      NextIsLed(x);
    }
    BenignReadRearms(x.peer, x.first, x.down[0]);
    assert forall m | m in x.down[1..] :: m in x.down;
  }

  /** The server's own steps, and what the other end does, leave a peer alone. */
  lemma ServerLeavesPeers(x: End, y: End, e: Negotiation.Event)
    ensures e.ServerTakes? || e.ServerSays? ==> StepEnds(x, y, e).0.peer == x.peer
    ensures StepEnds(x, y, e).1.peer == y.peer
  {
  }

  lemma StepKeepsReading(x: End, y: End, e: Negotiation.Event)
    requires WorldOk(x, y) && DescriptionLed(Log(x)) && BenignAhead(x) && Reads(x.peer) && Reads(y.peer) && Benign(e)
    ensures Reads(StepEnds(x, y, e).0.peer) && Reads(StepEnds(x, y, e).1.peer)
  {
    ServerLeavesPeers(x, y, e);
    match e {
      case Acts(act) =>
        if !act.Reads? { ActRearms(x.peer, act); }
      case Takes =>
        if x.down != [] && x.peer.loop.outstanding > 0 { TakeKeepsReading(x, y); }
      case ServerTakes(_, _, _) =>
      case ServerSays(_) =>
    }
  }

  /** What the server puts into the pipes is harmless, overtaking or not. */
  lemma StepKeepsBenign(x: End, y: End, e: Negotiation.Event)
    requires BenignAhead(x) && BenignAhead(y) && Benign(e)
    ensures BenignAhead(StepEnds(x, y, e).0) && BenignAhead(StepEnds(x, y, e).1)
  {
    match e {
      case Acts(_) =>
      case Takes =>
        assert forall m | x.down != [] && m in x.down[1..] :: m in x.down;
      case ServerTakes(i, _, _) =>
        assert i < |x.up| && Negotiates(x.up[i]) ==> BenignMessage(Forwarded(x.up[i], true, true));
      case ServerSays(_) =>
    }
  }

  lemma {:induction false} RunKeepsBenign(events: seq<(bool, Negotiation.Event)>)
    requires AllBenign(events)
    ensures BenignAhead(RunWorld(events).a) && BenignAhead(RunWorld(events).b)
  {
    if events == [] {
    } else {
      var front, last := events[..|events| - 1], |events| - 1;
      assert forall k | 0 <= k < last :: front[k] == events[k];
      RunKeepsBenign(front);
      var (x, y) := Ends(RunWorld(front), events[last].0);
      StepKeepsBenign(x, y, events[last].1);
    }
  }

  lemma {:induction false} RunKeepsReading(events: seq<(bool, Negotiation.Event)>)
    requires NoneOvertakes(events) && AllBenign(events)
    ensures Reads(RunWorld(events).a.peer) && Reads(RunWorld(events).b.peer)
  {
    if events == [] {
    } else {
      var front, last := events[..|events| - 1], |events| - 1;
      assert forall k | 0 <= k < last :: front[k] == events[k];
      NegotiationRuns.RunKeeps(front);
      RunOrdered(front);
      RunKeepsBenign(front);
      RunKeepsReading(front);
      var (x, y) := Ends(RunWorld(front), events[last].0);
      StepKeepsReading(x, y, events[last].1);
    }
  }

  // Where they stop

  /** The first comer `x` answered the offer of `y`. */
  lemma SettledPair(x: End, y: End)
    requires WorldOk(x, y) && Settled(x) && Settled(y) && x.peer.loop.outstanding == 1 && y.peer.loop.outstanding == 1
    requires x.first && !y.first
    ensures Negotiated(x.peer) && Negotiated(y.peer)
    ensures TextTally(y.peer.posted, Offering) == 1 && TextTally(x.peer.posted, Offering) == 0
    ensures TextTally(x.peer.posted, Answering) == 1 && TextTally(y.peer.posted, Answering) == 0
  {
    assert Log(x) == x.peer.loop.handled && Log(y) == y.peer.loop.handled;
    assert TextTally(x.up, Joining) == 0 && TextTally(y.up, Joining) == 0;
  }

  lemma BothJoined(x: End, y: End)
    requires WorldOk(x, y) && Settled(x) && Settled(y)
    ensures x.registered && y.registered && x.first == !y.first
  {
    assert TextTally(x.up, Joining) == 0 && TextTally(y.up, Joining) == 0;
  }

  lemma SettledWorld(w: World)
    requires WorldOk(w.a, w.b) && Settled(w.a) && Settled(w.b) && Reads(w.a.peer) && Reads(w.b.peer)
    ensures OffersSent(w) == 1 && AnswersSent(w) == 1 && Negotiated(w.a.peer) && Negotiated(w.b.peer)
  {
    BothJoined(w.a, w.b);
    if w.a.first {
      SettledPair(w.a, w.b);
    } else {
      SettledPair(w.b, w.a);
    }
  }

  /** In a run without overtaking and without refusals, both peers keep reading; and whenever
      nothing is left to do, exactly one offer and one answer were sent and both peers are
      stable with both descriptions. */
  lemma {:induction false} NegotiationCompletes(events: seq<(bool, Negotiation.Event)>)
    requires NoneOvertakes(events) && AllBenign(events)
    ensures var w := RunWorld(events);
            && Reads(w.a.peer) && Reads(w.b.peer)
            && (Settled(w.a) && Settled(w.b) ==>
                  OffersSent(w) == 1 && AnswersSent(w) == 1 && Negotiated(w.a.peer) && Negotiated(w.b.peer))
  {
    NegotiationRuns.RunKeeps(events);
    RunKeepsReading(events);
    var w := RunWorld(events);
    if Settled(w.a) && Settled(w.b) {
      SettledWorld(w);
    }
  }

  // They can always get there

  /** Upper bounds on the steps that a text, a message and the due results still cause. */
  function TextWork(t: Text): nat {
    match t
    case Register => 9
    case OfferText => 6
    case AnswerText => 2
    case LocalCandidate => 2
    case Pong => 1
  }

  function MessageWork(m: Message): nat {
    match m
    case Accept(_) => 8
    case OfferMessage(_) => 5
    case Ping => 2
    case _ => 1
  }

  function LibraryWork(c: Option<Connection>): nat {
    match c
    case None => 0
    case Some(c) => 7 * c.offersDue + 4 * c.remoteOffersDue + 3 * c.answersDue
  }

  function TextsWork(up: seq<Text>): nat { if up == [] then 0 else TextWork(up[0]) + TextsWork(up[1..]) }

  function MessagesWork(down: seq<Message>): nat {
    if down == [] then 0 else MessageWork(down[0]) + MessagesWork(down[1..])
  }

  function PeerWork(p: Peer): nat { (if p.loop.started then 0 else 10) + LibraryWork(p.connection) }

  function Work(x: End): nat { PeerWork(x.peer) + TextsWork(x.up) + MessagesWork(x.down) }

  lemma {:induction false} TextsWorkAppend(up: seq<Text>, t: Text)
    ensures TextsWork(up + [t]) == TextsWork(up) + TextWork(t)
  {
    if up == [] {
      assert [t][1..] == [];
    } else {
      assert (up + [t])[1..] == up[1..] + [t];
      TextsWorkAppend(up[1..], t);
    }
  }

  lemma {:induction false} MessagesWorkAppend(down: seq<Message>, m: Message)
    ensures MessagesWork(down + [m]) == MessagesWork(down) + MessageWork(m)
  {
    if down == [] {
      assert [m][1..] == [];
    } else {
      assert (down + [m])[1..] == down[1..] + [m];
      MessagesWorkAppend(down[1..], m);
    }
  }

  /** A peer that posts `t` and gives up more work than `t` makes. */
  lemma PostingWorks(x: End, p: Peer, t: Text)
    requires p.posted == x.peer.posted + [t] && PeerWork(p) + TextWork(t) < PeerWork(x.peer)
    ensures Work(Advanced(x, p)) < Work(x)
  {
    assert p.posted[|x.peer.posted|..] == [t];
    TextsWorkAppend(x.up, t);
  }

  lemma SilentWorks(x: End, p: Peer)
    requires p.posted == x.peer.posted && PeerWork(p) < PeerWork(x.peer)
    ensures Work(Advanced(x, p)) < Work(x)
  {
    assert x.up + p.posted[|x.peer.posted|..] == x.up;
  }

  lemma LibraryWorks(x: End, c: Connection) returns (e: SignalingSpec.Event)
    requires x.peer.connection == Some(c) && (c.offersDue > 0 || c.remoteOffersDue > 0 || c.answersDue > 0)
    ensures !e.Reads? && !e.FailsToRead? && Work(Advanced(x, Step(x.peer, e))) < Work(x)
  {
    if c.offersDue > 0 {
      e := CreatesOffer;
      PostingWorks(x, Step(x.peer, e), OfferText);
    } else if c.remoteOffersDue > 0 {
      e := SetsRemoteOffer;
      SilentWorks(x, Step(x.peer, e));
    } else {
      e := CreatesAnswer;
      PostingWorks(x, Step(x.peer, e), AnswerText);
    }
  }

  lemma HandlingWorks(p: Peer, m: Message)
    requires p.loop.outstanding > 0
    ensures PeerWork(Handle(p, m)) + (if m.Ping? then 1 else 0) < PeerWork(p) + MessageWork(m)
    ensures Handle(p, m).posted == p.posted + if m.Ping? then [Pong] else []
  {
  }

  lemma TakeWorks(x: End)
    requires x.down != [] && x.peer.loop.outstanding > 0
    ensures Work(Advanced(x.(down := x.down[1..]), Handle(x.peer, x.down[0]))) < Work(x)
  {
    var p := Handle(x.peer, x.down[0]);
    HandlingWorks(x.peer, x.down[0]);
    TextsWorkAppend(x.up, Pong);
    assert p.posted[|x.peer.posted|..] == if x.down[0].Ping? then [Pong] else [];
    assert x.up + [] == x.up;
  }

  lemma ServerWorks(x: End, y: End)
    requires x.up != []
    ensures var (x', y') := ServerStep(x, y, 0, true, true); Work(x') + Work(y') < Work(x) + Work(y)
  {
    var t := x.up[0];
    assert Without(x.up, 0) == x.up[1..];
    if t == Register {
      MessagesWorkAppend(x.down, Accept(y.registered));
    } else if Negotiates(t) && y.registered {
      MessagesWorkAppend(y.down, Forwarded(t, true, true));
    }
  }

  /** Where something is left to do, there is a harmless step that does some of it. */
  lemma SomeStepWorks(x: End, y: End) returns (e: Negotiation.Event)
    requires Reads(x.peer) && !Settled(x)
    ensures Benign(e) && !StepOvertakes(x, e)
    ensures Work(StepEnds(x, y, e).0) + Work(StepEnds(x, y, e).1) < Work(x) + Work(y)
  {
    if !x.peer.loop.started {
      e := Acts(Handshakes);
      PostingWorks(x, Step(x.peer, Handshakes), Register);
    } else if x.up != [] {
      e := ServerTakes(0, true, true);
      ServerWorks(x, y);
    } else if x.down != [] {
      e := Takes;
      TakeWorks(x);
    } else {
      var act := LibraryWorks(x, x.peer.connection.value);
      e := Acts(act);
    }
  }

  function TotalWork(w: World): nat { Work(w.a) + Work(w.b) }

  predicate BothSettled(w: World) { Settled(w.a) && Settled(w.b) }

  /** A benign run without overtaking. */
  predicate Fair(events: seq<(bool, Negotiation.Event)>) { NoneOvertakes(events) && AllBenign(events) }

  predicate Settles(events: seq<(bool, Negotiation.Event)>) { Fair(events) && BothSettled(RunWorld(events)) }

  lemma {:induction false} SettlingStep(events: seq<(bool, Negotiation.Event)>)
    returns (next: seq<(bool, Negotiation.Event)>)
    requires Fair(events) && !Settles(events)
    ensures events <= next && Fair(next) && TotalWork(RunWorld(next)) < TotalWork(RunWorld(events))
  {
    RunKeepsReading(events);
    var w := RunWorld(events);
    var atA := !Settled(w.a);
    var (x, y) := Ends(w, atA);
    var e := SomeStepWorks(x, y);
    next := RunStep(events, atA, e);
  }

  /** Every benign run without overtaking has such a continuation that settles; by
      `NegotiationCompletes` both peers have then negotiated. */
  lemma {:induction false} NegotiationCanSettle(events: seq<(bool, Negotiation.Event)>)
    returns (run: seq<(bool, Negotiation.Event)>)
    requires Fair(events)
    ensures events <= run && Settles(run)
    decreases TotalWork(RunWorld(events))
  {
    if Settles(events) {
      run := events;
    } else {
      var next := SettlingStep(events);
      run := NegotiationCanSettle(next);
    }
  }

  // Overtaking is exactly what goes wrong

  /** The k-th message ahead is a candidate that `y` will read before any description. */
  predicate Stalls(y: End, k: nat) {
    && k < |y.down| && y.down[k] == CandidateMessage(true, true)
    && (forall j | 0 <= j < k :: y.down[j].Ping? || y.down[j].Accept?)
    && y.peer.loop.started && y.peer.loop.outstanding == 1
    && (match y.peer.connection
        case None => exists j | 0 <= j < k :: y.down[j].Accept?
        case Some(c) => !c.hasRemote)
  }

  predicate Doomed(y: End) { y.peer.faults.early || exists k | 0 <= k < |y.down| :: Stalls(y, k) }

  lemma {:induction false} OnlyAccepts(s: seq<Message>)
    requires DescriptionLed(s) && Descriptions(s) == 0
    ensures forall m | m in s :: SortOf(m) == Joining || SortOf(m) == Other
  {
    if s == [] {
    } else {
      OnlyAccepts(s[..|s| - 1]);
    }
  }

  lemma {:induction false} AcceptSomewhere(s: seq<Message>)
    requires Tally(s, Joining) > 0
    ensures exists j | 0 <= j < |s| :: s[j].Accept?
  {
    var last := |s| - 1;
    if s[last].Accept? {
    } else {
      AcceptSomewhere(s[..last]);
      var j :| 0 <= j < last && s[..last][j].Accept?;
      assert s[j].Accept?;
    }
  }

  lemma {:induction false} TallyConcat(s: seq<Message>, t: seq<Message>, k: Sort)
    ensures Tally(s + t, k) == Tally(s, k) + Tally(t, k)
  {
    if t == [] {
      assert s + t == s;
    } else {
      var last := |t| - 1;
      TallyConcat(s, t[..last], k);
      assert (s + t)[..|s + t| - 1] == s + t[..last];
    }
  }

  /** A peer that was sent no description has none, and its accept is behind or ahead of it. */
  lemma NotDescribed(x: End)
    requires EndOk(x) && x.registered && x.peer.loop.outstanding == 1 && Descriptions(Log(x)) == 0
    ensures x.peer.connection.Some? ==> !x.peer.connection.value.hasRemote
    ensures x.peer.connection.None? ==> Tally(x.down, Joining) > 0
  {
    HandledIsLogged(x);
    TallyConcat(x.peer.loop.handled, x.down, Joining);
  }

  lemma StallsBehind(y: End)
    requires y.peer.loop.started && y.peer.loop.outstanding == 1
    requires forall m | m in y.down :: m.Ping? || m.Accept?
    requires y.peer.connection.Some? ==> !y.peer.connection.value.hasRemote
    requires y.peer.connection.None? ==> Tally(y.down, Joining) > 0
    ensures Doomed(y.(down := y.down + [CandidateMessage(true, true)]))
  {
    if y.peer.connection.None? {
      AcceptSomewhere(y.down);
    }
    var z := y.(down := y.down + [CandidateMessage(true, true)]);
    assert forall k | 0 <= k < |y.down| :: y.down[k] in y.down && z.down[k] == y.down[k];
    assert Stalls(z, |y.down|);
  }

  lemma NothingButPings(y: End)
    requires DescriptionLed(Log(y)) && Descriptions(Log(y)) == 0 && BenignAhead(y)
    ensures forall m | m in y.down :: m.Ping? || m.Accept?
  {
    OnlyAccepts(Log(y));
    assert forall m | m in y.down :: m in Log(y);
  }

  lemma OvertakenIsDoomed(x: End, y: End, e: Negotiation.Event)
    requires WorldOk(x, y) && DescriptionLed(Log(y)) && StepOvertakes(x, e) && Benign(e)
    requires Reads(y.peer) && BenignAhead(y)
    ensures Doomed(StepEnds(x, y, e).1)
  {
    var j :| 0 <= j < e.i && Describes(x.up[j]);
    NoDescriptionYet(x, y, j);
    ForwardReaches(x, y, e.i);
    NothingButPings(y);
    NotDescribed(y);
    StallsBehind(y);
  }

  /** More messages behind it do not save a doomed peer, nor does anything it does itself. */
  lemma LongerStalls(y: End, z: End, k: nat)
    requires Stalls(y, k) && z.peer == y.peer && y.down <= z.down
    ensures Stalls(z, k)
  {
    assert forall j | 0 <= j <= k :: z.down[j] == y.down[j];
  }

  lemma ActStalls(y: End, e: SignalingSpec.Event, k: nat)
    requires Stalls(y, k) && !e.Reads? && !e.FailsToRead?
    ensures Stalls(Advanced(y, Step(y.peer, e)), k)
  {
    match e {
      case Handshakes =>
      case CreatesOffer =>
      case SetsRemoteOffer =>
      case CreatesAnswer =>
      case Gathers =>
    }
  }

  lemma TakeStalls(y: End, k: nat)
    requires Stalls(y, k)
    ensures Doomed(Advanced(y.(down := y.down[1..]), Handle(y.peer, y.down[0])))
  {
    if k > 0 {
      var z := Advanced(y.(down := y.down[1..]), Handle(y.peer, y.down[0]));
      assert forall j | 0 <= j < k :: z.down[j] == y.down[j + 1];
      if z.peer.connection.None? {
        var j :| 0 <= j < k && y.down[j].Accept?;
        assert z.down[j - 1].Accept?;
      }
      assert Stalls(z, k - 1);
    }
  }

  lemma EarlyStays(x: End, y: End, e: Negotiation.Event)
    ensures x.peer.faults.early ==> StepEnds(x, y, e).0.peer.faults.early
  {
  }

  lemma StepStaysDoomed(x: End, y: End, e: Negotiation.Event)
    requires Benign(e)
    ensures Doomed(x) ==> Doomed(StepEnds(x, y, e).0)
    ensures Doomed(y) ==> Doomed(StepEnds(x, y, e).1)
  {
    EarlyStays(x, y, e);
    ServerLeavesPeers(x, y, e);
    var (x', y') := StepEnds(x, y, e);
    if !y.peer.faults.early && Doomed(y) {
      var k :| 0 <= k < |y.down| && Stalls(y, k);
      LongerStalls(y, y', k);
    }
    if !x.peer.faults.early && Doomed(x) {
      var k :| 0 <= k < |x.down| && Stalls(x, k);
      match e {
        case Acts(act) =>
          if !act.Reads? { ActStalls(x, act, k); }
        case Takes => TakeStalls(x, k);
        case ServerTakes(_, _, _) => LongerStalls(x, x', k);
        case ServerSays(_) => LongerStalls(x, x', k);
      }
    }
  }

  lemma {:induction false} OvertakingDooms(events: seq<(bool, Negotiation.Event)>)
    requires AllBenign(events) && !NoneOvertakes(events)
    ensures Doomed(RunWorld(events).a) || Doomed(RunWorld(events).b)
  {
    var front, last := events[..|events| - 1], |events| - 1;
    var (atA, e) := events[last];
    assert forall k | 0 <= k < last :: front[k] == events[k];
    var (x, y) := Ends(RunWorld(front), atA);
    if !NoneOvertakes(front) {
      OvertakingDooms(front);
      StepStaysDoomed(x, y, e);
    } else {
      NegotiationRuns.RunKeeps(front);
      RunOrdered(front);
      RunKeepsReading(front);
      RunKeepsBenign(front);
      OvertakenIsDoomed(x, y, e);
    }
  }

  /** The peer read everything it was sent, or reads no more. */
  predicate Drained(x: End) { x.down == [] || x.peer.loop.outstanding == 0 }

  /** In a benign run whose peers read all they will ever read of what was sent, something goes
      wrong if and only if a candidate overtook a description. */
  lemma {:induction false} FaultlessExactly(events: seq<(bool, Negotiation.Event)>)
    requires AllBenign(events) && Drained(RunWorld(events).a) && Drained(RunWorld(events).b)
    ensures Faultless(RunWorld(events).a.peer) && Faultless(RunWorld(events).b.peer) <==> NoneOvertakes(events)
  {
    if NoneOvertakes(events) {
      OrderIsFaultless(events);
    } else {
      OvertakingDooms(events);
    }
  }

  /** Already outside benign runs, an overtaking candidate that parses is refused by a peer that
      has read everything before it, and ends that peer's read loop. */
  lemma OvertakerStopsReading(x: End, y: End, i: nat, usable: bool)
    requires WorldOk(x, y) && Overtakes(x.up, i)
    requires y.down == [] && y.peer.loop.outstanding == 1
    ensures var z := StepEnds(x, y, ServerTakes(i, true, usable)).1;
            z.down == [CandidateMessage(true, usable)]
            && Handle(z.peer, z.down[0]).faults.early
            && Handle(z.peer, z.down[0]).loop.outstanding == 0
  {
    var j :| 0 <= j < i && Describes(x.up[j]);
    ForwardReaches(x, y, i);
    NoDescriptionYet(x, y, j);
    NotDescribed(y);
  }

  // It cannot be repaired

  lemma ServerKeepsRank(x: End, y: End, i: nat, parses: bool, usable: bool)
    requires PostsOk(x) && i < |x.up|
    ensures var (x', y') := ServerStep(x, y, i, parses, usable);
            && (x.registered ==> x'.registered && x'.first == x.first)
            && y'.registered == y.registered && y'.first == y.first
  {
    if x.up[i] == Register {
      JoinKeepsPosts(x, i);
    }
  }

  lemma StepKeepsRank(x: End, y: End, e: Negotiation.Event)
    requires PostsOk(x)
    ensures x.registered ==> StepEnds(x, y, e).0.registered && StepEnds(x, y, e).0.first == x.first
    ensures StepEnds(x, y, e).1.registered == y.registered && StepEnds(x, y, e).1.first == y.first
  {
    if e.ServerTakes? && e.i < |x.up| {
      ServerKeepsRank(x, y, e.i, e.parses, e.usable);
    }
  }

  /** What later steps leave of an end. */
  predicate Persists(x: End, z: End) {
    && (x.peer.faults.early ==> z.peer.faults.early)
    && (x.registered ==> z.registered && z.first == x.first)
  }

  lemma StepPersists(x: End, y: End, e: Negotiation.Event)
    requires WorldOk(x, y)
    ensures Persists(x, StepEnds(x, y, e).0) && Persists(y, StepEnds(x, y, e).1)
  {
    EarlyStays(x, y, e);
    ServerLeavesPeers(x, y, e);
    StepKeepsRank(x, y, e);
  }

  lemma {:induction false} NextPersists(events: seq<(bool, Negotiation.Event)>, atA: bool, e: Negotiation.Event)
    ensures Persists(RunWorld(events).a, RunWorld(events + [(atA, e)]).a)
    ensures Persists(RunWorld(events).b, RunWorld(events + [(atA, e)]).b)
  {
    NegotiationRuns.RunKeeps(events);
    var after := RunStep(events, atA, e);
    var (x, y) := Ends(RunWorld(events), atA);
    StepPersists(x, y, e);
  }

  lemma {:induction false} RunPersists(events: seq<(bool, Negotiation.Event)>, more: seq<(bool, Negotiation.Event)>)
    ensures Persists(RunWorld(events).a, RunWorld(events + more).a)
    ensures Persists(RunWorld(events).b, RunWorld(events + more).b)
    decreases |more|
  {
    if more == [] {
      assert events + more == events;
    } else {
      var last := |more| - 1;
      RunPersists(events, more[..last]);
      NextPersists(events + more[..last], more[last].0, more[last].1);
      assert events + more == events + more[..last] + [(more[last].0, more[last].1)];
    }
  }

  lemma EndDescribed(x: End, y: End, e: Negotiation.Event)
    requires DescribedOk(x.peer)
    ensures DescribedOk(StepEnds(x, y, e).0.peer)
  {
    ServerLeavesPeers(x, y, e);
    match e {
      case Acts(act) => StepKeepsDescribed(x.peer, act);
      case Takes =>
        if x.down != [] { HandleKeepsDescribed(x.peer, x.down[0]); }
      case ServerTakes(_, _, _) =>
      case ServerSays(_) =>
    }
  }

  lemma {:induction false} RunDescribed(events: seq<(bool, Negotiation.Event)>)
    ensures DescribedOk(RunWorld(events).a.peer) && DescribedOk(RunWorld(events).b.peer)
  {
    if events == [] {
    } else {
      var front, last := events[..|events| - 1], |events| - 1;
      RunDescribed(front);
      var (x, y) := Ends(RunWorld(front), events[last].0);
      EndDescribed(x, y, events[last].1);
      ServerLeavesPeers(x, y, events[last].1);
    }
  }

  lemma {:induction false} UndescribedLog(h: seq<Message>)
    requires Descriptions(h) == 0
    ensures !WasDescribed(h)
  {
    if h == [] {
    } else {
      var last := |h| - 1;
      UndescribedLog(h[..last]);
      assert h == h[..last] + [h[last]];
      WasDescribedAppend(h[..last], h[last]);
    }
  }

  lemma HandledAppendsNothing(h: seq<Message>)
    requires EarlyCandidate(h)
    ensures Descriptions(h) == 0
  {
    assert h == h[..|h| - 1] + [h[|h| - 1]];
    TallyAppend(h[..|h| - 1], h[|h| - 1]);
  }

  /** A peer that refused an early candidate reads nothing more, never gets a remote description,
      never becomes ready and never answers, whatever follows; if it came first, no answer is
      ever sent at all. */
  lemma {:induction false} EarlyIsFinal(events: seq<(bool, Negotiation.Event)>, more: seq<(bool, Negotiation.Event)>,
                                        atA: bool)
    requires Ends(RunWorld(events), atA).0.peer.faults.early
    ensures var x, w := Ends(RunWorld(events), atA).0, RunWorld(events + more);
            var p := Ends(w, atA).0.peer;
            && p.faults.early && p.loop.outstanding == 0 && !Negotiated(p)
            && !p.latch.ready && !WasDescribed(p.loop.handled)
            && (p.connection.Some? ==> !p.connection.value.hasRemote)
            && TextTally(p.posted, Answering) == 0
            && (x.registered && x.first ==> AnswersSent(w) == 0)
  {
    RunPersists(events, more);
    NegotiationRuns.RunKeeps(events + more);
    var (x, y) := Ends(RunWorld(events + more), atA);
    HandledAppendsNothing(x.peer.loop.handled);
    UndescribedLog(x.peer.loop.handled);
    RunDescribed(events + more);
    HandledIsLogged(y);
  }

  // A run that goes wrong

  /** An end that joined and read its accept. */
  predicate Joined(x: End, first: bool) {
    && x.registered && x.first == first && x.up == [] && x.down == [] && x.peer.posted == [Register]
    && x.peer.loop == Loop(true, 1, false, [Accept(!first)])
    && x.peer.connection == Some(Connection(Stable, false, false, if first then 0 else 1, 0, 0))
    && !x.peer.faults.early
  }

  lemma JoinEnds(x: End, y: End)
    requires x == End(NewPeer(), [], [], false, false)
    ensures var r := StepEnds(StepEnds(StepEnds(x, y, Acts(Handshakes)).0, y, ServerTakes(0, true, true)).0, y, Takes);
            Joined(r.0, !y.registered) && r.1 == y
    ensures StepEnds(x, y, Acts(Handshakes)).1 == y
    ensures StepEnds(StepEnds(x, y, Acts(Handshakes)).0, y, ServerTakes(0, true, true)).1 == y
  {
    var one := StepEnds(x, y, Acts(Handshakes)).0;
    assert one.up == [Register] && one.down == [];
    var two := StepEnds(one, y, ServerTakes(0, true, true)).0;
    assert two.up == [] && two.down == [Accept(y.registered)];
  }

  /** An end opens its connection to the server, is registered, and reads its accept. */
  lemma {:induction false} JoinRun(events: seq<(bool, Negotiation.Event)>, atA: bool)
    returns (after: seq<(bool, Negotiation.Event)>)
    requires Ends(RunWorld(events), atA).0 == End(NewPeer(), [], [], false, false)
    ensures var (x, y) := Ends(RunWorld(after), atA); y == Ends(RunWorld(events), atA).1 && Joined(x, !y.registered)
  {
    var (x, y) := Ends(RunWorld(events), atA);
    JoinEnds(x, y);
    after := RunStep(events, atA, Acts(Handshakes));
    after := RunStep(after, atA, ServerTakes(0, true, true));
    after := RunStep(after, atA, Takes);
  }

  /** B's candidate passes B's offer on its way to the server. */
  lemma PassingEnds(x: End, y: End)
    requires Joined(x, false) && Joined(y, true)
    ensures var offered := StepEnds(x, y, Acts(CreatesOffer));
            var gathered := StepEnds(offered.0, y, Acts(Gathers));
            var passed := StepEnds(gathered.0, y, ServerTakes(1, true, true));
            var read := StepEnds(passed.1, passed.0, Takes).0;
            && offered.1 == y && gathered.1 == y && Overtakes(gathered.0.up, 1)
            && read.peer.faults.early && read.registered && read.first
            && passed.0.peer.posted == [Register, OfferText, LocalCandidate]
  {
    var offered := StepEnds(x, y, Acts(CreatesOffer)).0;
    assert offered.up == [OfferText];
    var gathered := StepEnds(offered, y, Acts(Gathers)).0;
    assert gathered.up == [OfferText, LocalCandidate] && Describes(gathered.up[0]);
    var passed := StepEnds(gathered, y, ServerTakes(1, true, true));
    assert passed.1.down == [CandidateMessage(true, true)];
  }

  lemma {:induction false} PassingRun() returns (events: seq<(bool, Negotiation.Event)>)
    ensures var w := RunWorld(events);
            && w.a.peer.faults.early && w.a.registered && w.a.first
            && w.b.peer.posted == [Register, OfferText, LocalCandidate]
  {
    events := JoinRun([], true);
    events := JoinRun(events, false);
    var w := RunWorld(events);
    PassingEnds(w.b, w.a);
    events := RunStep(events, false, Acts(CreatesOffer));
    events := RunStep(events, false, Acts(Gathers));
    events := RunStep(events, false, ServerTakes(1, true, true));
    events := RunStep(events, true, Takes);
  }

  lemma OfferCounts(w: World)
    requires w.b.peer.posted == [Register, OfferText, LocalCandidate]
    ensures OffersSent(w) >= 1
  {
    TextTallyAppend([Register, OfferText], LocalCandidate);
    TextTallyAppend([Register], OfferText);
    assert w.b.peer.posted == [Register, OfferText] + [LocalCandidate];
    assert [Register, OfferText] == [Register] + [OfferText];
  }

  /** A run in which a posted text overtakes another: A refuses B's candidate and stops
      reading, and B's offer, already posted, is never answered, whatever follows. */
  lemma {:induction false} OvertakingRun() returns (events: seq<(bool, Negotiation.Event)>)
    ensures !NoneOvertakes(events)
    ensures var w := RunWorld(events); w.a.peer.faults.early && OffersSent(w) == 1
    ensures forall more :: AnswersSent(RunWorld(events + more)) == 0
  {
    events := PassingRun();
    NegotiationSafe(events);
    OfferCounts(RunWorld(events));
    if NoneOvertakes(events) {
      OrderIsFaultless(events);
    }
    forall more
      ensures AnswersSent(RunWorld(events + more)) == 0
    {
      EarlyIsFinal(events, more, true);
    }
  }
}
