/**
Two signalling peers in one room of the server, step by step: the server takes each peer's
texts in whatever order they reach it, answers registrations, and forwards descriptions and
candidates to the other peer; everything else is arbitrary interleaving.
*/
module Negotiation {
  import opened Wrappers
  import opened SignalingSpec

  /** A peer with its two pipes: `up` to the server, `down` from it. `registered`, `first`:
      whether the server has it in the room, and whether the room was empty then. */
  datatype End = End(peer: Peer, up: seq<Text>, down: seq<Message>, registered: bool, first: bool)

  datatype World = World(a: End, b: End)

  /** `Acts`: the peer does something of its own. `Takes`: it reads the next message.
      `ServerTakes`: the server handles the i-th text under way to it; `parses` and `usable`
      say what the other peer's library will make of it. `ServerSays`: a ping, a bye or
      anything unknown. */
  datatype Event =
    | Acts(e: SignalingSpec.Event)
    | Takes
    | ServerTakes(i: nat, parses: bool, usable: bool)
    | ServerSays(m: Message)

  function Advanced(x: End, p: Peer): End {
    if |x.peer.posted| <= |p.posted| then x.(peer := p, up := x.up + p.posted[|x.peer.posted|..]) else x.(peer := p)
  }

  function Forwarded(t: Text, parses: bool, usable: bool): Message {
    match t
    case OfferText => OfferMessage(parses)
    case AnswerText => AnswerMessage(parses)
    case LocalCandidate => CandidateMessage(parses, usable)
    case _ => Unknown
  }

  predicate Describes(t: Text) { t.OfferText? || t.AnswerText? }

  predicate Negotiates(t: Text) { Describes(t) || t.LocalCandidate? }

  function Without(s: seq<Text>, i: nat): seq<Text>
    requires i < |s|
  {
    s[..i] + s[i + 1..]
  }

  function ServerStep(me: End, other: End, i: nat, parses: bool, usable: bool): (End, End)
    requires i < |me.up|
  {
    var t, sent := me.up[i], me.(up := Without(me.up, i));
    if t == Register then
      (sent.(registered := true, first := !other.registered, down := sent.down + [Accept(other.registered)]), other)
    else if Negotiates(t) && other.registered then
      (sent, other.(down := other.down + [Forwarded(t, parses, usable)]))
    else (sent, other)
  }

  function StepEnds(me: End, other: End, e: Event): (End, End) {
    match e
    case Acts(act) => if act.Reads? then (me, other) else (Advanced(me, Step(me.peer, act)), other)
    case Takes =>
      if me.down == [] || me.peer.loop.outstanding == 0 then (me, other)
      else (Advanced(me.(down := me.down[1..]), Handle(me.peer, me.down[0])), other)
    case ServerTakes(i, parses, usable) =>
      if i < |me.up| then ServerStep(me, other, i, parses, usable) else (me, other)
    case ServerSays(m) =>
      if m.Ping? || m.Bye? || m.Unknown? then (me.(down := me.down + [m]), other) else (me, other)
  }

  function StepWorld(w: World, atA: bool, e: Event): World {
    if atA then
      var (a, b) := StepEnds(w.a, w.b, e);
      World(a, b)
    else
      var (b, a) := StepEnds(w.b, w.a, e);
      World(a, b)
  }

  function NewWorld(): World {
    World(End(NewPeer(), [], [], false, false), End(NewPeer(), [], [], false, false))
  }

  function RunWorld(events: seq<(bool, Event)>): World {
    if events == [] then NewWorld()
    else StepWorld(RunWorld(events[..|events| - 1]), events[|events| - 1].0, events[|events| - 1].1)
  }

  /** The i-th text under way is a candidate, and a description posted before it is still behind. */
  predicate Overtakes(up: seq<Text>, i: nat) {
    i < |up| && up[i] == LocalCandidate && exists j | 0 <= j < i :: Describes(up[j])
  }

  /** `SendText` posts without naming an executor, so texts may overtake each other. In these
      runs they may, except that no candidate overtakes a description of its own peer. */
  predicate NoneOvertakes(events: seq<(bool, Event)>) {
    events == [] ||
    var front := events[..|events| - 1];
    var (atA, e) := events[|events| - 1];
    && NoneOvertakes(front)
    && (e.ServerTakes? ==> !Overtakes((if atA then RunWorld(front).a else RunWorld(front).b).up, e.i))
  }

  // Counting

  datatype Sort = Joining | Offering | Answering | Trickling | Other

  function SortOf(m: Message): Sort {
    match m
    case Accept(_) => Joining
    case OfferMessage(_) => Offering
    case AnswerMessage(_) => Answering
    case CandidateMessage(_, _) => Trickling
    case _ => Other
  }

  function SortOfText(t: Text): Sort {
    match t
    case Register => Joining
    case OfferText => Offering
    case AnswerText => Answering
    case LocalCandidate => Trickling
    case _ => Other
  }

  function Tally(s: seq<Message>, k: Sort): nat {
    if s == [] then 0 else Tally(s[..|s| - 1], k) + One(SortOf(s[|s| - 1]) == k)
  }

  function TextTally(s: seq<Text>, k: Sort): nat {
    if s == [] then 0 else TextTally(s[..|s| - 1], k) + One(SortOfText(s[|s| - 1]) == k)
  }

  lemma TallyAppend(s: seq<Message>, m: Message)
    ensures forall k :: Tally(s + [m], k) == Tally(s, k) + One(SortOf(m) == k)
  {
    assert (s + [m])[..|s|] == s;
  }

  lemma TextTallyAppend(s: seq<Text>, t: Text)
    ensures forall k :: TextTally(s + [t], k) == TextTally(s, k) + One(SortOfText(t) == k)
  {
    assert (s + [t])[..|s|] == s;
  }

  lemma {:induction false} TextTallyWithout(s: seq<Text>, i: nat)
    requires i < |s|
    ensures forall k :: TextTally(s, k) == TextTally(Without(s, i), k) + One(SortOfText(s[i]) == k)
  {
    var last := |s| - 1;
    if i < last {
      TextTallyWithout(s[..last], i);
      TextTallyAppend(Without(s[..last], i), s[last]);
      assert Without(s, i) == Without(s[..last], i) + [s[last]];
    } else {
      assert Without(s, i) == s[..last];
    }
  }

  lemma {:induction false} TallyPrefix(s: seq<Message>, n: nat)
    requires n <= |s|
    ensures forall k :: Tally(s[..n], k) <= Tally(s, k)
  {
    if n < |s| {
      TallyPrefix(s[..|s| - 1], n);
      assert s[..|s| - 1][..n] == s[..n];
    } else {
      assert s[..n] == s;
    }
  }

  function Descriptions(s: seq<Message>): nat { Tally(s, Offering) + Tally(s, Answering) }

  function Described(s: seq<Text>): nat { TextTally(s, Offering) + TextTally(s, Answering) }

  /** Everything the server ever sent this peer. */
  function Log(x: End): seq<Message> { x.peer.loop.handled + x.down }

  /** In a log, an accept comes before anything of the negotiation. */
  predicate AcceptLed(s: seq<Message>) {
    s == [] ||
    var front, last := s[..|s| - 1], SortOf(s[|s| - 1]);
    AcceptLed(front) && (last == Offering || last == Answering || last == Trickling ==> Tally(front, Joining) > 0)
  }

  /** In a log, a description comes before candidates. */
  predicate DescriptionLed(s: seq<Message>) {
    s == [] ||
    var front, last := s[..|s| - 1], SortOf(s[|s| - 1]);
    DescriptionLed(front) && (last == Trickling ==> Descriptions(front) > 0)
  }

  lemma {:induction false} AcceptLedPrefix(s: seq<Message>, n: nat)
    requires AcceptLed(s) && n <= |s|
    ensures AcceptLed(s[..n])
  {
    if n < |s| {
      AcceptLedPrefix(s[..|s| - 1], n);
      assert s[..|s| - 1][..n] == s[..n];
    } else {
      assert s[..n] == s;
    }
  }

  lemma {:induction false} DescriptionLedPrefix(s: seq<Message>, n: nat)
    requires DescriptionLed(s) && n <= |s|
    ensures DescriptionLed(s[..n])
  {
    if n < |s| {
      DescriptionLedPrefix(s[..|s| - 1], n);
      assert s[..|s| - 1][..n] == s[..n];
    } else {
      assert s[..n] == s;
    }
  }

  /** Among texts under way, no candidate comes before the first description. */
  predicate NoEarlyCandidate(up: seq<Text>) {
    up == [] || Describes(up[0]) || (up[0] != LocalCandidate && NoEarlyCandidate(up[1..]))
  }

  lemma {:induction false} NoEarlyCandidateAppend(up: seq<Text>, t: Text)
    requires NoEarlyCandidate(up) && (t == LocalCandidate ==> exists i | 0 <= i < |up| :: Describes(up[i]))
    ensures NoEarlyCandidate(up + [t])
  {
    if up == [] || Describes(up[0]) {
    } else {
      assert (up + [t])[1..] == up[1..] + [t];
      NoEarlyCandidateAppend(up[1..], t);
    }
  }

  lemma {:induction false} NoEarlyCandidateMeans(up: seq<Text>, i: nat)
    requires NoEarlyCandidate(up) && i < |up| && up[i] == LocalCandidate
    ensures Overtakes(up, i)
  {
    if Describes(up[0]) {
      assert i > 0;
    } else {
      NoEarlyCandidateMeans(up[1..], i - 1);
      var j :| 0 <= j < i - 1 && Describes(up[1..][j]);
      assert Describes(up[j + 1]);
    }
  }

  lemma {:induction false} NoEarlyCandidateWithout(up: seq<Text>, i: nat)
    requires NoEarlyCandidate(up) && i < |up| && !Negotiates(up[i])
    ensures NoEarlyCandidate(Without(up, i))
  {
    if i == 0 {
      assert Without(up, 0) == up[1..];
    } else if !Describes(up[0]) {
      NoEarlyCandidateWithout(up[1..], i - 1);
      assert Without(up, i)[1..] == Without(up[1..], i - 1);
    }
  }

  // What a peer keeps, given what the server sends

  /** The peer that found the room empty answers. */
  predicate Answerer(c: Connection, answers: nat, handled: seq<Message>, reading: bool) {
    && c.offersDue == 0
    && c.remoteOffersDue + c.answersDue + answers == One(c.hasRemote)
    && (c.hasRemote ==> Tally(handled, Offering) > 0)
    && (reading && Tally(handled, Offering) > 0 ==> c.hasRemote)
    && c.state == (if c.hasRemote && answers == 0 then HaveRemoteOffer else Stable)
    && (c.hasLocal <==> answers == 1)
  }

  /** The peer that found another one offers. */
  predicate Offerer(c: Connection, offers: nat, handled: seq<Message>, reading: bool) {
    && c.remoteOffersDue == 0 && c.answersDue == 0
    && c.offersDue + offers == 1
    && (c.hasRemote ==> offers == 1 && Tally(handled, Answering) > 0)
    && (reading && Tally(handled, Answering) > 0 ==> c.hasRemote)
    && c.state == (if offers == 1 && !c.hasRemote then HaveLocalOffer else Stable)
    && (c.hasLocal <==> offers == 1)
  }

  /** The last message handled is a parsable candidate, and no description was handled before it. */
  predicate EarlyCandidate(handled: seq<Message>) {
    handled != [] &&
    var last := handled[|handled| - 1];
    last.CandidateMessage? && last.parses && Descriptions(handled[..|handled| - 1]) == 0
  }

  /** Such a candidate is refused, and ends the read loop. */
  predicate EarlyOk(p: Peer) {
    && (p.faults.early <==> EarlyCandidate(p.loop.handled))
    && (p.faults.early ==> p.loop.started && p.loop.outstanding == 0)
  }

  predicate PeerOk(p: Peer, first: bool) {
    var h, offers, answers := p.loop.handled, TextTally(p.posted, Offering), TextTally(p.posted, Answering);
    var reading := p.loop.outstanding > 0;
    && p.loop.outstanding <= 1
    && (!p.loop.started ==> !reading)
    && !p.faults.illegal && !p.faults.nullUse && EarlyOk(p)
    && TextTally(p.posted, Joining) == One(p.loop.started)
    && (Tally(h, Joining) > 0 && reading ==> p.connection.Some?)
    && (Tally(h, Joining) == 0 ==>
          p.connection.None? && offers == 0 && answers == 0 && Tally(h, Offering) == 0 && Tally(h, Answering) == 0)
    && (Tally(h, Joining) > 0 && first ==>
          && offers == 0 && answers <= 1 && (answers > 0 ==> Tally(h, Offering) > 0) && Tally(h, Answering) == 0
          && (p.connection.Some? ==> Answerer(p.connection.value, answers, h, reading)))
    && (Tally(h, Joining) > 0 && !first ==>
          && answers == 0 && offers <= 1 && Tally(h, Offering) == 0
          && (p.connection.Some? ==> Offerer(p.connection.value, offers, h, reading)))
  }

  /** What the next message may be. */
  predicate Expected(p: Peer, first: bool, m: Message) {
    var h := p.loop.handled;
    && (m.Accept? ==> Tally(h, Joining) == 0 && m.isExistUser == !first)
    && (m.OfferMessage? ==> Tally(h, Joining) > 0 && first && Tally(h, Offering) == 0)
    && (m.AnswerMessage? ==>
          Tally(h, Joining) > 0 && !first && Tally(h, Answering) == 0 && TextTally(p.posted, Offering) == 1)
    && (m.CandidateMessage? ==> Tally(h, Joining) > 0)
  }

  lemma HandledAppend(h: seq<Message>, m: Message)
    ensures (h + [m])[..|h|] == h
    ensures forall k :: Tally(h + [m], k) == Tally(h, k) + One(SortOf(m) == k)
    ensures EarlyCandidate(h + [m]) <==> m.CandidateMessage? && m.parses && Descriptions(h) == 0
  {
    assert (h + [m])[..|h|] == h;
  }

  lemma DescriptionKeepsPeer(p: Peer, first: bool, m: Message)
    requires PeerOk(p, first) && p.loop.outstanding == 1 && Expected(p, first, m)
    requires m.OfferMessage? || m.AnswerMessage?
    ensures PeerOk(Handle(p, m), first)
  {
    HandledAppend(p.loop.handled, m);
  }

  lemma CandidateKeepsPeer(p: Peer, first: bool, m: Message)
    requires PeerOk(p, first) && p.loop.outstanding == 1 && Expected(p, first, m)
    requires m.CandidateMessage?
    ensures PeerOk(Handle(p, m), first)
  {
    HandledAppend(p.loop.handled, m);
  }

  lemma AcceptKeepsPeer(p: Peer, first: bool, m: Message)
    requires PeerOk(p, first) && p.loop.outstanding == 1 && Expected(p, first, m)
    requires m.Accept?
    ensures PeerOk(Handle(p, m), first)
  {
    HandledAppend(p.loop.handled, m);
  }

  lemma PingKeepsPeer(p: Peer, first: bool)
    requires PeerOk(p, first) && p.loop.outstanding == 1
    ensures PeerOk(Handle(p, Ping), first)
  {
    HandledAppend(p.loop.handled, Ping);
    TextTallyAppend(p.posted, Pong);
  }

  lemma OtherKeepsPeer(p: Peer, first: bool, m: Message)
    requires PeerOk(p, first) && p.loop.outstanding == 1 && SortOf(m) == Other
    ensures PeerOk(Handle(p, m), first)
  {
    HandledAppend(p.loop.handled, m);
    if m.Ping? {
      PingKeepsPeer(p, first);
    }
  }

  lemma ReadKeepsPeer(p: Peer, first: bool, m: Message)
    requires PeerOk(p, first) && p.loop.outstanding == 1 && Expected(p, first, m)
    ensures PeerOk(Handle(p, m), first)
  {
    match SortOf(m) {
      case Joining => AcceptKeepsPeer(p, first, m);
      case Offering => DescriptionKeepsPeer(p, first, m);
      case Answering => DescriptionKeepsPeer(p, first, m);
      case Trickling => CandidateKeepsPeer(p, first, m);
      case Other => OtherKeepsPeer(p, first, m);
    }
  }

  lemma CreationKeepsPeer(p: Peer, first: bool, e: SignalingSpec.Event)
    requires PeerOk(p, first) && (e.CreatesOffer? || e.CreatesAnswer?)
    ensures PeerOk(Step(p, e), first)
  {
    TextTallyAppend(p.posted, if e.CreatesOffer? then OfferText else AnswerText);
  }

  lemma GatheringKeepsPeer(p: Peer, first: bool, e: SignalingSpec.Event)
    requires PeerOk(p, first) && (e.Gathers? || e.SetsRemoteOffer?)
    ensures PeerOk(Step(p, e), first)
  {
    TextTallyAppend(p.posted, LocalCandidate);
  }

  lemma ActKeepsPeer(p: Peer, first: bool, e: SignalingSpec.Event)
    requires PeerOk(p, first) && !e.Reads?
    requires !p.loop.started ==> Tally(p.loop.handled, Joining) == 0
    ensures PeerOk(Step(p, e), first)
  {
    match e {
      case Handshakes => TextTallyAppend(p.posted, Register);
      case FailsToRead(_) =>
      case CreatesOffer => CreationKeepsPeer(p, first, e);
      case SetsRemoteOffer => GatheringKeepsPeer(p, first, e);
      case CreatesAnswer => CreationKeepsPeer(p, first, e);
      case Gathers => GatheringKeepsPeer(p, first, e);
    }
  }

  // What the two ends keep

  /** Whether anything the end posted belongs to the negotiation. */
  predicate HasNegotiated(p: Peer) {
    TextTally(p.posted, Offering) + TextTally(p.posted, Answering) + TextTally(p.posted, Trickling) > 0
  }

  /** What the server sent an end: one accept once registered, before everything of the negotiation. */
  predicate LogOk(log: seq<Message>, registered: bool, first: bool) {
    && AcceptLed(log)
    && Tally(log, Joining) == One(registered)
    && (forall i | 0 <= i < |log| && log[i].Accept? :: log[i].isExistUser == !first)
  }

  /** Candidates are posted only after a description. */
  predicate LedByDescription(posted: seq<Text>) { TextTally(posted, Trickling) > 0 ==> Described(posted) > 0 }

  /** What an end posted: one registration, and no candidate without a description. */
  predicate PostsOk(x: End) {
    && TextTally(x.up, Joining) + One(x.registered) == One(x.peer.loop.started)
    && LedByDescription(x.peer.posted)
  }

  predicate EndOk(x: End) {
    PeerOk(x.peer, x.first) && LogOk(Log(x), x.registered, x.first) && PostsOk(x)
  }

  /** What `x` posted is what the server sent `y` and what is still under way, sort by sort. */
  predicate Towards(x: End, y: End) {
    && Tally(Log(y), Offering) + TextTally(x.up, Offering) == TextTally(x.peer.posted, Offering)
    && Tally(Log(y), Answering) + TextTally(x.up, Answering) == TextTally(x.peer.posted, Answering)
    && TextTally(x.up, Trickling) <= TextTally(x.peer.posted, Trickling)
    && (HasNegotiated(x.peer) ==> y.registered)
  }

  /** At most one of them found the room empty, and the other one found it there. */
  predicate Ranked(x: End, y: End) {
    && (x.registered && !x.first ==> y.registered && y.first)
    && (x.registered && x.first && y.registered ==> !y.first)
  }

  predicate WorldOk(x: End, y: End) {
    && EndOk(x) && EndOk(y) && Towards(x, y) && Towards(y, x) && Ranked(x, y) && Ranked(y, x)
  }

  /** Only the first comer is sent an offer, only the other an answer to its own offer, once. */
  lemma RolesFollow(x: End, y: End)
    requires WorldOk(x, y) && x.registered
    ensures Tally(Log(x), Offering) > 0 ==> x.first && Tally(Log(x), Offering) == 1
    ensures Tally(Log(x), Answering) > 0 ==>
              !x.first && Tally(Log(x), Answering) == 1 && TextTally(x.peer.posted, Offering) == 1
  {
    TallyPrefix(Log(y), |y.peer.loop.handled|);
    assert Log(y)[..|y.peer.loop.handled|] == y.peer.loop.handled;
    TallyPrefix(Log(x), |x.peer.loop.handled|);
    assert Log(x)[..|x.peer.loop.handled|] == x.peer.loop.handled;
  }

  lemma NextIsExpected(x: End, y: End)
    requires WorldOk(x, y) && x.down != [] && x.peer.loop.outstanding == 1
    ensures Expected(x.peer, x.first, x.down[0])
  {
    var h, m := x.peer.loop.handled, x.down[0];
    var log, n := Log(x), |h|;
    assert log[n] == m;
    assert log[..n + 1] == h + [m] && (h + [m])[..n] == h;
    AcceptLedPrefix(log, n + 1);
    TallyPrefix(log, n + 1);
    TallyAppend(h, m);
    if x.registered {
      RolesFollow(x, y);
    }
  }

  // The steps

  lemma HandledIsLogged(x: End)
    ensures forall k :: Tally(x.peer.loop.handled, k) <= Tally(Log(x), k)
  {
    TallyPrefix(Log(x), |x.peer.loop.handled|);
    assert Log(x)[..|x.peer.loop.handled|] == x.peer.loop.handled;
  }

  lemma {:induction false} DescribedSomewhere(up: seq<Text>)
    requires Described(up) > 0
    ensures exists i | 0 <= i < |up| :: Describes(up[i])
  {
    var last := |up| - 1;
    if Describes(up[last]) {
    } else {
      DescribedSomewhere(up[..last]);
      var i :| 0 <= i < last && Describes(up[..last][i]);
      assert Describes(up[i]);
    }
  }

  /** Whoever posts for the negotiation knows that the other peer is in the room. */
  lemma NegotiatesWithOther(x: End, y: End, p: Peer)
    requires WorldOk(x, y) && PeerOk(p, x.first) && p.loop.handled <= Log(x)
    requires Described(p.posted) > 0
    ensures y.registered
  {
    TallyPrefix(Log(x), |p.loop.handled|);
    assert Log(x)[..|p.loop.handled|] == p.loop.handled;
    HandledIsLogged(y);
  }

  /** The end `z` is `x` after its own peer did something: it posted at most one more text, no
      stray candidate, and may have moved a message from its pipe to those handled. */
  predicate Moves(x: End, z: End, texts: seq<Text>) {
    && |texts| <= 1 && z.peer.posted == x.peer.posted + texts && z.up == x.up + texts
    && (texts == [LocalCandidate] ==> Described(x.peer.posted) > 0)
    && Log(z) == Log(x) && z.registered == x.registered && z.first == x.first
  }

  lemma TalliesConcat(s: seq<Text>, texts: seq<Text>, k: Sort)
    requires |texts| <= 1
    ensures TextTally(s + texts, k) == TextTally(s, k) + One(texts != [] && SortOfText(texts[0]) == k)
  {
    if texts == [] {
      assert s + texts == s;
    } else {
      assert texts == [texts[0]];
      TextTallyAppend(s, texts[0]);
    }
  }

  lemma MovesCount(x: End, z: End, texts: seq<Text>, k: Sort)
    requires Moves(x, z, texts)
    ensures TextTally(z.up, k) - TextTally(x.up, k) == TextTally(z.peer.posted, k) - TextTally(x.peer.posted, k) >= 0
  {
    TalliesConcat(x.up, texts, k);
    TalliesConcat(x.peer.posted, texts, k);
  }

  lemma MovesTowards(x: End, y: End, z: End, texts: seq<Text>)
    requires Towards(x, y) && Moves(x, z, texts) && (HasNegotiated(z.peer) ==> y.registered)
    ensures Towards(z, y)
  {
    MovesCount(x, z, texts, Offering);
    MovesCount(x, z, texts, Answering);
    MovesCount(x, z, texts, Trickling);
  }

  lemma StaysDescribed(posted: seq<Text>, texts: seq<Text>)
    requires LedByDescription(posted) && |texts| <= 1 && (texts == [LocalCandidate] ==> Described(posted) > 0)
    ensures LedByDescription(posted + texts)
  {
    TalliesConcat(posted, texts, Offering);
    TalliesConcat(posted, texts, Answering);
    TalliesConcat(posted, texts, Trickling);
  }

  lemma MovesPosts(x: End, z: End, texts: seq<Text>)
    requires PostsOk(x) && Moves(x, z, texts)
    requires TextTally(x.peer.posted, Joining) == One(x.peer.loop.started)
    requires TextTally(z.peer.posted, Joining) == One(z.peer.loop.started)
    ensures PostsOk(z)
  {
    MovesCount(x, z, texts, Joining);
    StaysDescribed(x.peer.posted, texts);
  }

  lemma MovesKeeps(x: End, y: End, z: End, texts: seq<Text>)
    requires WorldOk(x, y) && Moves(x, z, texts) && PeerOk(z.peer, x.first)
    ensures WorldOk(z, y)
  {
    MovesPosts(x, z, texts);
    if Described(z.peer.posted) > 0 {
      assert z.peer.loop.handled <= Log(z);
      NegotiatesWithOther(x, y, z.peer);
    }
    MovesTowards(x, y, z, texts);
    assert Towards(y, z);
  }

  lemma ActPosts(x: End, e: SignalingSpec.Event) returns (texts: seq<Text>)
    requires EndOk(x) && !e.Reads?
    ensures |texts| <= 1 && Step(x.peer, e).posted == x.peer.posted + texts
    ensures texts == [LocalCandidate] ==> Described(x.peer.posted) > 0
    ensures Step(x.peer, e).loop.handled == x.peer.loop.handled
  {
    HandledIsLogged(x);
    match e {
      case Handshakes => texts := if x.peer.loop.started then [] else [Register];
      case FailsToRead(_) => texts := [];
      case CreatesOffer =>
        texts := if x.peer.connection.Some? && x.peer.connection.value.offersDue > 0 then [OfferText] else [];
      case SetsRemoteOffer => texts := [];
      case CreatesAnswer =>
        texts := if x.peer.connection.Some? && x.peer.connection.value.answersDue > 0 then [AnswerText] else [];
      case Gathers =>
        texts := if x.peer.connection.Some? && x.peer.connection.value.hasLocal then [LocalCandidate] else [];
    }
  }

  /** A peer that handled nothing moves its end by what it posted. */
  lemma PostingMoves(x: End, p: Peer, texts: seq<Text>)
    requires |texts| <= 1 && p.posted == x.peer.posted + texts && p.loop.handled == x.peer.loop.handled
    requires texts == [LocalCandidate] ==> Described(x.peer.posted) > 0
    ensures Moves(x, Advanced(x, p), texts)
  {
    assert p.posted[|x.peer.posted|..] == texts;
  }

  lemma HandlePosts(p: Peer, m: Message)
    requires p.loop.outstanding > 0
    ensures Handle(p, m).posted == p.posted + if m.Ping? then [Pong] else []
    ensures Handle(p, m).loop.handled == p.loop.handled + [m]
  {
  }

  lemma TakeMoves(x: End) returns (texts: seq<Text>)
    requires x.down != [] && x.peer.loop.outstanding > 0
    ensures Moves(x, Advanced(x.(down := x.down[1..]), Handle(x.peer, x.down[0])), texts)
  {
    var p := Handle(x.peer, x.down[0]);
    texts := if x.down[0].Ping? then [Pong] else [];
    HandlePosts(x.peer, x.down[0]);
    assert p.posted[|x.peer.posted|..] == texts;
    assert x.peer.loop.handled + [x.down[0]] + x.down[1..] == Log(x);
  }

  lemma PostingKeeps(x: End, y: End, p: Peer, texts: seq<Text>)
    requires WorldOk(x, y) && PeerOk(p, x.first)
    requires |texts| <= 1 && p.posted == x.peer.posted + texts && p.loop.handled == x.peer.loop.handled
    requires texts == [LocalCandidate] ==> Described(x.peer.posted) > 0
    ensures WorldOk(Advanced(x, p), y)
  {
    PostingMoves(x, p, texts);
    MovesKeeps(x, y, Advanced(x, p), texts);
  }

  lemma ActKeeps(x: End, y: End, e: SignalingSpec.Event)
    requires WorldOk(x, y) && !e.Reads?
    ensures WorldOk(StepEnds(x, y, Acts(e)).0, StepEnds(x, y, Acts(e)).1)
  {
    HandledIsLogged(x);
    ActKeepsPeer(x.peer, x.first, e);
    var texts := ActPosts(x, e);
    PostingKeeps(x, y, Step(x.peer, e), texts);
  }

  lemma TakeKeeps(x: End, y: End)
    requires WorldOk(x, y) && x.down != [] && x.peer.loop.outstanding > 0
    ensures WorldOk(Advanced(x.(down := x.down[1..]), Handle(x.peer, x.down[0])), y)
  {
    NextIsExpected(x, y);
    ReadKeepsPeer(x.peer, x.first, x.down[0]);
    var texts := TakeMoves(x);
    MovesKeeps(x, y, Advanced(x.(down := x.down[1..]), Handle(x.peer, x.down[0])), texts);
  }

  /** The server put `m` into the pipe of `x`. */
  lemma DownAppend(x: End, m: Message)
    ensures Log(x.(down := x.down + [m])) == Log(x) + [m]
    ensures forall k :: Tally(Log(x) + [m], k) == Tally(Log(x), k) + One(SortOf(m) == k)
    ensures AcceptLed(Log(x) + [m]) <==>
              && AcceptLed(Log(x))
              && (SortOf(m) == Offering || SortOf(m) == Answering || SortOf(m) == Trickling ==>
                    Tally(Log(x), Joining) > 0)
    ensures DescriptionLed(Log(x) + [m]) <==>
              DescriptionLed(Log(x)) && (SortOf(m) == Trickling ==> Descriptions(Log(x)) > 0)
  {
    assert Log(x.(down := x.down + [m])) == Log(x) + [m];
    assert (Log(x) + [m])[..|Log(x)|] == Log(x);
    TallyAppend(Log(x), m);
  }

  lemma OtherKeepsLog(log: seq<Message>, registered: bool, first: bool, m: Message)
    requires LogOk(log, registered, first) && SortOf(m) == Other
    ensures LogOk(log + [m], registered, first)
  {
    TallyAppend(log, m);
    assert (log + [m])[..|log|] == log;
  }

  lemma OtherKeepsTowards(x: End, y: End, m: Message)
    requires Towards(y, x) && SortOf(m) == Other
    ensures Towards(y, x.(down := x.down + [m]))
  {
    DownAppend(x, m);
  }

  lemma SayKeeps(x: End, y: End, m: Message)
    requires WorldOk(x, y) && SortOf(m) == Other
    ensures WorldOk(x.(down := x.down + [m]), y)
  {
    var z := x.(down := x.down + [m]);
    assert Log(z) == Log(x) + [m];
    OtherKeepsLog(Log(x), x.registered, x.first, m);
    OtherKeepsTowards(x, y, m);
    assert EndOk(z) && Towards(z, y);
  }

  lemma {:induction false} NoAccepts(s: seq<Message>)
    requires Tally(s, Joining) == 0
    ensures forall m | m in s :: !m.Accept?
  {
    if s == [] {
    } else {
      NoAccepts(s[..|s| - 1]);
    }
  }

  lemma EitherRole(p: Peer, first: bool, other: bool)
    requires PeerOk(p, first) && Tally(p.loop.handled, Joining) == 0
    ensures PeerOk(p, other)
  {
  }

  /** The server takes the i-th text of `x` and leaves the others under way. */
  function Sent(x: End, i: nat): End
    requires i < |x.up|
  {
    x.(up := Without(x.up, i))
  }

  lemma JoinKeepsLog(log: seq<Message>, before: bool, first: bool)
    requires LogOk(log, false, before)
    ensures LogOk(log + [Accept(!first)], true, first)
  {
    NoAccepts(log);
    TallyAppend(log, Accept(!first));
    assert (log + [Accept(!first)])[..|log|] == log;
  }

  lemma JoinKeepsPosts(x: End, i: nat)
    requires PostsOk(x) && i < |x.up| && x.up[i] == Register
    ensures !x.registered && PostsOk(Sent(x, i).(registered := true))
  {
    TextTallyWithout(x.up, i);
  }

  lemma RegisterKeepsEnd(x: End, i: nat, first: bool)
    requires EndOk(x) && i < |x.up| && x.up[i] == Register
    ensures !x.registered
    ensures EndOk(Sent(x, i).(registered := true, first := first, down := x.down + [Accept(!first)]))
  {
    JoinKeepsPosts(x, i);
    JoinKeepsLog(Log(x), x.first, first);
    HandledIsLogged(x);
    EitherRole(x.peer, x.first, first);
    var z := Sent(x, i).(registered := true, first := first, down := x.down + [Accept(!first)]);
    assert Log(z) == Log(x) + [Accept(!first)];
  }

  /** Texts that are no part of the negotiation may be taken from anywhere. */
  lemma TakingKeepsTowards(x: End, y: End, i: nat)
    requires Towards(x, y) && i < |x.up| && !Negotiates(x.up[i])
    ensures Towards(Sent(x, i), y)
  {
    TextTallyWithout(x.up, i);
  }

  lemma RegisterKeeps(x: End, y: End, i: nat)
    requires WorldOk(x, y) && i < |x.up| && x.up[i] == Register
    ensures WorldOk(Sent(x, i).(registered := true, first := !y.registered, down := x.down + [Accept(y.registered)]), y)
  {
    var z := Sent(x, i).(registered := true, first := !y.registered, down := x.down + [Accept(y.registered)]);
    RegisterKeepsEnd(x, i, !y.registered);
    TakingKeepsTowards(x, y, i);
    DownAppend(x, Accept(y.registered));
    assert Log(z) == Log(x) + [Accept(y.registered)];
    assert Towards(z, y) && Towards(y, z);
  }

  lemma ForwardReaches(x: End, y: End, i: nat)
    requires Towards(x, y) && i < |x.up| && Negotiates(x.up[i])
    ensures y.registered
  {
    TextTallyWithout(x.up, i);
  }

  lemma ForwardKeepsEnd(y: End, m: Message)
    requires EndOk(y) && y.registered && SortOf(m) != Joining
    ensures EndOk(y.(down := y.down + [m]))
  {
    DownAppend(y, m);
  }

  /** Forwarding moves one text from what is under way to what was sent. */
  lemma ForwardCounts(x: End, y: End, i: nat, m: Message)
    requires Towards(x, y) && i < |x.up| && Negotiates(x.up[i]) && SortOf(m) == SortOfText(x.up[i])
    ensures Towards(Sent(x, i), y.(down := y.down + [m]))
  {
    TextTallyWithout(x.up, i);
    ForwardReaches(x, y, i);
    DownAppend(y, m);
  }

  lemma ForwardKeeps(x: End, y: End, i: nat, m: Message)
    requires WorldOk(x, y) && i < |x.up| && Negotiates(x.up[i]) && SortOf(m) == SortOfText(x.up[i])
    ensures y.registered
    ensures WorldOk(Sent(x, i), y.(down := y.down + [m]))
  {
    TextTallyWithout(x.up, i);
    ForwardReaches(x, y, i);
    ForwardKeepsEnd(y, m);
    ForwardCounts(x, y, i, m);
    assert Log(Sent(x, i)) == Log(x);
    assert EndOk(Sent(x, i));
  }

  lemma DropKeeps(x: End, y: End, i: nat)
    requires WorldOk(x, y) && i < |x.up| && SortOfText(x.up[i]) == Other
    ensures WorldOk(Sent(x, i), y)
  {
    TextTallyWithout(x.up, i);
    TakingKeepsTowards(x, y, i);
    assert Log(Sent(x, i)) == Log(x);
    assert EndOk(Sent(x, i));
    assert Towards(y, Sent(x, i));
  }

  lemma ServerKeeps(x: End, y: End, i: nat, parses: bool, usable: bool)
    requires WorldOk(x, y) && i < |x.up|
    ensures WorldOk(ServerStep(x, y, i, parses, usable).0, ServerStep(x, y, i, parses, usable).1)
  {
    var t := x.up[i];
    if t == Register {
      RegisterKeeps(x, y, i);
    } else if Negotiates(t) {
      ForwardKeeps(x, y, i, Forwarded(t, parses, usable));
    } else {
      DropKeeps(x, y, i);
    }
  }

  lemma ServerTakesStep(x: End, y: End, i: nat, parses: bool, usable: bool)
    ensures StepEnds(x, y, ServerTakes(i, parses, usable))
            == if i < |x.up| then ServerStep(x, y, i, parses, usable) else (x, y)
  {
  }

  lemma ServerSaysStep(x: End, y: End, m: Message)
    ensures StepEnds(x, y, ServerSays(m))
            == if m.Ping? || m.Bye? || m.Unknown? then (x.(down := x.down + [m]), y) else (x, y)
  {
  }

  lemma TakesKeeps(x: End, y: End)
    requires WorldOk(x, y)
    ensures WorldOk(StepEnds(x, y, Takes).0, StepEnds(x, y, Takes).1)
  {
    if x.down != [] && x.peer.loop.outstanding > 0 { TakeKeeps(x, y); }
  }

  lemma ServerTakesKeeps(x: End, y: End, i: nat, parses: bool, usable: bool)
    requires WorldOk(x, y)
    ensures var r := StepEnds(x, y, ServerTakes(i, parses, usable)); WorldOk(r.0, r.1)
  {
    ServerTakesStep(x, y, i, parses, usable);
    if i < |x.up| { ServerKeeps(x, y, i, parses, usable); }
  }

  lemma ServerSaysKeeps(x: End, y: End, m: Message)
    requires WorldOk(x, y)
    ensures WorldOk(StepEnds(x, y, ServerSays(m)).0, StepEnds(x, y, ServerSays(m)).1)
  {
    ServerSaysStep(x, y, m);
    if m.Ping? || m.Bye? || m.Unknown? { SayKeeps(x, y, m); }
  }

  lemma StepKeeps(x: End, y: End, e: Event)
    requires WorldOk(x, y)
    ensures WorldOk(StepEnds(x, y, e).0, StepEnds(x, y, e).1)
  {
    match e {
      case Acts(act) =>
        if !act.Reads? { ActKeeps(x, y, act); }
      case Takes => TakesKeeps(x, y);
      case ServerTakes(i, parses, usable) => ServerTakesKeeps(x, y, i, parses, usable);
      case ServerSays(m) => ServerSaysKeeps(x, y, m);
    }
  }
}
