/**
Whole runs of the negotiation: what holds in every one, overtaking included, and what besides
in those without. There, descriptions lead candidates, so that none comes early; and the
server's messages are in that order exactly in those runs.
*/
module NegotiationRuns {
  import opened Wrappers
  import opened SignalingSpec
  import opened Negotiation

  lemma {:induction false} RunKeeps(events: seq<(bool, Negotiation.Event)>)
    ensures WorldOk(RunWorld(events).a, RunWorld(events).b)
  {
    if events == [] {
    } else {
      var (atA, e) := events[|events| - 1];
      var w := RunWorld(events[..|events| - 1]);
      RunKeeps(events[..|events| - 1]);
      if atA {
        StepKeeps(w.a, w.b, e);
      } else {
        StepKeeps(w.b, w.a, e);
      }
    }
  }

  function OffersSent(w: World): nat { TextTally(w.a.peer.posted, Offering) + TextTally(w.b.peer.posted, Offering) }

  function AnswersSent(w: World): nat { TextTally(w.a.peer.posted, Answering) + TextTally(w.b.peer.posted, Answering) }

  predicate HasLocalOffer(p: Peer) { p.connection.Some? && p.connection.value.state == HaveLocalOffer }

  predicate Faultless(p: Peer) { !p.faults.illegal && !p.faults.early && !p.faults.nullUse }

  /** In every run, whatever the interleaving, whatever the libraries accept and whichever texts
      overtake: at most one offer and one answer are ever sent, the peers never both have a
      local offer, no description is applied in a state that forbids it, and no handler meets a
      null connection. A candidate is read too early in exactly one case, and then it is the
      last message its peer reads. */
  lemma {:induction false} NegotiationSafe(events: seq<(bool, Negotiation.Event)>)
    ensures var w := RunWorld(events);
            && OffersSent(w) <= 1
            && AnswersSent(w) <= OffersSent(w)
            && !(HasLocalOffer(w.a.peer) && HasLocalOffer(w.b.peer))
            && !w.a.peer.faults.illegal && !w.b.peer.faults.illegal
            && !w.a.peer.faults.nullUse && !w.b.peer.faults.nullUse
            && EarlyOk(w.a.peer) && EarlyOk(w.b.peer)
  {
    RunKeeps(events);
    var w := RunWorld(events);
    HandledIsLogged(w.a);
    HandledIsLogged(w.b);
  }

  /** Texts taken in posting order never overtake. */
  lemma {:induction false} PostingOrderSuffices(events: seq<(bool, Negotiation.Event)>)
    requires forall k | 0 <= k < |events| && events[k].1.ServerTakes? :: events[k].1.i == 0
    ensures NoneOvertakes(events)
  {
    if events == [] {
    } else {
      var front := events[..|events| - 1];
      assert forall k | 0 <= k < |front| :: front[k] == events[k];
      PostingOrderSuffices(front);
    }
  }

  // Without overtaking

  predicate StepOvertakes(x: End, e: Negotiation.Event) { e.ServerTakes? && Overtakes(x.up, e.i) }

  /** A description leads what the server sent `y`, and what is still under way from `x`. */
  predicate Ordered(x: End, y: End) {
    DescriptionLed(Log(y)) && (Descriptions(Log(y)) > 0 || NoEarlyCandidate(x.up))
  }

  predicate BothOrdered(x: End, y: End) { Ordered(x, y) && Ordered(y, x) }

  lemma AppendKeepsOrder(up: seq<Text>, texts: seq<Text>)
    requires NoEarlyCandidate(up) && |texts| <= 1 && (texts == [LocalCandidate] ==> Described(up) > 0)
    ensures NoEarlyCandidate(up + texts)
  {
    if texts == [] {
      assert up + texts == up;
    } else {
      assert texts == [texts[0]];
      if texts[0] == LocalCandidate {
        DescribedSomewhere(up);
      }
      NoEarlyCandidateAppend(up, texts[0]);
    }
  }

  lemma MovesOrdered(x: End, y: End, z: End, texts: seq<Text>)
    requires Towards(x, y) && Moves(x, z, texts) && BothOrdered(x, y)
    ensures BothOrdered(z, y)
  {
    if Descriptions(Log(y)) == 0 {
      AppendKeepsOrder(x.up, texts);
    }
  }

  /** A candidate under way that overtakes no description was led by one that got through. */
  lemma CandidateLed(x: End, y: End, i: nat)
    requires Ordered(x, y) && i < |x.up| && !Overtakes(x.up, i) && x.up[i] == LocalCandidate
    ensures Descriptions(Log(y)) > 0
  {
    if NoEarlyCandidate(x.up) {
      NoEarlyCandidateMeans(x.up, i);
    }
  }

  lemma AcceptOrdered(x: End, y: End, i: nat)
    requires BothOrdered(x, y) && i < |x.up| && x.up[i] == Register
    ensures BothOrdered(ServerStep(x, y, i, true, true).0, y)
  {
    DownAppend(x, Accept(y.registered));
    var z := ServerStep(x, y, i, true, true).0;
    assert Log(z) == Log(x) + [Accept(y.registered)];
    if NoEarlyCandidate(x.up) {
      NoEarlyCandidateWithout(x.up, i);
    }
  }

  lemma ForwardOrdered(x: End, y: End, i: nat, m: Message)
    requires BothOrdered(x, y) && i < |x.up| && !Overtakes(x.up, i)
    requires Negotiates(x.up[i]) && SortOf(m) == SortOfText(x.up[i])
    ensures BothOrdered(Sent(x, i), y.(down := y.down + [m]))
  {
    DownAppend(y, m);
    assert Log(Sent(x, i)) == Log(x);
    if x.up[i] == LocalCandidate {
      CandidateLed(x, y, i);
    }
  }

  lemma DropOrdered(x: End, y: End, i: nat)
    requires BothOrdered(x, y) && i < |x.up| && !Negotiates(x.up[i])
    ensures BothOrdered(Sent(x, i), y)
  {
    assert Log(Sent(x, i)) == Log(x);
    if NoEarlyCandidate(x.up) {
      NoEarlyCandidateWithout(x.up, i);
    }
  }

  lemma ServerOrdered(x: End, y: End, i: nat, parses: bool, usable: bool)
    requires WorldOk(x, y) && BothOrdered(x, y) && i < |x.up| && !Overtakes(x.up, i)
    ensures BothOrdered(ServerStep(x, y, i, parses, usable).0, ServerStep(x, y, i, parses, usable).1)
  {
    if x.up[i] == Register {
      AcceptOrdered(x, y, i);
    } else if Negotiates(x.up[i]) {
      ForwardReaches(x, y, i);
      ForwardOrdered(x, y, i, Forwarded(x.up[i], parses, usable));
    } else {
      DropOrdered(x, y, i);
    }
  }

  lemma ActOrdered(x: End, y: End, e: SignalingSpec.Event)
    requires WorldOk(x, y) && BothOrdered(x, y) && !e.Reads?
    ensures BothOrdered(Advanced(x, Step(x.peer, e)), y)
  {
    var texts := ActPosts(x, e);
    PostingMoves(x, Step(x.peer, e), texts);
    MovesOrdered(x, y, Advanced(x, Step(x.peer, e)), texts);
  }

  lemma TakeOrdered(x: End, y: End)
    requires WorldOk(x, y) && BothOrdered(x, y) && x.down != [] && x.peer.loop.outstanding > 0
    ensures BothOrdered(Advanced(x.(down := x.down[1..]), Handle(x.peer, x.down[0])), y)
  {
    var texts := TakeMoves(x);
    MovesOrdered(x, y, Advanced(x.(down := x.down[1..]), Handle(x.peer, x.down[0])), texts);
  }

  lemma TakesOrdered(x: End, y: End)
    requires WorldOk(x, y) && BothOrdered(x, y)
    ensures BothOrdered(StepEnds(x, y, Takes).0, StepEnds(x, y, Takes).1)
  {
    if x.down != [] && x.peer.loop.outstanding > 0 { TakeOrdered(x, y); }
  }

  lemma ServerTakesOrdered(x: End, y: End, i: nat, parses: bool, usable: bool)
    requires WorldOk(x, y) && BothOrdered(x, y) && !Overtakes(x.up, i)
    ensures var r := StepEnds(x, y, ServerTakes(i, parses, usable)); BothOrdered(r.0, r.1)
  {
    ServerTakesStep(x, y, i, parses, usable);
    if i < |x.up| { ServerOrdered(x, y, i, parses, usable); }
  }

  lemma ServerSaysOrdered(x: End, y: End, m: Message)
    requires BothOrdered(x, y)
    ensures BothOrdered(StepEnds(x, y, ServerSays(m)).0, StepEnds(x, y, ServerSays(m)).1)
  {
    if m.Ping? || m.Bye? || m.Unknown? { DownAppend(x, m); }
  }

  lemma StepOrdered(x: End, y: End, e: Negotiation.Event)
    requires WorldOk(x, y) && BothOrdered(x, y) && !StepOvertakes(x, e)
    ensures BothOrdered(StepEnds(x, y, e).0, StepEnds(x, y, e).1)
  {
    match e {
      case Acts(act) =>
        if !act.Reads? { ActOrdered(x, y, act); }
      case Takes => TakesOrdered(x, y);
      case ServerTakes(i, parses, usable) => ServerTakesOrdered(x, y, i, parses, usable);
      case ServerSays(m) => ServerSaysOrdered(x, y, m);
    }
  }

  lemma {:induction false} RunOrdered(events: seq<(bool, Negotiation.Event)>)
    requires NoneOvertakes(events)
    ensures BothOrdered(RunWorld(events).a, RunWorld(events).b)
  {
    if events == [] {
    } else {
      var front := events[..|events| - 1];
      var (atA, e) := events[|events| - 1];
      var w := RunWorld(front);
      RunKeeps(front);
      RunOrdered(front);
      if atA {
        StepOrdered(w.a, w.b, e);
      } else {
        StepOrdered(w.b, w.a, e);
      }
    }
  }

  lemma LedIsTimely(x: End)
    requires DescriptionLed(Log(x)) && EarlyOk(x.peer)
    ensures !x.peer.faults.early
  {
    var h := x.peer.loop.handled;
    DescriptionLedPrefix(Log(x), |h|);
    assert Log(x)[..|h|] == h;
  }

  /** Without overtaking, nothing at all goes wrong. */
  lemma {:induction false} OrderIsFaultless(events: seq<(bool, Negotiation.Event)>)
    requires NoneOvertakes(events)
    ensures Faultless(RunWorld(events).a.peer) && Faultless(RunWorld(events).b.peer)
  {
    NegotiationSafe(events);
    RunOrdered(events);
    LedIsTimely(RunWorld(events).a);
    LedIsTimely(RunWorld(events).b);
  }

  // Overtaking is exactly what goes wrong

  /** In what the server sent, a description comes before every candidate. */
  predicate Led(w: World) { DescriptionLed(Log(w.a)) && DescriptionLed(Log(w.b)) }

  lemma TakeKeepsLog(x: End)
    requires x.down != [] && x.peer.loop.outstanding > 0
    ensures Log(Advanced(x.(down := x.down[1..]), Handle(x.peer, x.down[0]))) == Log(x)
  {
    var texts := TakeMoves(x);
  }

  lemma ServerGrowsLogs(x: End, y: End, i: nat, parses: bool, usable: bool)
    requires i < |x.up|
    ensures Log(x) <= Log(ServerStep(x, y, i, parses, usable).0) && Log(y) <= Log(ServerStep(x, y, i, parses, usable).1)
  {
  }

  lemma ActHandlesNothing(p: Peer, e: SignalingSpec.Event)
    requires !e.Reads?
    ensures Step(p, e).loop.handled == p.loop.handled
  {
    AsideSteps(p, e);
  }

  lemma LogsGrow(x: End, y: End, e: Negotiation.Event)
    ensures Log(x) <= Log(StepEnds(x, y, e).0) && Log(y) <= Log(StepEnds(x, y, e).1)
  {
    match e {
      case Acts(act) =>
        if !act.Reads? { ActHandlesNothing(x.peer, act); }
      case Takes =>
        if x.down != [] && x.peer.loop.outstanding > 0 { TakeKeepsLog(x); }
      case ServerTakes(i, parses, usable) =>
        if i < |x.up| { ServerGrowsLogs(x, y, i, parses, usable); }
      case ServerSays(m) =>
    }
  }

  lemma NoDescriptionYet(x: End, y: End, j: nat)
    requires WorldOk(x, y) && j < |x.up| && Describes(x.up[j])
    ensures Descriptions(Log(y)) == 0
  {
    TextTallyWithout(x.up, j);
  }

  /** A candidate that overtakes its description reaches the other peer first. */
  lemma OvertakingBreaks(x: End, y: End, e: Negotiation.Event)
    requires WorldOk(x, y) && StepOvertakes(x, e)
    ensures !DescriptionLed(Log(StepEnds(x, y, e).1))
  {
    var i, m := e.i, CandidateMessage(e.parses, e.usable);
    var j :| 0 <= j < i && Describes(x.up[j]);
    NoDescriptionYet(x, y, j);
    ForwardReaches(x, y, i);
    DownAppend(y, m);
    assert StepEnds(x, y, e).1 == y.(down := y.down + [m]);
  }

  lemma UnledStays(s: seq<Message>, t: seq<Message>)
    requires s <= t
    ensures !DescriptionLed(s) ==> !DescriptionLed(t)
  {
    if DescriptionLed(t) {
      DescriptionLedPrefix(t, |s|);
      assert t[..|s|] == s;
    }
  }

  /** The server sends every peer its messages in a usable order exactly in the runs in which
      no candidate overtook a description. */
  lemma {:induction false} LedExactly(events: seq<(bool, Negotiation.Event)>)
    ensures Led(RunWorld(events)) <==> NoneOvertakes(events)
  {
    if events == [] {
    } else {
      var front := events[..|events| - 1];
      var (atA, e) := events[|events| - 1];
      var w := RunWorld(front);
      var (x, y) := if atA then (w.a, w.b) else (w.b, w.a);
      LedExactly(front);
      if !NoneOvertakes(front) {
        LogsGrow(x, y, e);
        UnledStays(Log(x), Log(StepEnds(x, y, e).0));
        UnledStays(Log(y), Log(StepEnds(x, y, e).1));
      } else {
        RunKeeps(front);
        RunOrdered(front);
        if StepOvertakes(x, e) {
          OvertakingBreaks(x, y, e);
        } else {
          StepOrdered(x, y, e);
        }
      }
    }
  }
}
