/**
Every batch handed to a stream is taken up: from outside, or by a closure that runs. What a
stream counts as submitted is what it was handed, and each submission has one of three fates.
*/
module Submissions {
  import opened Wrappers
  import opened Metadata
  import opened Batches
  import opened Ledger
  import opened StreamSpec
  import opened TransportRuns
  import Displacement
  import EndToEnd

  /** Where a stream without a channel is handed a batch while signalling is ready, it gets one. */
  function ChannelAfter(l: Link, tried: bool, ready: bool): Option<DataState> {
    if tried && l.dc.None? && ready then Some(Connecting) else l.dc
  }

  /** What one submission does: on an open channel the batch runs, and a pending other one is
      lost; otherwise it waits in the slot, or is lost if another one is there. */
  lemma FateOfSubmission(lib: Lib, s: Stream, op: Batch, ready: bool)
    ensures var l, m := s.link.ledger, Submit(lib, s, op, ready).link.ledger;
            && m.submitted == l.submitted + (if l.pending == Some(op) then [] else [op])
            && (if s.link.dc == Some(Open) then
                  && m.executed == l.executed + [op] && m.pending.None?
                  && m.displaced == l.displaced + (if OtherPending(l, op) then [l.pending.value] else [])
                  && Submit(lib, s, op, ready).sent == s.sent + WireAll(lib, FramesOf(op))
                else
                  && m.executed == l.executed && Submit(lib, s, op, ready).sent == s.sent
                  && Submit(lib, s, op, ready).link.dc == ChannelAfter(s.link, true, ready)
                  && Submit(lib, s, op, ready).queues == s.queues
                  && (if OtherPending(l, op) then m.pending == l.pending && m.displaced == l.displaced + [op]
                      else m.pending == Some(op) && m.displaced == l.displaced))
  {
  }

  /** What a wake-up does: on an open channel the pending batch runs; otherwise it stays. The
      observer's notice wakes it on an open channel only. */
  lemma FateOfRetry(lib: Lib, s: Stream, ready: bool)
    ensures var l, r := s.link, Retry(lib, s, ready);
            && r.link.ledger.submitted == l.ledger.submitted && r.link.ledger.displaced == l.ledger.displaced
            && (if l.dc == Some(Open) && l.ledger.pending.Some? then
                  && r.link.ledger.executed == l.ledger.executed + [l.ledger.pending.value]
                  && r.link.ledger.pending.None?
                  && r.sent == s.sent + WireAll(lib, FramesOf(l.ledger.pending.value))
                else
                  && r.link.ledger == l.ledger && r.sent == s.sent && r.queues == s.queues
                  && r.link.dc == ChannelAfter(l, l.ledger.pending.Some?, ready))
    ensures Notice(lib, s, ready)
            == var told := s.(link := s.link.(noticeDue := false));
               if s.link.dc == Some(Open) then Retry(lib, told, ready) else told
  {
  }

  /** Those of the batches handed in, in a row, that are not the pending one handed in again. */
  ghost function NewOnes(lib: Lib, s: Stream, ops: seq<Batch>, ready: bool): seq<Batch>
    decreases |ops|
  {
    if ops == [] then []
    else
      (if s.link.ledger.pending == Some(ops[0]) then [] else [ops[0]])
      + NewOnes(lib, Submit(lib, s, ops[0], ready), ops[1..], ready)
  }

  lemma SubmitTakesUp(lib: Lib, s: Stream, op: Batch, ready: bool)
    ensures Submit(lib, s, op, ready).link.ledger.submitted
            == s.link.ledger.submitted + if s.link.ledger.pending == Some(op) then [] else [op]
    ensures Submit(lib, s, op, ready).link.ledger
            == Attempted(Counted(s.link.ledger, op), op, s.link.dc == Some(Open))
  {
  }

  lemma {:induction false} SubmitAllTakesUp(lib: Lib, s: Stream, ops: seq<Batch>, ready: bool)
    ensures SubmitAll(lib, s, ops, ready).link.ledger.submitted
            == s.link.ledger.submitted + NewOnes(lib, s, ops, ready)
    decreases |ops|
  {
    if ops == [] {
    } else {
      SubmitTakesUp(lib, s, ops[0], ready);
      SubmitAllTakesUp(lib, Submit(lib, s, ops[0], ready), ops[1..], ready);
    }
  }

  /** What one step hands in anew. */
  ghost function NewIn(lib: Lib, s: Stream, e: Event, ready: bool): seq<Batch> {
    NewOnes(lib, if e.RunsClosure? && s.queues.scheduled != [] then Popped(s) else s, HandsIn(s, e), ready)
  }

  lemma RetryTakesUp(lib: Lib, s: Stream, ready: bool)
    ensures Retry(lib, s, ready).link.ledger.submitted == s.link.ledger.submitted
    ensures Notice(lib, s, ready).link.ledger.submitted == s.link.ledger.submitted
  {
  }

  lemma SteppedTakesUp(lib: Lib, s: Stream, e: Event, ready: bool)
    requires OnStream(e)
    ensures Stepped(lib, s, e, ready).link.ledger.submitted == s.link.ledger.submitted + NewIn(lib, s, e, ready)
  {
    match e {
      case Submits(_, op) =>
        assert SubmitAll(lib, s, [op], ready) == SubmitAll(lib, Submit(lib, s, op, ready), [op][1..], ready);
        SubmitAllTakesUp(lib, s, [op], ready);
      case RunsClosure(_) =>
        if s.queues.scheduled != [] {
          SubmitAllTakesUp(lib, Popped(s), s.queues.scheduled[0].submits, ready);
        }
      case ChannelMoves(_, _) =>
      case IsTold(_) => RetryTakesUp(lib, s, ready);
      case FrameArrives(_, _) =>
    }
  }

  lemma {:induction false} ShutAllSilent(lib: Lib, s: Stream, ops: seq<Batch>, ready: bool)
    requires s.link.dc != Some(Open)
    ensures SubmitAll(lib, s, ops, ready).sent == s.sent
    ensures SubmitAll(lib, s, ops, ready).link.ledger.executed == s.link.ledger.executed
    decreases |ops|
  {
    if ops == [] {
    } else {
      FateOfSubmission(lib, s, ops[0], ready);
      ShutAllSilent(lib, Submit(lib, s, ops[0], ready), ops[1..], ready);
    }
  }

  /** No step sends anything or runs a batch unless the channel is open. */
  lemma RunsOnlyWhenOpen(lib: Lib, s: Stream, e: Event, ready: bool)
    requires OnStream(e) && s.link.dc != Some(Open)
    ensures Stepped(lib, s, e, ready).sent == s.sent
    ensures Stepped(lib, s, e, ready).link.ledger.executed == s.link.ledger.executed
    ensures Retry(lib, s, ready).sent == s.sent
  {
    FateOfRetry(lib, s, ready);
    match e {
      case Submits(_, op) => FateOfSubmission(lib, s, op, ready);
      case RunsClosure(_) =>
        if s.queues.scheduled != [] {
          ShutAllSilent(lib, Popped(s), s.queues.scheduled[0].submits, ready);
        }
      case ChannelMoves(_, _) =>
      case IsTold(_) =>
      case FrameArrives(_, _) =>
    }
  }

  // In runs of a transport

  /** The batches handed to stream `i`, told from the events and the closures that ran; `anew`
      leaves out the pending batch where it was handed in again. */
  ghost function HandedIn(lib: Lib, events: seq<Event>, i: nat, anew: bool): seq<Batch> {
    if events == [] then []
    else
      var front, e := events[..|events| - 1], events[|events| - 1];
      var n := Run(lib, front);
      HandedIn(lib, front, i, anew)
      + if n.crashed || Step(lib, n, e).crashed || !OnStream(e) || e.i != i || i >= |n.streams| then []
        else if anew then NewIn(lib, n.streams[i], e, Ready(n))
        else HandsIn(n.streams[i], e)
  }

  lemma {:induction false} NoneBefore(lib: Lib, events: seq<Event>, i: nat, anew: bool)
    requires |Run(lib, events).streams| <= i
    ensures HandedIn(lib, events, i, anew) == []
  {
    if events == [] {
    } else {
      var front := events[..|events| - 1];
      if !Run(lib, front).crashed {
        Displacement.StepAddsStreams(lib, Run(lib, front), events[|events| - 1], i);
      }
      NoneBefore(lib, front, i, anew);
    }
  }

  lemma StepTakesUp(lib: Lib, n: Node, e: Event, i: nat)
    requires HubOk(n.hub, |n.streams|) && !n.crashed && i < |n.streams|
    ensures i < |Step(lib, n, e).streams|
    ensures Step(lib, n, e).streams[i].link.ledger.submitted
            == n.streams[i].link.ledger.submitted
               + if Step(lib, n, e).crashed || !OnStream(e) || e.i != i then []
                 else NewIn(lib, n.streams[i], e, Ready(n))
  {
    if e.Signals? {
      SignaledStream(lib, n, e.e, i);
      RetryTakesUp(lib, n.streams[i], true);
    } else if e.Builds? {
    } else {
      Displacement.OwnStep(lib, n, e, i);
      SteppedTakesUp(lib, n.streams[i], e, Ready(n));
    }
  }

  lemma {:induction false} StepStartsEmpty(lib: Lib, n: Node, e: Event, i: nat)
    requires !n.crashed && |n.streams| <= i < |Step(lib, n, e).streams|
    ensures Step(lib, n, e).streams[i].link.ledger.submitted == []
  {
    if e.Signals? {
      FireAllLength(lib, n.streams, n.hub.waited);
    } else if e.Builds? {
      var dc, due := BuiltStream(n, e.handed, i);
    }
  }

  /** In every run, the batches a stream counts are exactly those handed to it, in order, up to
      the pending batch being handed in again. */
  lemma {:induction false} CountsWhatIsHandedIn(lib: Lib, events: seq<Event>, i: nat)
    requires i < |Run(lib, events).streams|
    ensures Run(lib, events).streams[i].link.ledger.submitted == HandedIn(lib, events, i, true)
  {
    if events == [] {
    } else {
      var front, e := events[..|events| - 1], events[|events| - 1];
      var n := Run(lib, front);
      RunKeepsHub(lib, front);
      if i < |n.streams| {
        CountsWhatIsHandedIn(lib, front, i);
        if !n.crashed { StepTakesUp(lib, n, e, i); }
      } else {
        NoneBefore(lib, front, i, true);
        if !n.crashed { StepStartsEmpty(lib, n, e, i); }
      }
    }
  }

  lemma PendingWasSubmitted(l: Ledger<Batch>, op: Batch)
    requires Balanced(l)
    ensures l.pending == Some(op) ==> op in l.submitted
  {
    if l.pending == Some(op) {
      assert BalancedAt(l, op);
      assert op in multiset(l.submitted);
    }
  }

  lemma {:induction false} AllNew(lib: Lib, s: Stream, ops: seq<Batch>, ready: bool)
    requires Balanced(s.link.ledger) && InOrder(s.link.ledger)
    requires NoDuplicates(s.link.ledger.submitted + ops)
    ensures NewOnes(lib, s, ops, ready) == ops
    decreases |ops|
  {
    if ops == [] {
    } else {
      var l, op := s.link.ledger, ops[0];
      PendingWasSubmitted(l, op);
      assert (l.submitted + ops)[|l.submitted|] == op;
      assert forall j | 0 <= j < |l.submitted| :: (l.submitted + ops)[j] == l.submitted[j];
      SubmitTakesUp(lib, s, op, ready);
      AttemptBalanced(l, op, s.link.dc == Some(Open));
      AttemptInOrder(l, op, s.link.dc == Some(Open));
      assert l.submitted + [op] + ops[1..] == l.submitted + ops;
      AllNew(lib, Submit(lib, s, op, ready), ops[1..], ready);
      assert [op] + ops[1..] == ops;
    }
  }

  lemma {:induction false} DistinctPrefix(s: seq<Batch>, t: seq<Batch>)
    requires NoDuplicates(s + t)
    ensures NoDuplicates(s)
  {
    assert forall i | 0 <= i < |s| :: (s + t)[i] == s[i];
  }

  lemma NewInIsAll(lib: Lib, s: Stream, e: Event, ready: bool)
    requires Balanced(s.link.ledger) && InOrder(s.link.ledger)
    requires NoDuplicates(s.link.ledger.submitted + HandsIn(s, e))
    ensures NewIn(lib, s, e, ready) == HandsIn(s, e)
  {
    AllNew(lib, if e.RunsClosure? && s.queues.scheduled != [] then Popped(s) else s, HandsIn(s, e), ready);
  }

  /** If no batch is handed in twice, the batches counted are the batches handed in. */
  lemma {:induction false} CountsAllDistinct(lib: Lib, events: seq<Event>, i: nat)
    requires i < |Run(lib, events).streams| && NoDuplicates(HandedIn(lib, events, i, false))
    ensures Run(lib, events).streams[i].link.ledger.submitted == HandedIn(lib, events, i, false)
  {
    if events == [] {
    } else {
      var front, e := events[..|events| - 1], events[|events| - 1];
      var n := Run(lib, front);
      RunKeepsHub(lib, front);
      if i < |n.streams| {
        var before, all := HandedIn(lib, front, i, false), HandedIn(lib, events, i, false);
        assert all == before + all[|before|..];
        DistinctPrefix(before, all[|before|..]);
        CountsAllDistinct(lib, front, i);
        if !n.crashed {
          RunKeepsStream(lib, front, i);
          StepTakesUp(lib, n, e, i);
          if !Step(lib, n, e).crashed && OnStream(e) && e.i == i {
            NewInIsAll(lib, n.streams[i], e, Ready(n));
          }
        }
      } else {
        NoneBefore(lib, front, i, false);
        if !n.crashed { StepStartsEmpty(lib, n, e, i); }
      }
    }
  }

  /** In every run, a batch handed to a stream has executed, was displaced, or is pending. */
  lemma {:induction false} HandedInIsAccounted(lib: Lib, events: seq<Event>, i: nat, op: Batch)
    requires i < |Run(lib, events).streams| && op in HandedIn(lib, events, i, true)
    ensures var l := Run(lib, events).streams[i].link.ledger;
            op in l.executed || op in l.displaced || l.pending == Some(op)
  {
    CountsWhatIsHandedIn(lib, events, i);
    RunKeepsStream(lib, events, i);
    var l := Run(lib, events).streams[i].link.ledger;
    assert BalancedAt(l, op) && op in multiset(l.submitted);
    OnceExactly(l.executed);
    OnceExactly(l.displaced);
  }

  /** Where callers are patient and hand in no batch twice, an open channel whose observer was
      told has executed all batches handed in, each once and in that order. */
  lemma {:induction false} PatienceIsServed(lib: Lib, events: seq<Event>, i: nat)
    requires i < |Run(lib, events).streams| && Displacement.Patient(lib, events, i)
    requires NoDuplicates(HandedIn(lib, events, i, false))
    requires var l := Run(lib, events).streams[i].link; l.dc == Some(Open) && !l.noticeDue
    ensures Run(lib, events).streams[i].link.ledger.executed == HandedIn(lib, events, i, false)
  {
    CountsAllDistinct(lib, events, i);
    Displacement.LosesExactly(lib, events, i);
    NoStrandedBatch(lib, events, i);
  }

  // In runs of two streams

  /** A step of one of two streams, as a step of a stream of a transport. */
  function AsStep(e: EndToEnd.Event): Event
    requires !e.FrameArrives? && !e.Retries?
  {
    match e
    case Submits(_, op, _) => Event.Submits(0, op)
    case RunsClosure(_, _) => Event.RunsClosure(0)
    case ChannelMoves(_, state) => Event.ChannelMoves(0, state)
    case IsTold(_, _) => Event.IsTold(0)
  }

  ghost function ReadyAt(e: EndToEnd.Event): bool { (e.Submits? || e.RunsClosure? || e.IsTold?) && e.ready }

  function SideOf(w: EndToEnd.World, atA: bool): Stream { if atA then w.a else w.b }

  ghost function HandedTo(lib: Lib, w: EndToEnd.World, events: seq<EndToEnd.Event>, atA: bool): seq<Batch> {
    if events == [] then []
    else
      var front, e := events[..|events| - 1], events[|events| - 1];
      var s := SideOf(EndToEnd.Run(lib, w, front), atA);
      HandedTo(lib, w, front, atA)
      + if e.FrameArrives? || e.Retries? || e.atA != atA then [] else NewIn(lib, s, AsStep(e), ReadyAt(e))
  }

  lemma LocalTakesUp(lib: Lib, s: Stream, e: EndToEnd.Event)
    requires !e.FrameArrives?
    ensures EndToEnd.Local(lib, s, e).link.ledger.submitted
            == s.link.ledger.submitted + if e.Retries? then [] else NewIn(lib, s, AsStep(e), ReadyAt(e))
  {
    if e.Retries? {
      RetryTakesUp(lib, s, e.ready);
    } else {
      SteppedTakesUp(lib, s, AsStep(e), ReadyAt(e));
      match e {
        case Submits(_, _, _) =>
        case RunsClosure(_, _) =>
        case ChannelMoves(_, _) =>
        case IsTold(_, _) =>
      }
    }
  }

  /** In every run of two streams, too, each counts exactly what it was handed. */
  lemma {:induction false} BothCount(lib: Lib, w: EndToEnd.World, events: seq<EndToEnd.Event>, atA: bool)
    requires EndToEnd.Initial(w)
    ensures SideOf(EndToEnd.Run(lib, w, events), atA).link.ledger.submitted == HandedTo(lib, w, events, atA)
  {
    if events == [] {
    } else {
      var front, e := events[..|events| - 1], events[|events| - 1];
      BothCount(lib, w, front, atA);
      if !e.FrameArrives? && e.atA == atA {
        LocalTakesUp(lib, SideOf(EndToEnd.Run(lib, w, front), atA), e);
      }
    }
  }
}
