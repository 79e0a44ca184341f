/**
The write half of `AyameSignaling` (`src/ayame_signaling.cpp`, lines 484-525): texts queue
up in `write_buffer_`, and one asynchronous write at a time works on the buffer in front.
*/
module WriteQueue {
  import opened Wrappers

  /** The writer as a value: what is queued, whether a write is under way, whether one failed,
      and the histories of texts handed in and texts completely written. */
  datatype Writer = Writer(
    queue: seq<Buffer>,
    writing: bool,
    failed: bool,
    submitted: seq<Buffer>,
    written: seq<Buffer>)

  datatype Event = Submits(text: Buffer) | Finishes(ok: bool)

  function Step(w: Writer, e: Event): Writer {
    match e
    case Submits(text) =>
      w.(queue := w.queue + [text], submitted := w.submitted + [text], writing := w.writing || w.queue == [])
    case Finishes(ok) =>
      if !w.writing || w.queue == [] then w
      else if !ok then w.(writing := false, failed := true)
      else w.(queue := w.queue[1..], written := w.written + [w.queue[0]], writing := |w.queue| > 1)
  }

  function Run(events: seq<Event>): Writer {
    if events == [] then Writer([], false, false, [], [])
    else Step(Run(events[..|events| - 1]), events[|events| - 1])
  }

  ghost predicate WriterOk(w: Writer) {
    && w.written + w.queue == w.submitted
    && (w.writing <==> w.queue != [] && !w.failed)
    && (w.failed ==> w.queue != [])
  }

  lemma StepKeeps(w: Writer, e: Event)
    requires WriterOk(w)
    ensures WriterOk(Step(w, e))
    ensures w.failed ==> Step(w, e).failed && Step(w, e).written == w.written
  {
    if e.Finishes? && w.writing && e.ok {
      assert w.written + [w.queue[0]] + w.queue[1..] == w.written + w.queue;
    } else if e.Submits? {
      assert w.written + (w.queue + [e.text]) == w.written + w.queue + [e.text];
    }
  }

  function Texts(events: seq<Event>): seq<Buffer> {
    if events == [] then []
    else
      var e := events[|events| - 1];
      Texts(events[..|events| - 1]) + if e.Submits? then [e.text] else []
  }

  /** In every run the texts completely written are a prefix of the texts submitted and the
      queue is the rest; a write is under way exactly while something is queued, until one fails. */
  lemma {:induction false} RunOrdered(events: seq<Event>)
    ensures WriterOk(Run(events))
    ensures Run(events).submitted == Texts(events)
    ensures Run(events).written <= Texts(events)
  {
    if events == [] {
    } else {
      RunOrdered(events[..|events| - 1]);
      StepKeeps(Run(events[..|events| - 1]), events[|events| - 1]);
    }
  }

  /** How many writes were completed and whether one failed, told from the events alone: only a
      result that comes while no write failed and a text is left counts. */
  function Progress(events: seq<Event>): (nat, bool) {
    if events == [] then (0, false)
    else
      var front, e := events[..|events| - 1], events[|events| - 1];
      var (n, failed) := Progress(front);
      if e.Submits? || failed || n >= |Texts(front)| then (n, failed)
      else if e.ok then (n + 1, false)
      else (n, true)
  }

  /** The writer that wrote the first `n` of these texts. */
  function Wrote(texts: seq<Buffer>, n: nat, failed: bool): Writer
    requires n <= |texts|
  {
    Writer(texts[n..], !failed && n < |texts|, failed, texts, texts[..n])
  }

  lemma SubmittingExactly(texts: seq<Buffer>, n: nat, failed: bool, text: Buffer)
    requires n <= |texts| && (failed ==> n < |texts|)
    ensures Step(Wrote(texts, n, failed), Submits(text)) == Wrote(texts + [text], n, failed)
  {
    assert texts[n..] + [text] == (texts + [text])[n..] && (texts + [text])[..n] == texts[..n];
  }

  lemma FinishingExactly(texts: seq<Buffer>, n: nat, failed: bool, ok: bool)
    requires n <= |texts| && (failed ==> n < |texts|)
    ensures Step(Wrote(texts, n, failed), Finishes(ok))
            == if failed || n == |texts| then Wrote(texts, n, failed)
               else if ok then Wrote(texts, n + 1, false) else Wrote(texts, n, true)
  {
    if n < |texts| {
      assert texts[n..][1..] == texts[n + 1..] && texts[..n] + [texts[n]] == texts[..n + 1];
    }
  }

  /** In every run the writer is exactly what the events say: as many texts were written as
      writes succeeded, the rest is queued, and a write is under way while there is a rest and
      none failed. */
  lemma {:induction false} WritesExactly(events: seq<Event>)
    ensures var (n, failed) := Progress(events);
            && n <= |Texts(events)| && (failed ==> n < |Texts(events)|)
            && Run(events) == Wrote(Texts(events), n, failed)
  {
    if events == [] {
    } else {
      var front, e := events[..|events| - 1], events[|events| - 1];
      WritesExactly(front);
      var (n, failed) := Progress(front);
      match e {
        case Submits(text) => SubmittingExactly(Texts(front), n, failed, text);
        case Finishes(ok) =>
          assert Texts(front) + [] == Texts(front);
          FinishingExactly(Texts(front), n, failed, ok);
      }
    }
  }

  /** Some write that was under way failed. */
  predicate SomeFailed(events: seq<Event>) {
    exists k | 0 <= k < |events| :: events[k] == Finishes(false) && Run(events[..k]).writing
  }

  lemma {:induction false} SomeFailedStep(front: seq<Event>, e: Event)
    ensures SomeFailed(front + [e]) <==> SomeFailed(front) || (e == Finishes(false) && Run(front).writing)
  {
    var events := front + [e];
    assert forall k | 0 <= k < |front| :: events[k] == front[k] && events[..k] == front[..k];
    assert events[..|front|] == front && events[|front|] == e;
    if SomeFailed(front) {
      var k :| 0 <= k < |front| && front[k] == Finishes(false) && Run(front[..k]).writing;
      assert events[k] == Finishes(false) && Run(events[..k]).writing;
    }
  }

  lemma StepFails(w: Writer, e: Event)
    requires WriterOk(w)
    ensures Step(w, e).failed <==> w.failed || (e == Finishes(false) && w.writing)
  {
  }

  /** A write failed exactly if some write that was under way did. */
  lemma {:induction false} FailedExactly(events: seq<Event>)
    ensures Run(events).failed <==> SomeFailed(events)
  {
    if events == [] {
    } else {
      var front, e := events[..|events| - 1], events[|events| - 1];
      FailedExactly(front);
      RunOrdered(front);
      StepFails(Run(front), e);
      SomeFailedStep(front, e);
      assert front + [e] == events;
    }
  }

  lemma {:induction false} StaysFailed(before: seq<Event>, after: seq<Event>)
    requires Run(before).failed
    ensures Run(before + after).failed && !Run(before + after).writing
    ensures Run(before + after).written == Run(before).written
    decreases |after|
  {
    RunOrdered(before + after);
    if after == [] {
      assert before + after == before;
    } else {
      var last := |after| - 1;
      StaysFailed(before, after[..last]);
      RunOrdered(before + after[..last]);
      assert (before + after)[..|before + after| - 1] == before + after[..last];
      StepKeeps(Run(before + after[..last]), after[last]);
    }
  }

  /** Once a write fails, no write is under way any more and nothing is ever written again,
      whatever follows. */
  lemma FailureIsFinal(before: seq<Event>, after: seq<Event>)
    requires Run(before).writing
    ensures var r := Run(before + [Finishes(false)] + after);
            r.failed && !r.writing && r.written == Run(before).written
  {
    RunOrdered(before);
    var failing := before + [Finishes(false)];
    assert failing[..|before|] == before;
    StaysFailed(failing, after);
  }

  function Successes(n: nat): seq<Event> { seq(n, _ => Finishes(true)) }

  /** As long as no write failed, letting the queued writes finish puts every text on the wire, in order. */
  lemma {:induction false} Drains(events: seq<Event>)
    requires !Run(events).failed
    ensures Run(events + Successes(|Run(events).queue|)).written == Texts(events)
    decreases |Run(events).queue|
  {
    RunOrdered(events);
    var w := Run(events);
    if w.queue == [] {
      assert events + Successes(0) == events;
    } else {
      var next := events + [Finishes(true)];
      assert next[..|next| - 1] == events;
      Drains(next);
      assert next + Successes(|w.queue| - 1) == events + Successes(|w.queue|);
    }
  }

  /** `write_buffer_` is a vector of heap buffers; the write under way holds on to the memory
      of the front one, so identity matters and the buffers are arrays here. */
  class SignalingWriter {
    var writeBuffer: seq<array<byte>>
    var inFlight: array?<byte>
    ghost var startedWith: Buffer
    ghost var failed: bool
    ghost var submitted: seq<Buffer>
    ghost var written: seq<Buffer>

    ghost function Contents(): seq<Buffer>
      reads this, writeBuffer
    {
      seq(|writeBuffer|, i requires 0 <= i < |writeBuffer| reads this, writeBuffer => writeBuffer[i][..])
    }

    ghost function Value(): Writer
      reads this, writeBuffer
    {
      Writer(Contents(), inFlight != null, failed, submitted, written)
    }

    /** The write under way works on the front buffer, which still holds what it held at the start. */
    ghost predicate Valid()
      reads this, writeBuffer
    {
      && WriterOk(Value())
      && (inFlight != null ==> writeBuffer != [] && inFlight == writeBuffer[0] && inFlight[..] == startedWith)
    }

    constructor ()
      ensures Valid() && Value() == Run([])
    {
      writeBuffer, inFlight := [], null;
      startedWith, failed, submitted, written := [], false, [], [];
    }

    method DoSendText(text: Buffer)
      requires Valid()
      modifies this
      ensures Valid() && Value() == Step(old(Value()), Submits(text))
      ensures old(inFlight) != null ==> inFlight == old(inFlight) && startedWith == old(startedWith)
    {
      ghost var before := Value();
      var empty := writeBuffer == [];
      var buffer := new byte[|text|];
      CopyInto(buffer, text);
      writeBuffer := writeBuffer + [buffer];
      submitted := submitted + [text];
      assert Contents() == before.queue + [text];
      StepKeeps(before, Submits(text));
      if empty {
        DoWrite();
      }
    }

    /** `boost::asio::buffer_copy` into the prepared buffer. */
    static method CopyInto(buffer: array<byte>, text: Buffer)
      requires buffer.Length == |text|
      modifies buffer
      ensures buffer[..] == text
    {
      for i := 0 to |text|
        invariant buffer[..i] == text[..i]
      {
        buffer[i] := text[i];
      }
    }

    method DoWrite()
      requires writeBuffer != []
      modifies this`inFlight, this`startedWith
      ensures inFlight == writeBuffer[0] && startedWith == inFlight[..]
    {
      inFlight := writeBuffer[0];
      startedWith := inFlight[..];
    }

    /** The completion handler of the write under way. */
    method OnWrite(ok: bool)
      requires Valid() && inFlight != null
      modifies this
      ensures Valid() && Value() == Step(old(Value()), Finishes(ok))
      ensures ok ==> written == old(written) + [old(startedWith)] && writeBuffer == old(writeBuffer)[1..]
      ensures !ok ==> written == old(written) && writeBuffer == old(writeBuffer) && inFlight == null
    {
      ghost var before := Value();
      StepKeeps(before, Finishes(ok));
      inFlight := null;
      if !ok {
        failed := true;
        return;
      }
      written := written + [startedWith];
      writeBuffer := writeBuffer[1..];
      assert Contents() == before.queue[1..];
      if writeBuffer != [] {
        DoWrite();
      }
    }
  }
}
