/**
The slice loop that sends a message (`src/ayame_transport.h`, lines 278-299): it pulls
slices from a byte stream and sends each as one frame until nothing remains or a pull fails.
*/
module ByteStream {
  import opened Wrappers

  datatype Pull = Slice(bytes: Buffer) | PullFailed

  /** A byte stream: the length it announces and the results its pulls will give. */
  datatype Source = Source(length: nat, pulls: seq<Pull>)

  /** Number of values of `size_t`; `remaining` wraps around at it. */
  const SIZE_VALUES: nat := 0x1_0000_0000_0000_0000

  /** The slices before the first failed pull. */
  function Slices(pulls: seq<Pull>): seq<Buffer> {
    if pulls == [] || pulls[0].PullFailed? then [] else [pulls[0].bytes] + Slices(pulls[1..])
  }

  function Concat(slices: seq<Buffer>): Buffer {
    if slices == [] then [] else slices[0] + Concat(slices[1..])
  }

  /** The contract of a byte stream: a slice fits an `int`, and the slices make up the
      announced length unless a pull fails first. */
  ghost predicate Supplies(pulls: seq<Pull>, length: nat) {
    && pulls != [] && length < SIZE_VALUES
    && (forall i | 0 <= i < |pulls| && pulls[i].Slice? :: |pulls[i].bytes| < 0x8000_0000)
    && |Concat(Slices(pulls))| <= length
    && (PullFailed !in pulls ==> |Concat(Slices(pulls))| == length)
  }

  ghost function EmptyMessage(): (s: Source)
    ensures Supplies(s.pulls, s.length)
  {
    var s := Source(0, [Slice([])]);
    assert Slices(s.pulls) == [[]];
    s
  }

  type Message = s: Source | Supplies(s.pulls, s.length)
    ghost witness EmptyMessage()

  /** The frames the loop sends; it is a do-while, so the first pull happens in any case. */
  function Sent(pulls: seq<Pull>, remaining: nat): seq<Buffer> {
    if pulls == [] || pulls[0].PullFailed? then []
    else [pulls[0].bytes] + if remaining > |pulls[0].bytes| then Sent(pulls[1..], remaining - |pulls[0].bytes|) else []
  }

  function SentFrames(m: Source): seq<Buffer> { Sent(m.pulls, m.length) }

  lemma SuppliesStep(pulls: seq<Pull>, remaining: nat)
    requires Supplies(pulls, remaining) && pulls[0].Slice?
    ensures |pulls[0].bytes| <= remaining
    ensures remaining > |pulls[0].bytes| ==> Supplies(pulls[1..], remaining - |pulls[0].bytes|)
  {
    var rest := pulls[1..];
    assert pulls == [pulls[0]] + rest;
    assert Slices(pulls)[1..] == Slices(rest);
    assert Concat(Slices(pulls)) == pulls[0].bytes + Concat(Slices(rest));
  }

  /** What the loop needs pull by pull: one more is there, and it does not overshoot. */
  ghost predicate LoopReady(pulls: seq<Pull>, remaining: int) {
    && pulls != [] && 0 <= remaining < SIZE_VALUES
    && (pulls[0].Slice? ==>
          && |pulls[0].bytes| <= remaining && |pulls[0].bytes| < 0x8000_0000
          && (remaining > |pulls[0].bytes| ==> LoopReady(pulls[1..], remaining - |pulls[0].bytes|)))
  }

  lemma {:induction false} ContractSuffices(pulls: seq<Pull>, remaining: nat)
    requires Supplies(pulls, remaining)
    ensures LoopReady(pulls, remaining)
  {
    if pulls[0].PullFailed? {
    } else {
      SuppliesStep(pulls, remaining);
      if remaining > |pulls[0].bytes| {
        ContractSuffices(pulls[1..], remaining - |pulls[0].bytes|);
      }
    }
  }

  /** `remaining -= length` in `size_t` arithmetic. */
  function Reduced(remaining: int, length: nat): (r: nat)
    ensures length <= remaining < SIZE_VALUES ==> r == remaining - length
  {
    (remaining - length) % SIZE_VALUES
  }

  /** One round of the loop, with the pulls that are left given by position. */
  lemma LoopStep(pulls: seq<Pull>, next: nat, remaining: nat)
    requires next <= |pulls| && LoopReady(pulls[next..], remaining)
    ensures next < |pulls|
    ensures pulls[next].PullFailed? ==> Sent(pulls[next..], remaining) == []
    ensures pulls[next].Slice? ==>
              var n := |pulls[next].bytes|;
              && n <= remaining < SIZE_VALUES
              && (remaining > n ==> LoopReady(pulls[next + 1..], remaining - n))
              && Sent(pulls[next..], remaining)
                 == [pulls[next].bytes] + if remaining > n then Sent(pulls[next + 1..], remaining - n) else []
  {
    assert pulls[next..][0] == pulls[next] && pulls[next..][1..] == pulls[next + 1..];
  }

  lemma Regroup(sent: seq<Buffer>, slice: Buffer, rest: seq<Buffer>)
    ensures sent + ([slice] + rest) == (sent + [slice]) + rest
  {
  }

  method SendPulls(pulls: seq<Pull>, length: nat) returns (sent: seq<Buffer>)
    requires LoopReady(pulls, length)
    ensures sent == Sent(pulls, length)
  {
    var remaining: nat := length;
    var next := 0;
    var again := true;
    sent := [];
    ghost var tail := Sent(pulls, length);
    while again
      invariant next <= |pulls|
      invariant again ==> LoopReady(pulls[next..], remaining)
      invariant tail == if again then Sent(pulls[next..], remaining) else []
      invariant Sent(pulls, length) == sent + tail
      decreases |pulls| - next, again
    {
      LoopStep(pulls, next, remaining);
      if pulls[next].PullFailed? {
        break;
      }
      var slice := pulls[next].bytes;
      ghost var rest := if remaining > |slice| then Sent(pulls[next + 1..], remaining - |slice|) else [];
      Regroup(sent, slice, rest);
      sent, tail := sent + [slice], rest;
      remaining := Reduced(remaining, |slice|);
      again := remaining > 0;
      next := next + 1;
    }
  }

  /** The loop itself; its invariant shows that `remaining` never underflows. */
  method SendMessage(message: Message) returns (sent: seq<Buffer>)
    ensures sent == SentFrames(message)
  {
    ContractSuffices(message.pulls, message.length);
    sent := SendPulls(message.pulls, message.length);
  }

  lemma ConcatFirst(b: Buffer, rest: seq<Buffer>)
    ensures Concat([b] + rest) == b + Concat(rest)
  {
    assert ([b] + rest)[1..] == rest;
  }

  lemma {:induction false} SentCarriesAll(pulls: seq<Pull>, remaining: nat)
    requires Supplies(pulls, remaining)
    ensures Concat(Sent(pulls, remaining)) == Concat(Slices(pulls))
    ensures pulls[0].Slice? ==> Sent(pulls, remaining) != []
  {
    if pulls[0].PullFailed? {
    } else {
      var b, rest := pulls[0].bytes, pulls[1..];
      SuppliesStep(pulls, remaining);
      ConcatFirst(b, Slices(rest));
      if remaining > |b| {
        SentCarriesAll(rest, remaining - |b|);
        ConcatFirst(b, Sent(rest, remaining - |b|));
      } else {
        ConcatFirst(b, []);
        assert |Concat(Slices(rest))| == 0;
      }
    }
  }

  /** The loop comes to a pull that fails. */
  predicate MeetsFailure(pulls: seq<Pull>, remaining: nat) {
    pulls != [] &&
    match pulls[0]
    case PullFailed => true
    case Slice(bytes) => remaining > |bytes| && MeetsFailure(pulls[1..], remaining - |bytes|)
  }

  lemma {:induction false} FailureLosesBytes(pulls: seq<Pull>, remaining: nat)
    requires Supplies(pulls, remaining)
    ensures |Concat(Sent(pulls, remaining))| == remaining <==> !MeetsFailure(pulls, remaining) || remaining == 0
  {
    if pulls[0].PullFailed? {
    } else {
      var b, rest := pulls[0].bytes, pulls[1..];
      SuppliesStep(pulls, remaining);
      if remaining > |b| {
        FailureLosesBytes(rest, remaining - |b|);
        ConcatFirst(b, Sent(rest, remaining - |b|));
      } else {
        ConcatFirst(b, []);
      }
    }
  }

  /** The bytes sent are, in order, the bytes pulled before the first failure. They are the
      whole announced message exactly unless the loop comes to a pull that fails; if no pull
      fails, at least one frame goes out, even for an empty message. */
  lemma MessageExact(m: Message)
    ensures Concat(SentFrames(m)) == Concat(Slices(m.pulls))
    ensures |Concat(SentFrames(m))| == m.length <==> !MeetsFailure(m.pulls, m.length) || m.length == 0
    ensures PullFailed !in m.pulls ==> |Concat(SentFrames(m))| == m.length && SentFrames(m) != []
  {
    SentCarriesAll(m.pulls, m.length);
    FailureLosesBytes(m.pulls, m.length);
  }

  /** The first slice is the message, or all of it that comes before a failing pull. */
  predicate OneFrame(m: Source) {
    && m.pulls != [] && m.pulls[0].Slice?
    && (|m.pulls[0].bytes| == m.length || (|m.pulls| > 1 && m.pulls[1].PullFailed?))
  }

  /** What a caller can see beforehand of whether a message goes out in one frame. */
  lemma OneFrameExactly(m: Message)
    ensures |SentFrames(m)| == 1 <==> OneFrame(m)
    ensures PullFailed !in m.pulls ==> (OneFrame(m) <==> |m.pulls[0].bytes| == m.length)
  {
    var first := m.pulls[0];
    if first.Slice? && m.length > |first.bytes| {
      SuppliesStep(m.pulls, m.length);
      var rest, left := m.pulls[1..], m.length - |first.bytes|;
      assert rest[0] == m.pulls[1] && SentFrames(m) == [first.bytes] + Sent(rest, left);
      assert Sent(rest, left) == [] <==> rest[0].PullFailed?;
    } else if first.Slice? {
      SuppliesStep(m.pulls, m.length);
    }
  }

  lemma PrefixesStayBelow(b: Buffer, sent: seq<Buffer>, k: nat, limit: nat)
    requires 0 < k <= |sent| && |Concat(sent[..k - 1])| + |b| < limit
    ensures |Concat(([b] + sent)[..k])| < limit
  {
    assert ([b] + sent)[..k] == [b] + sent[..k - 1];
    ConcatFirst(b, sent[..k - 1]);
  }

  /** The frames are the slices pulled, each one frame, up to the one that completes the length. */
  lemma {:induction false} SentIsPrefix(pulls: seq<Pull>, remaining: nat)
    requires Supplies(pulls, remaining)
    ensures Sent(pulls, remaining) <= Slices(pulls)
    ensures forall k | 0 < k < |Sent(pulls, remaining)| :: |Concat(Sent(pulls, remaining)[..k])| < remaining
    ensures Sent(pulls, remaining) == Slices(pulls) || |Concat(Sent(pulls, remaining))| == remaining
  {
    if pulls[0].PullFailed? {
    } else {
      var b, rest := pulls[0].bytes, pulls[1..];
      SuppliesStep(pulls, remaining);
      ConcatFirst(b, []);
      if remaining > |b| {
        var sent := Sent(rest, remaining - |b|);
        SentIsPrefix(rest, remaining - |b|);
        ConcatFirst(b, sent);
        forall k | 0 < k <= |sent|
          ensures |Concat(([b] + sent)[..k])| < remaining
        {
          PrefixesStayBelow(b, sent, k, remaining);
        }
      }
    }
  }
}
