/**
The accounting of `pending_op_`: which submitted items ran, which one waits in the single
slot, and which were lost to it. Generic, because nothing here depends on what a batch is.
*/
module Ledger {
  import opened Wrappers

  datatype Ledger<T> = Ledger(pending: Option<T>, submitted: seq<T>, executed: seq<T>, displaced: seq<T>)

  function Empty<T>(): Ledger<T> { Ledger(None, [], [], []) }

  ghost predicate OtherPending<T>(l: Ledger<T>, x: T) { l.pending.Some? && l.pending.value != x }

  /** A caller hands in `x`. Handing in the pending item again is not a new submission. */
  ghost function Counted<T>(l: Ledger<T>, x: T): Ledger<T> {
    if l.pending == Some(x) then l else l.(submitted := l.submitted + [x])
  }

  /** The item is tried: an open channel runs it and clears the slot, a shut one keeps it in
      the slot unless the slot holds another. */
  ghost function Attempted<T>(l: Ledger<T>, x: T, open: bool): Ledger<T> {
    if open then
      Ledger(None, l.submitted, l.executed + [x],
             if OtherPending(l, x) then l.displaced + [l.pending.value] else l.displaced)
    else if OtherPending(l, x) then l.(displaced := l.displaced + [x])
    else l.(pending := Some(x))
  }

  ghost function Count<T>(s: seq<T>, x: T): nat { multiset(s)[x] }

  /** The item `x` is executed, pending or displaced exactly as often as it was submitted. */
  ghost predicate BalancedAt<T>(l: Ledger<T>, x: T) {
    Count(l.submitted, x) == Count(l.executed, x) + (if l.pending == Some(x) then 1 else 0) + Count(l.displaced, x)
  }

  ghost predicate Balanced<T(!new)>(l: Ledger<T>) {
    forall x :: BalancedAt(l, x)
  }

  /** Unless one was displaced, items execute in submission order. */
  ghost predicate InOrder<T>(l: Ledger<T>) {
    l.displaced == [] ==> l.submitted == l.executed + ToSeq(l.pending)
  }

  lemma CountAppend<T>(s: seq<T>, y: T)
    ensures forall x :: Count(s + [y], x) == Count(s, x) + if x == y then 1 else 0
  {
  }

  lemma EmptyOk<T(!new)>()
    ensures Balanced(Empty<T>()) && InOrder(Empty<T>())
  {
  }

  lemma CountOne<T>(s: seq<T>, y: T, x: T)
    ensures Count(s + [y], x) == Count(s, x) + if x == y then 1 else 0
  {
    CountAppend(s, y);
  }

  lemma AttemptBalancedAt<T>(l: Ledger<T>, x: T, open: bool, y: T)
    requires BalancedAt(l, y)
    ensures BalancedAt(Attempted(Counted(l, x), x, open), y)
  {
    CountOne(l.submitted, x, y);
    CountOne(l.executed, x, y);
    CountOne(l.displaced, x, y);
    if l.pending.Some? {
      CountOne(l.displaced, l.pending.value, y);
    }
  }

  lemma AttemptBalanced<T(!new)>(l: Ledger<T>, x: T, open: bool)
    requires Balanced(l)
    ensures Balanced(Attempted(Counted(l, x), x, open))
  {
    forall y
      ensures BalancedAt(Attempted(Counted(l, x), x, open), y)
    {
      AttemptBalancedAt(l, x, open, y);
    }
  }

  lemma AttemptInOrder<T>(l: Ledger<T>, x: T, open: bool)
    requires InOrder(l)
    ensures InOrder(Attempted(Counted(l, x), x, open))
  {
    var r := Attempted(Counted(l, x), x, open);
    if r.displaced == [] {
      assert l.displaced == [] && (l.pending.None? || l.pending == Some(x));
      assert l.executed + [] == l.executed && (l.executed + [x]) + [] == l.executed + [x];
    }
  }

  ghost predicate NoDuplicates<T>(s: seq<T>) {
    forall i, j | 0 <= i < j < |s| :: s[i] != s[j]
  }

  lemma {:induction false} OnceExactly<T>(s: seq<T>)
    ensures NoDuplicates(s) <==> forall x :: Count(s, x) <= 1
    ensures forall x :: x in s <==> Count(s, x) > 0
  {
    if s == [] {
    } else {
      var front, last := s[..|s| - 1], s[|s| - 1];
      assert s == front + [last];
      OnceExactly(front);
      CountAppend(front, last);
      if NoDuplicates(s) {
        assert last !in front;
      }
      if forall x :: Count(s, x) <= 1 {
        assert Count(s, last) <= 1;
        assert forall x :: Count(front, x) <= Count(s, x);
      }
    }
  }

  /** If nothing is submitted twice, nothing executes twice, and what executed is neither
      pending nor displaced. */
  lemma ExecutedAtMostOnce<T(!new)>(l: Ledger<T>)
    requires Balanced(l) && NoDuplicates(l.submitted)
    ensures NoDuplicates(l.executed)
    ensures forall x | x in l.executed :: x !in l.displaced && l.pending != Some(x)
  {
    OnceExactly(l.submitted);
    OnceExactly(l.executed);
    OnceExactly(l.displaced);
    forall x
      ensures Count(l.executed, x) + (if l.pending == Some(x) then 1 else 0) + Count(l.displaced, x) <= 1
    {
      assert BalancedAt(l, x);
    }
  }
}
