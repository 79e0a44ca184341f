/**
Call metadata on its way through a JSON text: the send loops of `PerformOp`, which
fill a `nlohmann::json` object through C strings, and the receive continuations, which
append its members to a metadata batch. JSON text itself is abstract: a `Lib` holds the
two conversions and what is assumed of them.
*/
module Metadata {
  import opened Wrappers

  datatype Pair = Pair(key: Buffer, value: Buffer)

  /** A JSON value as the code iterates over it: an object in key order, null not at all.
      `Broken`: what comes before an element that is no string. */
  datatype Json = Null | Object(members: seq<Pair>) | Broken(members: seq<Pair>)

  /** Byte-wise lexicographic order, the order of `std::map<std::string, …>`. */
  predicate Less(a: Buffer, b: Buffer) {
    b != [] && (a == [] || a[0] < b[0] || (a[0] == b[0] && Less(a[1..], b[1..])))
  }

  predicate Sorted(s: seq<Pair>) {
    forall i, j | 0 <= i < j < |s| :: Less(s[i].key, s[j].key)
  }

  function Members(j: Json): seq<Pair> {
    match j
    case Null => []
    case Object(members) => members
    case Broken(members) => members
  }

  /** The JSON library, the strings it takes for text (valid UTF-8), and the header names of which
      a batch admits one element only. `parse` is `None` where the library throws. */
  datatype Lib = Lib(
    dump: Json -> Buffer,
    parse: Buffer -> Option<Json>,
    isText: Buffer -> bool,
    callouts: set<Buffer>)

  predicate IsText(lib: Lib, p: Pair) { lib.isText(p.key) && lib.isText(p.value) }

  ghost predicate AllText(lib: Lib, md: seq<Pair>) { forall p | p in md :: IsText(lib, p) }

  ghost predicate ValidJson(lib: Lib, j: Json) {
    match j
    case Null => true
    case Object(members) => Sorted(members) && AllText(lib, members)
    case Broken(_) => false
  }

  /** `grpc_slice_to_c_string` read back as a C string: it ends at the first NUL. */
  function CString(s: Buffer): Buffer {
    if s == [] || s[0] == 0 then [] else [s[0]] + CString(s[1..])
  }

  /** What is assumed of the library: it reads back what it wrote, and text cut at a NUL is text. */
  ghost predicate LibOk(lib: Lib) {
    && (forall j :: ValidJson(lib, j) ==> lib.parse(lib.dump(j)) == Some(j))
    && (forall s :: lib.isText(s) ==> lib.isText(CString(s)))
  }

  // The order is a strict total order

  lemma {:induction false} LessTransitive(a: Buffer, b: Buffer, c: Buffer)
    requires Less(a, b) && Less(b, c)
    ensures Less(a, c)
  {
    if a == [] || a[0] != b[0] || b[0] != c[0] {
    } else {
      LessTransitive(a[1..], b[1..], c[1..]);
    }
  }

  lemma {:induction false} LessTotal(a: Buffer, b: Buffer)
    ensures !(Less(a, b) && Less(b, a)) && !Less(a, a)
    ensures Less(a, b) || a == b || Less(b, a)
  {
    if a == [] {
    } else {
      LessTotal(a[1..], a[1..]);
      if b != [] && a[0] == b[0] {
        LessTotal(a[1..], b[1..]);
        assert a == [a[0]] + a[1..] && b == [b[0]] + b[1..];
      }
    }
  }

  // What a list of pairs means

  /** The map a list denotes: of equal keys the last one wins. */
  function Meaning(s: seq<Pair>): map<Buffer, Buffer> {
    if s == [] then map[] else Meaning(s[..|s| - 1])[s[|s| - 1].key := s[|s| - 1].value]
  }

  ghost predicate HasKey(s: seq<Pair>, k: Buffer) {
    exists i | 0 <= i < |s| :: s[i].key == k
  }

  ghost predicate DistinctKeys(s: seq<Pair>) {
    forall i, j | 0 <= i < j < |s| :: s[i].key != s[j].key
  }

  lemma {:induction false} KeysOfMeaning(s: seq<Pair>, k: Buffer)
    ensures k in Meaning(s) <==> HasKey(s, k)
  {
    if s == [] {
    } else {
      var front, last := s[..|s| - 1], s[|s| - 1];
      KeysOfMeaning(front, k);
      if HasKey(front, k) {
        var i :| 0 <= i < |front| && front[i].key == k;
        assert s[i].key == k;
      }
      assert s[|s| - 1].key == last.key;
    }
  }

  lemma {:induction false} LastWinsAt(s: seq<Pair>, i: nat)
    requires i < |s| && forall j | i < j < |s| :: s[j].key != s[i].key
    ensures s[i].key in Meaning(s) && Meaning(s)[s[i].key] == s[i].value
  {
    if i == |s| - 1 {
    } else {
      LastWinsAt(s[..|s| - 1], i);
    }
  }

  /** The map has exactly the keys of the list, each with its last value. */
  lemma LastWins(s: seq<Pair>)
    ensures forall k :: k in Meaning(s) <==> HasKey(s, k)
    ensures forall i | 0 <= i < |s| && (forall j | i < j < |s| :: s[j].key != s[i].key) ::
              s[i].key in Meaning(s) && Meaning(s)[s[i].key] == s[i].value
  {
    forall k
      ensures k in Meaning(s) <==> HasKey(s, k)
    {
      KeysOfMeaning(s, k);
    }
    forall i | 0 <= i < |s| && (forall j | i < j < |s| :: s[j].key != s[i].key)
      ensures s[i].key in Meaning(s) && Meaning(s)[s[i].key] == s[i].value
    {
      LastWinsAt(s, i);
    }
  }

  lemma SortedIsDistinct(s: seq<Pair>)
    requires Sorted(s)
    ensures DistinctKeys(s)
  {
    forall i, j | 0 <= i < j < |s|
      ensures s[i].key != s[j].key
    {
      LessTotal(s[i].key, s[j].key);
    }
  }

  /** With distinct keys, meaning can be read off from the front as well. */
  lemma {:induction false} MeaningOfTail(s: seq<Pair>)
    requires s != [] && DistinctKeys(s)
    ensures s[0].key !in Meaning(s[1..])
    ensures Meaning(s) == Meaning(s[1..])[s[0].key := s[0].value]
  {
    var last := |s| - 1;
    if last == 0 {
    } else {
      MeaningOfTail(s[..last]);
      assert s[..last][1..] == s[1..][..last - 1];
    }
  }

  lemma MeaningOfSortedTail(s: seq<Pair>)
    requires s != [] && Sorted(s)
    ensures s[0].key !in Meaning(s[1..])
    ensures Meaning(s) == Meaning(s[1..])[s[0].key := s[0].value]
  {
    SortedIsDistinct(s);
    MeaningOfTail(s);
  }

  lemma MeaningNonEmpty(s: seq<Pair>)
    ensures s != [] ==> Meaning(s) != map[]
  {
    if s != [] {
      assert s[|s| - 1].key in Meaning(s);
    }
  }

  lemma SameFirst(s: seq<Pair>, t: seq<Pair>)
    requires s != [] && t != [] && Sorted(s) && Sorted(t) && Meaning(s) == Meaning(t)
    ensures s[0].key == t[0].key
  {
    LastWins(s);
    LastWins(t);
    assert HasKey(s, s[0].key) && HasKey(t, t[0].key);
    assert s[0].key in Meaning(t) && t[0].key in Meaning(s);
    var i :| 0 <= i < |t| && t[i].key == s[0].key;
    var j :| 0 <= j < |s| && s[j].key == t[0].key;
    LessTotal(s[0].key, t[0].key);
  }

  /** A strictly sorted list is determined by its meaning. */
  lemma {:induction false} SortedIsCanonical(s: seq<Pair>, t: seq<Pair>)
    requires Sorted(s) && Sorted(t) && Meaning(s) == Meaning(t)
    ensures s == t
  {
    MeaningNonEmpty(s);
    MeaningNonEmpty(t);
    if s == [] || t == [] {
    } else {
      SameFirst(s, t);
      MeaningOfSortedTail(s);
      MeaningOfSortedTail(t);
      var k := s[0].key;
      assert Meaning(s[1..]) == Meaning(s) - {k};
      assert Meaning(t[1..]) == Meaning(t) - {k};
      SortedIsCanonical(s[1..], t[1..]);
      assert Meaning(s)[k] == s[0].value && Meaning(t)[k] == t[0].value;
      assert s == [s[0]] + s[1..] && t == [t[0]] + t[1..];
    }
  }

  // Sending

  predicate NulFree(s: Buffer) { 0 !in s }

  lemma {:induction false} CStringExact(s: Buffer)
    ensures NulFree(CString(s))
    ensures CString(s) == s <==> NulFree(s)
  {
    if s == [] || s[0] == 0 {
    } else {
      CStringExact(s[1..]);
      assert s == [s[0]] + s[1..];
    }
  }

  function Truncated(p: Pair): Pair { Pair(CString(p.key), CString(p.value)) }

  function TruncatedAll(md: seq<Pair>): seq<Pair> { seq(|md|, i requires 0 <= i < |md| => Truncated(md[i])) }

  /** Insertion or overwriting in the ordered member list. */
  function Put(m: seq<Pair>, p: Pair): (r: seq<Pair>)
    ensures r != []
  {
    if m == [] then [p]
    else if m[0].key == p.key then [p] + m[1..]
    else if Less(p.key, m[0].key) then [p] + m
    else [m[0]] + Put(m[1..], p)
  }

  lemma {:induction false} PutElements(m: seq<Pair>, p: Pair)
    ensures forall q | q in Put(m, p) :: q in m || q == p
    ensures !HasKey(m, p.key) ==> multiset(Put(m, p)) == multiset(m) + multiset{p}
  {
    if m == [] {
    } else {
      assert m == [m[0]] + m[1..];
      assert HasKey(m[1..], p.key) ==> HasKey(m, p.key);
      assert m[0].key == p.key ==> HasKey(m, p.key);
      PutElements(m[1..], p);
    }
  }

  lemma {:induction false} PutSorted(m: seq<Pair>, p: Pair)
    requires Sorted(m)
    ensures Sorted(Put(m, p))
  {
    if m == [] {
    } else {
      LessTotal(p.key, m[0].key);
      if m[0].key == p.key {
      } else if Less(p.key, m[0].key) {
        forall i | 0 <= i < |m|
          ensures Less(p.key, m[i].key)
        {
          if i > 0 { LessTransitive(p.key, m[0].key, m[i].key); }
        }
      } else {
        var r := Put(m[1..], p);
        PutSorted(m[1..], p);
        PutElements(m[1..], p);
        forall i | 0 <= i < |r|
          ensures Less(m[0].key, r[i].key)
        {
          assert r[i] in r;
        }
      }
    }
  }

  lemma UpdatesCommute(m: map<Buffer, Buffer>, p: Pair, q: Pair)
    requires p.key != q.key
    ensures m[p.key := p.value][q.key := q.value] == m[q.key := q.value][p.key := p.value]
  {
  }

  lemma {:induction false} PutMeaning(m: seq<Pair>, p: Pair)
    requires Sorted(m)
    ensures Meaning(Put(m, p)) == Meaning(m)[p.key := p.value]
  {
    var r := Put(m, p);
    PutSorted(m, p);
    MeaningOfSortedTail(r);
    if m == [] {
    } else {
      var k, rest := m[0].key, m[1..];
      MeaningOfSortedTail(m);
      if k == p.key {
        assert r[1..] == rest;
      } else if Less(p.key, k) {
        assert r[1..] == m;
      } else {
        assert r[0] == m[0] && r[1..] == Put(rest, p);
        PutMeaning(rest, p);
        UpdatesCommute(Meaning(rest), p, m[0]);
      }
    }
  }

  /** The object's members after all pairs went in, in list order. */
  function PutAll(md: seq<Pair>): seq<Pair> {
    if md == [] then [] else Put(PutAll(md[..|md| - 1]), Truncated(md[|md| - 1]))
  }

  /** The value the send loop builds; untouched, it is still JSON null. */
  function Encode(md: seq<Pair>): Json {
    if md == [] then Null else Object(PutAll(md))
  }

  lemma {:induction false} PutAllCorrect(md: seq<Pair>)
    ensures Sorted(PutAll(md))
    ensures Meaning(PutAll(md)) == Meaning(TruncatedAll(md))
  {
    if md == [] {
    } else {
      var front, last := md[..|md| - 1], Truncated(md[|md| - 1]);
      PutAllCorrect(front);
      PutSorted(PutAll(front), last);
      PutMeaning(PutAll(front), last);
      assert TruncatedAll(md)[..|md| - 1] == TruncatedAll(front);
    }
  }

  lemma {:induction false} PutAllElements(md: seq<Pair>)
    requires DistinctKeys(TruncatedAll(md))
    ensures multiset(PutAll(md)) == multiset(TruncatedAll(md))
  {
    if md == [] {
    } else {
      var front, last := md[..|md| - 1], Truncated(md[|md| - 1]);
      var t := TruncatedAll(front);
      assert TruncatedAll(md) == t + [last];
      assert forall i | 0 <= i < |t| :: t[i] == TruncatedAll(md)[i];
      PutAllElements(front);
      PutAllCorrect(front);
      LastWins(PutAll(front));
      LastWins(t);
      assert TruncatedAll(md)[|t|] == last;
      assert !HasKey(t, last.key);
      PutElements(PutAll(front), last);
    }
  }

  /** Lines 266-276 and 303-313: walk the list, store through C strings. */
  method EncodeMetadata(mdBatch: seq<Pair>) returns (jmeta: Json)
    ensures jmeta == Encode(mdBatch)
  {
    jmeta := Null;
    var md := 0;
    while md < |mdBatch|
      invariant 0 <= md <= |mdBatch|
      invariant jmeta == Encode(mdBatch[..md])
    {
      var key := CString(mdBatch[md].key);
      var value := CString(mdBatch[md].value);
      jmeta := Object(Put(Members(jmeta), Pair(key, value)));
      assert mdBatch[..md + 1][..md] == mdBatch[..md];
      assert Members(Encode(mdBatch[..md])) == PutAll(mdBatch[..md]);
      md := md + 1;
    }
    assert mdBatch[..md] == mdBatch;
  }

  // Receiving

  /** `grpc_metadata_batch_add_tail` refuses a second element under a callout name. */
  predicate Refused(callouts: set<Buffer>, batch: seq<Pair>, p: Pair) {
    p.key in callouts && exists q | q in batch :: q.key == p.key
  }

  /** The batch after the append loop, and whether the loop ran to its end. */
  function Appended(callouts: set<Buffer>, batch: seq<Pair>, items: seq<Pair>): (seq<Pair>, bool)
    decreases |items|
  {
    if items == [] then (batch, true)
    else if Refused(callouts, batch, items[0]) then (batch, false)
    else Appended(callouts, batch + [items[0]], items[1..])
  }

  /** Items are appended in order up to the first one that is refused, and what is refused is a
      known header name that is there already. */
  lemma {:induction false} AppendedPrefix(callouts: set<Buffer>, batch: seq<Pair>, items: seq<Pair>) returns (n: nat)
    ensures n <= |items|
    ensures Appended(callouts, batch, items) == (batch + items[..n], n == |items|)
    ensures forall i | 0 <= i < n :: !Refused(callouts, batch + items[..i], items[i])
    ensures n < |items| ==> Refused(callouts, batch + items[..n], items[n])
    decreases |items|
  {
    if items == [] || Refused(callouts, batch, items[0]) {
      n := 0;
      assert batch + items[..0] == batch;
    } else {
      var more, rest := batch + [items[0]], items[1..];
      var k := AppendedPrefix(callouts, more, rest);
      n := k + 1;
      assert forall i | 0 <= i <= k :: more + rest[..i] == batch + items[..i + 1];
      forall i | 0 <= i < n
        ensures !Refused(callouts, batch + items[..i], items[i])
      {
        if i == 0 {
          assert batch + items[..0] == batch;
        } else {
          assert items[i] == rest[i - 1] && more + rest[..i - 1] == batch + items[..i];
        }
      }
    }
  }

  /** Distinct items are appended in order up to the first one the batch already had. */
  lemma {:induction false} AppendedExact(callouts: set<Buffer>, batch: seq<Pair>, items: seq<Pair>) returns (n: nat)
    requires DistinctKeys(items)
    ensures n <= |items|
    ensures Appended(callouts, batch, items) == (batch + items[..n], n == |items|)
    ensures n < |items| ==> Refused(callouts, batch, items[n])
    ensures forall i | 0 <= i < n :: !Refused(callouts, batch, items[i])
    decreases |items|
  {
    if items == [] || Refused(callouts, batch, items[0]) {
      n := 0;
      assert batch + items[..0] == batch;
    } else {
      var more, rest := batch + [items[0]], items[1..];
      var k := AppendedExact(callouts, more, rest);
      n := k + 1;
      assert more + rest[..k] == batch + items[..n];
      forall i | 0 < i < |items|
        ensures Refused(callouts, more, items[i]) <==> Refused(callouts, batch, items[i])
      {
        assert forall q :: q in more <==> q in batch || q == items[0];
      }
      forall i | 0 < i < n
        ensures !Refused(callouts, batch, items[i])
      {
        assert items[i] == rest[i - 1];
      }
    }
  }

  /** Lines 327-345 and 380-398: parse, then append element by element. It throws if the text is
      malformed, or if it comes to an element that is no string; what was appended stays. */
  method AppendMetadata(lib: Lib, text: Buffer, mdBatch: seq<Pair>)
    returns (threw: bool, batch: seq<Pair>, ok: bool)
    ensures lib.parse(text).None? ==> threw && batch == mdBatch
    ensures lib.parse(text).Some? ==>
              var js := lib.parse(text).value;
              (batch, ok) == Appended(lib.callouts, mdBatch, Members(js)) && threw == (js.Broken? && ok)
  {
    var js := lib.parse(text);
    batch, ok := mdBatch, true;
    if js.None? {
      return true, mdBatch, false;
    }
    var items := Members(js.value);
    var e := 0;
    while e < |items|
      invariant 0 <= e <= |items|
      invariant ok
      invariant Appended(lib.callouts, mdBatch, items) == Appended(lib.callouts, batch, items[e..])
    {
      var clash := items[e].key in lib.callouts && exists q | q in batch :: q.key == items[e].key;
      assert clash == Refused(lib.callouts, batch, items[e]);
      assert items[e..][1..] == items[e + 1..];
      if clash {
        return false, batch, false;
      }
      batch := batch + [items[e]];
      e := e + 1;
    }
    threw := js.value.Broken?;
  }

  // The round trip

  /** What the receiver of a metadata frame ends up with. */
  ghost function Received(lib: Lib, batch: seq<Pair>, text: Buffer): (seq<Pair>, bool)
    requires lib.parse(text).Some?
  {
    Appended(lib.callouts, batch, Members(lib.parse(text).value))
  }

  lemma {:induction false} PutAllText(lib: Lib, md: seq<Pair>)
    requires LibOk(lib) && AllText(lib, md)
    ensures AllText(lib, PutAll(md))
  {
    if md == [] {
    } else {
      var front, last := md[..|md| - 1], md[|md| - 1];
      PutAllText(lib, front);
      assert last in md && IsText(lib, Truncated(last));
      PutElements(PutAll(front), Truncated(last));
    }
  }

  /** An empty batch receives a strictly sorted list denoting the last-value-wins map of
      the (truncated) list sent; that list is the only sorted one denoting it. */
  lemma RoundTrip(lib: Lib, md: seq<Pair>)
    requires LibOk(lib) && AllText(lib, md)
    ensures lib.parse(lib.dump(Encode(md))).Some? && (Encode(md) == Null <==> md == [])
    ensures var (list, ok) := Received(lib, [], lib.dump(Encode(md)));
            && ok && Sorted(list)
            && Meaning(list) == Meaning(TruncatedAll(md))
            && (list == [] <==> md == [])
            && (forall s :: Sorted(s) && Meaning(s) == Meaning(list) ==> s == list)
            && list == PutAll(md)
  {
    PutAllCorrect(md);
    var items := PutAll(md);
    PutAllText(lib, md);
    assert ValidJson(lib, Encode(md));
    assert Members(Encode(md)) == items;
    SortedIsDistinct(items);
    var n := AppendedExact(lib.callouts, [], items);
    assert [] + items[..n] == items;
    forall s | Sorted(s) && Meaning(s) == Meaning(items)
      ensures s == items
    {
      SortedIsCanonical(s, items);
    }
  }

  ghost predicate AllNulFree(md: seq<Pair>) {
    forall p | p in md :: NulFree(p.key) && NulFree(p.value)
  }

  lemma {:induction false} PutAllNulFree(md: seq<Pair>)
    ensures AllNulFree(PutAll(md))
  {
    if md == [] {
    } else {
      var front, last := md[..|md| - 1], md[|md| - 1];
      PutAllNulFree(front);
      CStringExact(last.key);
      CStringExact(last.value);
      PutElements(PutAll(front), Truncated(last));
    }
  }

  lemma {:induction false} OnceOnly(s: seq<Pair>, p: Pair)
    requires DistinctKeys(s)
    ensures multiset(s)[p] <= 1
  {
    if s == [] {
    } else {
      assert s == [s[0]] + s[1..];
      OnceOnly(s[1..], p);
    }
  }

  /** Repetition of keys is a property of the multiset of pairs. */
  lemma SameElementsSameDistinctness(s: seq<Pair>, t: seq<Pair>)
    requires multiset(s) == multiset(t) && DistinctKeys(s)
    ensures DistinctKeys(t)
  {
    forall i, j | 0 <= i < j < |t|
      ensures t[i].key != t[j].key
    {
      assert t[i] in multiset(s) && t[j] in multiset(s);
      assert t == t[..j] + t[j..];
      assert t[i] in t[..j] && t[j] in t[j..];
      OnceOnly(s, t[i]);
    }
  }

  /** The list received is a rearrangement of the list sent exactly when no key repeats
      and no string holds a NUL. */
  lemma PermutationExact(md: seq<Pair>)
    ensures multiset(PutAll(md)) == multiset(md) <==> DistinctKeys(md) && AllNulFree(md)
  {
    PutAllCorrect(md);
    var r, t := PutAll(md), TruncatedAll(md);
    forall p: Pair
      ensures Truncated(p) == p <==> NulFree(p.key) && NulFree(p.value)
    {
      CStringExact(p.key);
      CStringExact(p.value);
    }
    if AllNulFree(md) {
      assert t == md;
      if DistinctKeys(md) {
        PutAllElements(md);
      }
    }
    if multiset(r) == multiset(md) {
      PutAllNulFree(md);
      forall p | p in md
        ensures NulFree(p.key) && NulFree(p.value)
      {
        assert p in multiset(md);
        assert p in r;
      }
      SortedIsDistinct(r);
      SameElementsSameDistinctness(r, md);
    }
  }

  lemma {:induction false} TruncatedMeaningAt(md: seq<Pair>, k: Buffer)
    requires forall i | 0 <= i < |md| :: NulFree(md[i].key)
    ensures k in Meaning(TruncatedAll(md)) <==> k in Meaning(md)
    ensures k in Meaning(md) ==> Meaning(TruncatedAll(md))[k] == CString(Meaning(md)[k])
  {
    if md == [] {
    } else {
      var last := |md| - 1;
      TruncatedMeaningAt(md[..last], k);
      CStringExact(md[last].key);
      assert TruncatedAll(md)[..last] == TruncatedAll(md[..last]);
    }
  }

  lemma TruncatedMeaning(md: seq<Pair>)
    requires forall k | k in Meaning(md) :: NulFree(k)
    ensures Meaning(TruncatedAll(md)) == map k | k in Meaning(md) :: CString(Meaning(md)[k])
  {
    forall i | 0 <= i < |md|
      ensures NulFree(md[i].key)
    {
      KeysOfMeaning(md, md[i].key);
    }
    forall k
      ensures k in Meaning(TruncatedAll(md)) <==> k in Meaning(md)
      ensures k in Meaning(md) ==> Meaning(TruncatedAll(md))[k] == CString(Meaning(md)[k])
    {
      TruncatedMeaningAt(md, k);
    }
  }

  /** The map itself survives exactly when none of its keys and winning values holds a NUL. */
  lemma MeaningExact(md: seq<Pair>)
    ensures Meaning(PutAll(md)) == Meaning(md)
            <==> forall k | k in Meaning(md) :: NulFree(k) && NulFree(Meaning(md)[k])
  {
    var m, r := Meaning(md), Meaning(PutAll(md));
    PutAllCorrect(md);
    LastWins(md);
    if forall k | k in m :: NulFree(k) && NulFree(m[k]) {
      TruncatedMeaning(md);
      forall k | k in m
        ensures CString(m[k]) == m[k]
      {
        CStringExact(m[k]);
      }
    }
    if r == m {
      PutAllNulFree(md);
      LastWins(PutAll(md));
      SortedIsDistinct(PutAll(md));
      forall k | k in m
        ensures NulFree(k) && NulFree(m[k])
      {
        var i :| 0 <= i < |PutAll(md)| && PutAll(md)[i].key == k;
        assert PutAll(md)[i] in PutAll(md);
      }
    }
  }

  /** A value that holds a NUL arrives cut, and of two values under one key the first is lost. */
  lemma CutAndOverwritten()
    ensures PutAll([Pair([1], [2, 0, 3])]) == [Pair([1], [2])]
    ensures PutAll([Pair([1], [2]), Pair([1], [3])]) == [Pair([1], [3])]
  {
    var cut, twice := [Pair([1], [2, 0, 3])], [Pair([1], [2]), Pair([1], [3])];
    assert cut[..0] == [] && twice[..1] == [twice[0]] && twice[..1][..0] == [];
    assert [1 as byte][1..] == [] && [2 as byte][1..] == [] && [3 as byte][1..] == [];
    assert CString([1]) == [1] && CString([2]) == [2] && CString([3]) == [3];
    assert [2 as byte, 0, 3][1..] == [0, 3] && CString([2, 0, 3]) == [2];
    assert PutAll(twice[..1]) == [Pair([1], [2])];
  }
}
