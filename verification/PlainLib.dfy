/**
The assumptions on the JSON library can be met: a library with a plain encoding in which
every string without a NUL is text.
*/
module PlainLib {
  import opened Wrappers
  import opened Metadata

  function DumpMembers(members: seq<Pair>): Buffer {
    if members == [] then [] else members[0].key + [0] + members[0].value + [0] + DumpMembers(members[1..])
  }

  /** The string before the first NUL, and what follows it. */
  function TakeString(b: Buffer): (r: Option<(Buffer, Buffer)>)
    ensures r.Some? ==> |r.value.1| < |b|
  {
    if b == [] then None
    else if b[0] == 0 then Some(([], b[1..]))
    else
      match TakeString(b[1..])
      case None => None
      case Some((s, rest)) => Some(([b[0]] + s, rest))
  }

  function ParseMembers(b: Buffer): Option<seq<Pair>>
    decreases |b|
  {
    if b == [] then Some([])
    else
      match TakeString(b)
      case None => None
      case Some((key, afterKey)) =>
        match TakeString(afterKey)
        case None => None
        case Some((value, rest)) =>
          match ParseMembers(rest)
          case None => None
          case Some(members) => Some([Pair(key, value)] + members)
  }

  function Dump(j: Json): Buffer {
    match j
    case Null => [0]
    case Object(members) => [1] + DumpMembers(members)
    case Broken(_) => []
  }

  function Parse(b: Buffer): Option<Json> {
    if b == [0] then Some(Null)
    else if b == [] || b[0] != 1 then None
    else
      match ParseMembers(b[1..])
      case None => None
      case Some(members) => Some(Object(members))
  }

  function Plain(callouts: set<Buffer>): Lib { Lib(Dump, Parse, NulFree, callouts) }

  lemma {:induction false} TakeStringExact(s: Buffer, rest: Buffer)
    requires NulFree(s)
    ensures TakeString(s + [0] + rest) == Some((s, rest))
  {
    var b := s + [0] + rest;
    if s == [] {
      assert b[0] == 0 && b[1..] == rest;
    } else {
      TakeStringExact(s[1..], rest);
      assert b[1..] == s[1..] + [0] + rest && [s[0]] + s[1..] == s;
    }
  }

  lemma {:induction false} ParseMembersExact(members: seq<Pair>)
    requires forall p | p in members :: NulFree(p.key) && NulFree(p.value)
    ensures ParseMembers(DumpMembers(members)) == Some(members)
  {
    if members == [] {
    } else {
      var p, rest := members[0], DumpMembers(members[1..]);
      assert p in members;
      ParseMembersExact(members[1..]);
      assert DumpMembers(members) == p.key + [0] + (p.value + [0] + rest);
      TakeStringExact(p.key, p.value + [0] + rest);
      TakeStringExact(p.value, rest);
      assert [p] + members[1..] == members;
    }
  }

  lemma PlainReadsBack(callouts: set<Buffer>, j: Json)
    requires ValidJson(Plain(callouts), j)
    ensures Parse(Dump(j)) == Some(j)
  {
    if j.Object? {
      forall p | p in j.members
        ensures NulFree(p.key) && NulFree(p.value)
      {
        assert IsText(Plain(callouts), p);
      }
      ParseMembersExact(j.members);
      assert Dump(j)[1..] == DumpMembers(j.members);
    }
  }

  /** The plain library is as assumed, and takes strings that are not empty for text. */
  lemma PlainIsOk(callouts: set<Buffer>)
    ensures LibOk(Plain(callouts))
    ensures forall s :: Plain(callouts).isText(s) <==> NulFree(s)
  {
    forall j | ValidJson(Plain(callouts), j)
      ensures Plain(callouts).parse(Plain(callouts).dump(j)) == Some(j)
    {
      PlainReadsBack(callouts, j);
    }
    forall s
      ensures Plain(callouts).isText(CString(s))
    {
      CStringExact(s);
    }
  }
}
