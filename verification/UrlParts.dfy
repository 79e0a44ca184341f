/**
The URL splitter of `src/url_parts.h`, a printer for its result, and the exact
conditions under which the two undo each other.
*/
module UrlParts {
  import opened Wrappers

  datatype Parts = Parts(scheme: string, userPass: string, host: string, port: string, path: string)

  predicate OccursAt(s: string, pat: string, i: nat) {
    i + |pat| <= |s| && s[i..i + |pat|] == pat
  }

  /** `std::string::find`: the first occurrence at or after `from`. */
  function Find(s: string, pat: string, from: nat): (r: Option<nat>)
    requires |pat| > 0
    ensures r.Some? ==> from <= r.value && OccursAt(s, pat, r.value)
    ensures r.Some? ==> forall i | from <= i < r.value :: !OccursAt(s, pat, i)
    ensures r.None? ==> forall i | from <= i :: !OccursAt(s, pat, i)
    decreases |s| - from
  {
    if from + |pat| > |s| then None
    else if s[from..from + |pat|] == pat then Some(from)
    else Find(s, pat, from + 1)
  }

  /** The text before and after the first occurrence of `pat`. */
  function Cut(s: string, pat: string): Option<(string, string)>
    requires |pat| > 0
  {
    match Find(s, pat, 0)
    case None => None
    case Some(i) => Some((s[..i], s[i + |pat|..]))
  }

  /** A leading part that ends at the first `c`, empty when there is none. */
  function CutLead(s: string, c: char): (string, string) {
    match Cut(s, [c])
    case None => ("", s)
    case Some(halves) => halves
  }

  /** A trailing part that starts after the first `c`, empty when there is none. */
  function CutTrail(s: string, c: char): (string, string) {
    match Cut(s, [c])
    case None => (s, "")
    case Some(halves) => halves
  }

  /** Authority and path of what follows the scheme; the path keeps its slash. */
  function SplitPath(rest: string): (string, string) {
    match Find(rest, ['/'], 0)
    case None => (rest, "")
    case Some(i) => (rest[..i], rest[i..])
  }

  /** What `Parse` computes, as three nested cuts. */
  function Split(url: string): Option<Parts> {
    match Cut(url, "://")
    case None => None
    case Some((scheme, rest)) =>
      var (authority, path) := SplitPath(rest);
      var (user, hostPort) := CutLead(authority, '@');
      var (host, port) := CutTrail(hostPort, ':');
      Some(Parts(scheme, user, host, port, path))
  }

  /** Searching from a position is searching the suffix, shifted. */
  lemma FindInSuffix(s: string, pat: string, n: nat)
    requires |pat| > 0 && n <= |s|
    ensures Find(s, pat, n).None? <==> Find(s[n..], pat, 0).None?
    ensures Find(s, pat, n).Some? ==> Find(s, pat, n).value == n + Find(s[n..], pat, 0).value
  {
    forall i: nat
      ensures OccursAt(s[n..], pat, i) <==> OccursAt(s, pat, n + i)
    {
      if n + i + |pat| <= |s| {
        assert s[n..][i..i + |pat|] == s[n + i..n + i + |pat|];
      }
    }
    var here, there := Find(s, pat, n), Find(s[n..], pat, 0);
    if here.Some? {
      assert OccursAt(s[n..], pat, here.value - n);
    }
    if there.Some? {
      assert OccursAt(s, pat, n + there.value);
    }
  }

  class URLParts {
    var scheme: string
    var userPass: string
    var host: string
    var port: string
    var pathQueryFragment: string

    ghost function Value(): Parts
      reads this
    {
      Parts(scheme, userPass, host, port, pathQueryFragment)
    }

    static method Parse(url: string, parts: URLParts) returns (ok: bool)
      modifies parts
      ensures ok == Split(url).Some?
      ensures parts.Value() == if ok then Split(url).value else old(parts.Value())
    {
      var found := Find(url, "://", 0);
      if found.None? {
        return false;
      }
      var n := found.value;
      parts.scheme := url[..n];

      n := n + 3;
      assert Cut(url, "://") == Some((parts.scheme, url[n..]));
      var userPassHostPort := ParsePath(url, n, parts);
      var hostPort := ParseUser(userPassHostPort, parts);
      ParseHost(hostPort, parts);
      return true;
    }

    /** Lines 24-32: what comes from the first '/' on is the path. */
    static method ParsePath(url: string, n: nat, parts: URLParts) returns (userPassHostPort: string)
      requires n <= |url|
      modifies parts`pathQueryFragment
      ensures (userPassHostPort, parts.pathQueryFragment) == SplitPath(url[n..])
    {
      var m := Find(url, ['/'], n);
      FindInSuffix(url, ['/'], n);
      if m.None? {
        userPassHostPort := url[n..];
        parts.pathQueryFragment := "";
      } else {
        userPassHostPort := url[n..m.value];
        parts.pathQueryFragment := url[m.value..];
        assert userPassHostPort == url[n..][..m.value - n] && parts.pathQueryFragment == url[n..][m.value - n..];
      }
    }

    /** Lines 34-43: everything before the first '@'. */
    static method ParseUser(userPassHostPort: string, parts: URLParts) returns (hostPort: string)
      modifies parts`userPass
      ensures (parts.userPass, hostPort) == CutLead(userPassHostPort, '@')
    {
      var m := Find(userPassHostPort, ['@'], 0);
      if m.None? {
        parts.userPass := "";
        hostPort := userPassHostPort;
      } else {
        parts.userPass := userPassHostPort[0..m.value];
        hostPort := userPassHostPort[m.value + 1..];
      }
    }

    /** Lines 45-53: everything before and after the first ':'. */
    static method ParseHost(hostPort: string, parts: URLParts)
      modifies parts`host, parts`port
      ensures (parts.host, parts.port) == CutTrail(hostPort, ':')
    {
      var m := Find(hostPort, [':'], 0);
      if m.None? {
        parts.host := hostPort;
        parts.port := "";
      } else {
        parts.host := hostPort[0..m.value];
        parts.port := hostPort[m.value + 1..];
      }
    }
  }

  // Printing

  function JoinLead(a: string, c: char, b: string): string { if a == "" then b else a + [c] + b }

  function JoinTrail(a: string, c: char, b: string): string { if b == "" then a else a + [c] + b }

  function Authority(p: Parts): string {
    JoinLead(p.userPass, '@', JoinTrail(p.host, ':', p.port))
  }

  function Print(p: Parts): string {
    p.scheme + "://" + (Authority(p) + p.path)
  }

  /** The parts that survive printing and parsing. */
  ghost predicate Printable(p: Parts) {
    && (forall i :: !OccursAt(p.scheme, "://", i))
    && '/' !in p.userPass && '/' !in p.host && '/' !in p.port
    && '@' !in p.userPass
    && (p.userPass == "" ==> '@' !in p.host && '@' !in p.port)
    && ':' !in p.host
    && (p.path == "" || p.path[0] == '/')
  }

  /** A cut falls at a given place exactly when the separator does not occur earlier. */
  lemma CutAt(a: string, pat: string, b: string)
    requires |pat| > 0
    ensures Cut(a + pat + b, pat).Some?
    ensures Cut(a + pat + b, pat) == Some((a, b)) <==> forall i | 0 <= i < |a| :: !OccursAt(a + pat + b, pat, i)
  {
    var s := a + pat + b;
    assert s[|a|..|a| + |pat|] == pat;
    assert OccursAt(s, pat, |a|);
    var i := Find(s, pat, 0).value;
    assert s[..|a|] == a && s[|a| + |pat|..] == b;
    assert |s[..i]| == i;
  }

  lemma OccursOne(s: string, c: char)
    ensures forall i: nat :: OccursAt(s, [c], i) <==> i < |s| && s[i] == c
  {
    forall i: nat
      ensures OccursAt(s, [c], i) <==> i < |s| && s[i] == c
    {
      if i < |s| {
        assert s[i..i + 1] == [s[i]];
      }
    }
  }

  /** For a one-character separator the condition is that the left part is free of it. */
  lemma CutChar(a: string, c: char, b: string)
    ensures Cut(a + [c] + b, [c]).Some?
    ensures Cut(a + [c] + b, [c]) == Some((a, b)) <==> c !in a
  {
    CutAt(a, [c], b);
    var s := a + [c] + b;
    OccursOne(s, c);
    assert forall i | 0 <= i < |a| :: s[i] == a[i];
    if c in a {
      var i :| 0 <= i < |a| && a[i] == c;
      assert OccursAt(s, [c], i);
    }
  }

  /** Where a cut falls says where the character occurs. */
  lemma CutCharSound(s: string, c: char)
    ensures Cut(s, [c]).None? <==> c !in s
    ensures Cut(s, [c]).Some? ==>
              s == Cut(s, [c]).value.0 + [c] + Cut(s, [c]).value.1 && c !in Cut(s, [c]).value.0
  {
    OccursOne(s, c);
    if c in s {
      var i :| 0 <= i < |s| && s[i] == c;
      assert OccursAt(s, [c], i);
    }
  }

  lemma LeadAfterJoin(a: string, c: char, b: string)
    ensures CutLead(JoinLead(a, c, b), c) == (a, b) <==> c !in a && (a == "" ==> c !in b)
  {
    CutChar(a, c, b);
    CutCharSound(b, c);
  }

  lemma TrailAfterJoin(a: string, c: char, b: string)
    ensures CutTrail(JoinTrail(a, c, b), c) == (a, b) <==> c !in a
  {
    CutChar(a, c, b);
    CutCharSound(a, c);
  }

  /** "://" cannot overlap itself, so nothing before the separator can complete it early. */
  lemma CutScheme(a: string, b: string)
    ensures Cut(a + "://" + b, "://").Some?
    ensures Cut(a + "://" + b, "://") == Some((a, b)) <==> forall i :: !OccursAt(a, "://", i)
  {
    var s := a + "://" + b;
    CutAt(a, "://", b);
    forall i: nat | i < |a|
      ensures OccursAt(s, "://", i) <==> OccursAt(a, "://", i)
    {
      var window := s[i..i + 3];
      assert s[|a|] == ':';
      if i + 3 <= |a| {
        assert window == a[i..i + 3];
      } else {
        assert window[|a| - i] == ':';
      }
    }
  }

  lemma SplitPathSound(rest: string)
    ensures var (authority, path) := SplitPath(rest);
            rest == authority + path && '/' !in authority && (path == "" || path[0] == '/')
  {
    OccursOne(rest, '/');
    if Find(rest, ['/'], 0).None? {
      assert forall i | 0 <= i < |rest| :: !OccursAt(rest, ['/'], i);
    }
  }

  lemma SlashInside(a: string, p: string, a': string, p': string)
    requires a + p == a' + p' && |a| < |a'|
    requires p == "" || p[0] == '/'
    ensures '/' in a'
  {
    assert a'[|a|] == (a' + p')[|a|] == (a + p)[|a|];
  }

  lemma SplitPathUnique(authority: string, path: string)
    ensures SplitPath(authority + path) == (authority, path)
            <==> '/' !in authority && (path == "" || path[0] == '/')
  {
    var s := authority + path;
    SplitPathSound(s);
    if '/' !in authority && (path == "" || path[0] == '/') {
      var (a, p) := SplitPath(s);
      if |a| < |authority| {
        SlashInside(a, p, authority, path);
      } else if |authority| < |a| {
        SlashInside(authority, path, a, p);
      }
      assert a == s[..|a|] == authority;
      assert p == s[|a|..] == path;
    }
  }

  lemma SameLengthParts(a: string, b: string, a': string, b': string)
    requires a + b == a' + b' && (a == a' || b == b')
    ensures a == a' && b == b'
  {
    assert |a| == |a'|;
    assert a == (a + b)[..|a|] == a';
    assert b == (a + b)[|a|..] == b';
  }

  /** The authority alone: which user, host and port come back. */
  lemma AuthorityRoundTrip(p: Parts)
    ensures var (user, hostPort) := CutLead(Authority(p), '@');
            (user == p.userPass && CutTrail(hostPort, ':') == (p.host, p.port))
            <==> '@' !in p.userPass && (p.userPass == "" ==> '@' !in p.host && '@' !in p.port) && ':' !in p.host
  {
    var (user, hostPort) := CutLead(Authority(p), '@');
    var joined := JoinTrail(p.host, ':', p.port);
    LeadAfterJoin(p.userPass, '@', joined);
    TrailAfterJoin(p.host, ':', p.port);
    CutCharSound(Authority(p), '@');
    CutCharSound(hostPort, ':');
    assert forall c :: c in joined <==> c in p.host || c in p.port || (c == ':' && p.port != "");
    if user == p.userPass && CutTrail(hostPort, ':') == (p.host, p.port) {
      assert |hostPort| >= |joined|;
      if p.userPass != "" {
        SameLengthParts(user + ['@'], hostPort, p.userPass + ['@'], joined);
      }
    }
  }

  lemma AuthorityChars(p: Parts)
    ensures '/' in Authority(p) <==> '/' in p.userPass || '/' in p.host || '/' in p.port
  {
    assert forall c :: c in JoinTrail(p.host, ':', p.port)
                       <==> c in p.host || c in p.port || (c == ':' && p.port != "");
  }

  lemma CutSound(s: string, pat: string)
    requires |pat| > 0 && Cut(s, pat).Some?
    ensures s == Cut(s, pat).value.0 + pat + Cut(s, pat).value.1
    ensures forall i :: !OccursAt(Cut(s, pat).value.0, pat, i)
  {
    var a := Cut(s, pat).value.0;
    forall i: nat
      ensures !OccursAt(a, pat, i)
    {
      if OccursAt(a, pat, i) {
        assert s[i..i + |pat|] == a[i..i + |pat|];
        assert OccursAt(s, pat, i);
      }
    }
  }

  /** Parsing a printed URL gives back the parts exactly when they are printable. */
  lemma ParseAfterPrint(p: Parts)
    ensures Split(Print(p)) == Some(p) <==> Printable(p)
  {
    var rest := Authority(p) + p.path;
    CutScheme(p.scheme, rest);
    var (scheme', rest') := Cut(Print(p), "://").value;
    var (authority', path') := SplitPath(rest');
    AuthorityRoundTrip(p);
    AuthorityChars(p);
    if scheme' == p.scheme {
      CutSound(Print(p), "://");
      SameLengthParts(scheme' + "://", rest', p.scheme + "://", rest);
      SplitPathUnique(Authority(p), p.path);
      SplitPathSound(rest);
      if path' == p.path {
        SameLengthParts(authority', path', Authority(p), p.path);
      }
    }
  }

  // Printing what was parsed

  /** `c` comes first, so the empty part before it and `c` itself are dropped. */
  predicate EmptyLead(s: string, c: char) { s != "" && s[0] == c }

  /** The first `c` comes last, so the empty part after it and `c` itself are dropped. */
  predicate EmptyTrail(s: string, c: char) { s != "" && s[|s| - 1] == c && c !in s[..|s| - 1] }

  lemma JoinAfterLead(s: string, c: char)
    ensures var (a, b) := CutLead(s, c);
            && JoinLead(a, c, b) == (if EmptyLead(s, c) then s[1..] else s)
            && c !in a && (EmptyLead(s, c) ==> a == "") && (forall x :: x in a || x in b ==> x in s)
  {
    CutCharSound(s, c);
  }

  lemma JoinAfterTrail(s: string, c: char)
    ensures var (a, b) := CutTrail(s, c);
            && JoinTrail(a, c, b) == (if EmptyTrail(s, c) then s[..|s| - 1] else s)
            && c !in a && (forall x :: x in a || x in b ==> x in s)
  {
    CutCharSound(s, c);
    var (a, b) := CutTrail(s, c);
    if c in s && b != "" {
      assert s[..|s| - 1][|a|] == c;
    }
    if c in s && b == "" {
      assert s[..|s| - 1] == a;
    }
  }

  ghost function AuthorityOf(url: string): string
    requires Split(url).Some?
  {
    SplitPath(Cut(url, "://").value.1).0
  }

  ghost predicate DropsAt(url: string)
    requires Split(url).Some?
  {
    EmptyLead(AuthorityOf(url), '@')
  }

  ghost predicate DropsColon(url: string)
    requires Split(url).Some?
  {
    EmptyTrail(CutLead(AuthorityOf(url), '@').1, ':')
  }

  /** An authority without the '@' that begins it and the ':' that ends it, where those are the
      delimiters of empty parts. */
  ghost function TrimmedAuthority(authority: string): string {
    var a := if EmptyLead(authority, '@') then authority[1..] else authority;
    if EmptyTrail(CutLead(authority, '@').1, ':') && a != "" then a[..|a| - 1] else a
  }

  ghost function Trimmed(url: string): string
    requires Split(url).Some?
  {
    var at, authority := |Split(url).value.scheme| + 3, AuthorityOf(url);
    if at + |authority| <= |url| then url[..at] + TrimmedAuthority(authority) + url[at + |authority|..] else url
  }

  lemma AuthorityTrims(authority: string)
    ensures var (user, hostPort) := CutLead(authority, '@');
            var (host, port) := CutTrail(hostPort, ':');
            JoinLead(user, '@', JoinTrail(host, ':', port)) == TrimmedAuthority(authority)
  {
    JoinAfterLead(authority, '@');
    var (user, hostPort) := CutLead(authority, '@');
    JoinAfterTrail(hostPort, ':');
    if EmptyTrail(hostPort, ':') {
      var short := hostPort[..|hostPort| - 1];
      if user != "" {
        assert user + ['@'] + short == (user + ['@'] + hostPort)[..|user| + |hostPort|];
      }
    }
  }

  lemma MiddleReplaced(a: string, b: string, c: string, b': string)
    ensures var s := a + (b + c); s[..|a|] + b' + s[|a| + |b|..] == a + (b' + c)
  {
    var s := a + (b + c);
    assert s[..|a|] == a && s[|a| + |b|..] == c;
  }

  lemma SplitRebuilds(url: string)
    requires Split(url).Some?
    ensures var p := Split(url).value;
            url == p.scheme + "://" + (AuthorityOf(url) + p.path) && Authority(p) == TrimmedAuthority(AuthorityOf(url))
  {
    CutSound(url, "://");
    SplitPathSound(Cut(url, "://").value.1);
    AuthorityTrims(AuthorityOf(url));
  }

  lemma PrintsTrimmedFrom(url: string, p: Parts, authority: string)
    requires url == p.scheme + "://" + (authority + p.path) && Authority(p) == TrimmedAuthority(authority)
    ensures var at := |p.scheme| + 3;
            && at + |authority| <= |url|
            && Print(p) == url[..at] + TrimmedAuthority(authority) + url[at + |authority|..]
  {
    var head := p.scheme + "://";
    assert |head| == |p.scheme| + 3;
    MiddleReplaced(head, authority, p.path, TrimmedAuthority(authority));
  }

  /** What is printed of an accepted URL is its text without those delimiters. */
  lemma PrintsTrimmed(url: string)
    requires Split(url).Some?
    ensures Print(Split(url).value) == Trimmed(url)
  {
    SplitRebuilds(url);
    PrintsTrimmedFrom(url, Split(url).value, AuthorityOf(url));
  }

  /** A URL is accepted exactly if it has a "://". */
  lemma AcceptsExactly(url: string)
    ensures Split(url).Some? <==> exists i :: OccursAt(url, "://", i)
  {
    if Split(url).Some? {
      assert OccursAt(url, "://", Find(url, "://", 0).value);
    }
  }

  /** Printing an accepted URL loses exactly the delimiters of its empty parts. */
  lemma PrintAfterParse(url: string)
    requires Split(url).Some?
    ensures |url| == |Print(Split(url).value)| + One(DropsAt(url)) + One(DropsColon(url))
    ensures Print(Split(url).value) == url <==> !DropsAt(url) && !DropsColon(url)
  {
    var p := Split(url).value;
    CutSound(url, "://");
    var (scheme, rest) := Cut(url, "://").value;
    SplitPathSound(rest);
    var authority := AuthorityOf(url);
    assert url == p.scheme + "://" + (authority + p.path);
    JoinAfterLead(authority, '@');
    var (user, hostPort) := CutLead(authority, '@');
    JoinAfterTrail(hostPort, ':');
    assert |authority| == |Authority(p)| + One(DropsAt(url)) + One(DropsColon(url));
    assert Authority(p) == authority <==> !DropsAt(url) && !DropsColon(url);
  }

  /** Re-parsing the printed form changes nothing, except when an '@' that was never a
      delimiter is promoted to one because the empty user part before it was dropped. */
  lemma NormalFormIsStable(url: string)
    requires Split(url).Some?
    ensures var p := Split(url).value;
            Split(Print(p)) == Some(p) <==> p.userPass != "" || ('@' !in p.host && '@' !in p.port)
  {
    var p := Split(url).value;
    CutSound(url, "://");
    SplitPathSound(Cut(url, "://").value.1);
    JoinAfterLead(AuthorityOf(url), '@');
    JoinAfterTrail(CutLead(AuthorityOf(url), '@').1, ':');
    ParseAfterPrint(p);
  }

  lemma SplitWithoutPath(scheme: string, rest: string)
    requires (forall i :: !OccursAt(scheme, "://", i)) && '/' !in rest
    ensures var (user, hostPort) := CutLead(rest, '@');
            var (host, port) := CutTrail(hostPort, ':');
            Split(scheme + "://" + rest) == Some(Parts(scheme, user, host, port, ""))
  {
    CutScheme(scheme, rest);
    SplitPathUnique(rest, "");
    assert rest + "" == rest;
  }

  lemma PromotedCuts(a: string, b: string, host: string)
    requires '@' !in a && ':' !in a && ':' !in b && host == a + ['@'] + b
    ensures CutLead(['@'] + host, '@') == ("", host) && CutTrail(host, ':') == (host, "")
    ensures CutLead(host, '@') == (a, b) && CutTrail(b, ':') == (b, "")
  {
    CutChar("", '@', host);
    assert "" + ['@'] + host == ['@'] + host;
    CutChar(a, '@', b);
    CutCharSound(host, ':');
    CutCharSound(b, ':');
  }

  /** URLs whose printed form parses differently, such as `s://@a@b`: the empty user part goes
      with its '@', and the next '@' becomes the delimiter. */
  lemma PromotedAt(scheme: string, a: string, b: string, host: string)
    requires (forall i :: !OccursAt(scheme, "://", i)) && a != "" && host == a + ['@'] + b
    requires '@' !in a && ':' !in a && ':' !in b && '/' !in a && '/' !in b
    ensures Split(scheme + "://" + (['@'] + host)) == Some(Parts(scheme, "", host, "", ""))
    ensures Print(Parts(scheme, "", host, "", "")) == scheme + "://" + host
    ensures Split(scheme + "://" + host) == Some(Parts(scheme, a, b, "", ""))
  {
    PromotedCuts(a, b, host);
    SplitWithoutPath(scheme, ['@'] + host);
    SplitWithoutPath(scheme, host);
    assert host + "" == host;
  }
}
