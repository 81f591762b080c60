/**
 The canonical form of a source URL, src/adapters/web_search/policy.rs:57-91,251-269, from the parts a
 URI parser delivers (host without brackets, port, path, query).
 */
module SourceUrl {
  import opened Wrappers

  const HTTPS_PORT: nat := 443

  datatype Uri = Uri(host: string, port: Option<nat>, path: string, query: Option<string>)

  /** The canonical parts: no default port, no empty path, the remaining query pairs in order. */
  datatype Canonical = Canonical(host: string, port: Option<nat>, path: string, pairs: seq<string>)

  // ---- Hosts ---------------------------------------------------------------------------------

  function LowerChar(c: char): char {
    if 'A' <= c <= 'Z' then c - 'A' + 'a' else c
  }

  function Lower(s: string): (t: string)
    ensures |t| == |s|
  {
    if s == "" then "" else [LowerChar(s[0])] + Lower(s[1..])
  }

  function TrimEnd(s: string, c: char): (t: string)
    ensures t <= s && (t == "" || t[|t| - 1] != c)
    ensures forall i | |t| <= i < |s| :: s[i] == c
  {
    if s != "" && s[|s| - 1] == c then TrimEnd(s[..|s| - 1], c) else s
  }

  function PlainHost(host: string): string {
    Lower(TrimEnd(host, '.'))
  }

  function NormalizeWww(host: string): string {
    var h := PlainHost(host);
    if "www." <= h then h[4..] else h
  }

  lemma {:induction false} LowerAt(s: string, i: nat)
    requires i < |s|
    ensures Lower(s)[i] == LowerChar(s[i])
  {
    if i > 0 {
      LowerAt(s[1..], i - 1);
    }
  }

  lemma {:induction false} LowerTwice(s: string)
    ensures Lower(Lower(s)) == Lower(s)
  {
    if s != "" {
      LowerTwice(s[1..]);
      assert Lower(s)[1..] == Lower(s[1..]);
    }
  }

  lemma {:induction false} LowerOfConcat(a: string, b: string)
    ensures Lower(a + b) == Lower(a) + Lower(b)
  {
    if a == "" {
      assert a + b == b;
    } else {
      assert (a + b)[1..] == a[1..] + b;
      LowerOfConcat(a[1..], b);
    }
  }

  lemma TrimmedAlready(s: string, c: char)
    requires s == "" || s[|s| - 1] != c
    ensures TrimEnd(s, c) == s
  {}

  /** A host in plain form, or the end of one, is in plain form. */
  lemma PlainTwice(host: string, from: nat)
    requires from <= |PlainHost(host)|
    ensures PlainHost(PlainHost(host)[from..]) == PlainHost(host)[from..]
  {
    var t := TrimEnd(host, '.');
    var h := Lower(t);
    if from < |h| {
      LowerAt(t, |t| - 1);
    }
    TrimmedAlready(h[from..], '.');
    assert h == h[..from] + h[from..];
    LowerTwice(t);
    LowerOfConcat(h[..from], h[from..]);
    assert Lower(h)[from..] == Lower(h[from..]);
  }

  lemma TwicePrefixed(h: string)
    requires "www." <= h
    ensures "www." <= h[4..] <==> "www.www." <= h
  {
    if "www." <= h[4..] {
      assert h == "www." + ("www." + h[4..][4..]);
    }
  }

  /**
   Only one "www." is removed, so normalizing is idempotent exactly on the hosts that do not start
   with two of them.
   */
  lemma NormalizeWwwIdempotentExactly(host: string)
    ensures NormalizeWww(NormalizeWww(host)) == NormalizeWww(host) <==> !("www.www." <= PlainHost(host))
  {
    hide PlainHost;
    var h := PlainHost(host);
    if "www." <= h {
      PlainTwice(host, 4);
      TwicePrefixed(h);
    } else {
      PlainTwice(host, 0);
      assert h[0..] == h;
    }
  }

  /** Case, trailing dots and one "www." in front make no difference. */
  lemma {:induction false} WwwPrefix(host: string)
    requires TrimEnd(host, '.') != ""
    ensures PlainHost("www." + host) == "www." + PlainHost(host)
    ensures NormalizeWww("www." + host) == PlainHost(host)
  {
    hide Lower, TrimEnd;
    TrimBehind("www.", host, '.');
    LowerOfConcat("www.", TrimEnd(host, '.'));
    LowerSpelled("www.");
    assert ("www." + PlainHost(host))[4..] == PlainHost(host);
  }

  lemma {:induction false} TrimBehind(front: string, s: string, c: char)
    requires TrimEnd(s, c) != ""
    ensures TrimEnd(front + s, c) == front + TrimEnd(s, c)
  {
    if s != "" && s[|s| - 1] == c {
      assert (front + s)[..|front + s| - 1] == front + s[..|s| - 1];
      TrimBehind(front, s[..|s| - 1], c);
    }
  }

  /** The host on which a second round still changes something. */
  lemma TwoPrefixesNeedTwoRounds()
    ensures NormalizeWww("www.www.a.b") == "www.a.b" && NormalizeWww("www.a.b") == "a.b"
  {
    hide Lower, TrimEnd;
    var once := "www.a.b";
    LowerSpelled(once);
    TrimmedAlready(once, '.');
    assert PlainHost(once) == once;
    WwwPrefix(once);
    assert "www." + once == "www.www.a.b";
    assert "www." <= once && once[4..] == "a.b";
  }

  lemma {:induction false} LowerSpelled(s: string)
    requires forall i | 0 <= i < |s| :: !('A' <= s[i] <= 'Z')
    ensures Lower(s) == s
  {
    if s != "" {
      LowerSpelled(s[1..]);
    }
  }

  // ---- Query pairs -------------------------------------------------------------------------------

  function Find(s: string, c: char): (at: nat)
    ensures at <= |s| && (at < |s| ==> s[at] == c) && c !in s[..at]
  {
    if s == "" || s[0] == c then 0 else Find(s[1..], c) + 1
  }

  /** split(c): never empty; the pieces between the separators. */
  function Split(s: string, c: char): (pieces: seq<string>)
    ensures pieces != [] && forall p | p in pieces :: c !in p
    decreases |s|
  {
    var at := Find(s, c);
    if at == |s| then [s] else [s[..at]] + Split(s[at + 1..], c)
  }

  function Join(pieces: seq<string>, c: char): string {
    if pieces == [] then "" else if |pieces| == 1 then pieces[0] else pieces[0] + [c] + Join(pieces[1..], c)
  }

  predicate IsTracking(pair: string) {
    var key := Lower(pair[..Find(pair, '=')]);
    "utm_" <= key || key in {"fbclid", "gclid", "dclid", "mc_cid", "mc_eid", "_hsenc", "_hsmi"}
  }

  predicate Keeps(pair: string) {
    pair != "" && !IsTracking(pair)
  }

  function Filter(pieces: seq<string>): (kept: seq<string>)
    ensures forall p :: p in kept <==> p in pieces && Keeps(p)
  {
    if pieces == [] then [] else (if Keeps(pieces[0]) then [pieces[0]] else []) + Filter(pieces[1..])
  }

  function KeptPairs(query: Option<string>): seq<string> {
    if query.None? then [] else Filter(Split(query.value, '&'))
  }

  // ---- Sorting -------------------------------------------------------------------------------------

  /** The order of strings: by their scalars, a prefix first. */
  predicate AtMost(a: string, b: string) {
    a == "" || (b != "" && (a[0] < b[0] || (a[0] == b[0] && AtMost(a[1..], b[1..]))))
  }

  lemma {:induction false} Total(a: string, b: string)
    ensures AtMost(a, b) || AtMost(b, a)
    ensures AtMost(a, b) && AtMost(b, a) ==> a == b
  {
    if a != "" && b != "" && a[0] == b[0] {
      Total(a[1..], b[1..]);
      assert a == [a[0]] + a[1..] && b == [b[0]] + b[1..];
    }
  }

  lemma {:induction false} Transitive(a: string, b: string, c: string)
    requires AtMost(a, b) && AtMost(b, c)
    ensures AtMost(a, c)
  {
    if a != "" && a[0] == b[0] == c[0] {
      Transitive(a[1..], b[1..], c[1..]);
    }
  }

  predicate Sorted(s: seq<string>) {
    forall i, j | 0 <= i < j < |s| :: AtMost(s[i], s[j])
  }

  function Insert(s: seq<string>, x: string): seq<string> {
    if s == [] || AtMost(x, s[0]) then [x] + s else [s[0]] + Insert(s[1..], x)
  }

  function Sort(s: seq<string>): seq<string> {
    if s == [] then [] else Insert(Sort(s[1..]), s[0])
  }

  lemma {:induction false} InsertSorts(s: seq<string>, x: string)
    requires Sorted(s)
    ensures Sorted(Insert(s, x)) && multiset(Insert(s, x)) == multiset(s) + multiset{x}
  {
    hide AtMost;
    if s == [] {
    } else if AtMost(x, s[0]) {
      forall j | 0 <= j < |s|
        ensures AtMost(x, s[j])
      {
        if j > 0 {
          Transitive(x, s[0], s[j]);
        }
      }
    } else {
      Total(x, s[0]);
      InsertSorts(s[1..], x);
      assert s == [s[0]] + s[1..];
      forall y | y in Insert(s[1..], x)
        ensures AtMost(s[0], y)
      {
        assert y in multiset(Insert(s[1..], x));
      }
    }
  }

  lemma {:induction false} SortSorts(s: seq<string>)
    ensures Sorted(Sort(s)) && multiset(Sort(s)) == multiset(s)
  {
    if s != [] {
      SortSorts(s[1..]);
      InsertSorts(Sort(s[1..]), s[0]);
      assert s == [s[0]] + s[1..];
    }
  }

  lemma LeastFirst(a: seq<string>, b: seq<string>)
    requires Sorted(a) && Sorted(b) && a != [] && b != []
    requires a[0] in b && b[0] in a
    ensures a[0] == b[0]
  {
    Total(a[0], b[0]);
    Total(a[0], a[0]);
    var i :| 0 <= i < |b| && b[i] == a[0];
    var j :| 0 <= j < |a| && a[j] == b[0];
    assert i == 0 || AtMost(b[0], b[i]);
    assert j == 0 || AtMost(a[0], a[j]);
  }

  lemma WithoutFirst(s: seq<string>)
    requires s != []
    ensures s == [s[0]] + s[1..] && multiset(s[1..]) == multiset(s) - multiset{s[0]} && s[0] in s
  {
    assert s == [s[0]] + s[1..];
  }

  lemma SameMembers(a: seq<string>, b: seq<string>)
    requires multiset(a) == multiset(b)
    ensures |a| == |b| && forall x :: x in a <==> x in b
  {
    assert |multiset(a)| == |a| && |multiset(b)| == |b|;
    assert forall x :: x in a <==> x in multiset(a);
    assert forall x :: x in b <==> x in multiset(b);
  }

  lemma RestSorted(s: seq<string>)
    requires Sorted(s) && s != []
    ensures Sorted(s[1..])
  {
    hide AtMost;
  }

  /** Two sorted lists with the same members, counted, are the same list. */
  lemma {:induction false} SortedUnique(a: seq<string>, b: seq<string>)
    requires Sorted(a) && Sorted(b) && multiset(a) == multiset(b)
    ensures a == b
  {
    hide Sorted;
    SameMembers(a, b);
    if a != [] {
      WithoutFirst(a);
      WithoutFirst(b);
      LeastFirst(a, b);
      RestSorted(a);
      RestSorted(b);
      SortedUnique(a[1..], b[1..]);
    }
  }

  // ---- The canonical form -----------------------------------------------------------------------------

  function EffectivePort(port: Option<nat>): nat {
    if port.Some? then port.value else HTTPS_PORT
  }

  function CanonicalPath(path: string): string {
    var trimmed := TrimEnd(path, '/');
    if trimmed == "" then "/" else trimmed
  }

  function Canonicalize(u: Uri): Canonical {
    Canonical(NormalizeWww(u.host), if u.port == Some(HTTPS_PORT) then None else u.port,
              CanonicalPath(u.path), Sort(KeptPairs(u.query)))
  }

  /**
   Two URLs share their canonical form exactly when they agree on the host up to case, trailing dots
   and one leading "www.", on the effective port, on the path up to trailing slashes, and on the query
   pairs that are neither empty nor tracking, each as often, in whatever order.
   */
  lemma SameFormExactly(u: Uri, v: Uri)
    ensures Canonicalize(u) == Canonicalize(v) <==>
            && NormalizeWww(u.host) == NormalizeWww(v.host)
            && EffectivePort(u.port) == EffectivePort(v.port)
            && TrimEnd(u.path, '/') == TrimEnd(v.path, '/')
            && multiset(KeptPairs(u.query)) == multiset(KeptPairs(v.query))
  {
    hide NormalizeWww, KeptPairs, TrimEnd, CanonicalPath, Sort;
    SamePathExactly(u.path, v.path);
    SameOrderExactly(KeptPairs(u.query), KeptPairs(v.query));
  }

  lemma SamePathExactly(a: string, b: string)
    ensures CanonicalPath(a) == CanonicalPath(b) <==> TrimEnd(a, '/') == TrimEnd(b, '/')
  {
    assert TrimEnd(a, '/') != "/" && TrimEnd(b, '/') != "/";
  }

  lemma SameOrderExactly(a: seq<string>, b: seq<string>)
    ensures Sort(a) == Sort(b) <==> multiset(a) == multiset(b)
  {
    hide Sort;
    SortSorts(a);
    SortSorts(b);
    if multiset(a) == multiset(b) {
      SortedUnique(Sort(a), Sort(b));
    }
  }

  // ---- Canonicalizing again -------------------------------------------------------------------------

  lemma {:induction false} FindFirst(front: string, c: char, back: string)
    requires c !in front
    ensures Find(front + [c] + back, c) == |front|
  {
    if front == "" {
      assert front + [c] + back == [c] + back;
    } else {
      assert (front + [c] + back)[1..] == front[1..] + [c] + back;
      FindFirst(front[1..], c, back);
    }
  }

  lemma {:induction false} FindNone(s: string, c: char)
    requires c !in s
    ensures Find(s, c) == |s|
  {
    if s != "" {
      FindNone(s[1..], c);
    }
  }

  /** Pieces without the separator survive a round through their joined string. */
  lemma {:induction false} SplitJoin(pieces: seq<string>, c: char)
    requires pieces != [] && forall p | p in pieces :: c !in p
    ensures Split(Join(pieces, c), c) == pieces
  {
    var joined := Join(pieces, c);
    if |pieces| == 1 {
      FindNone(joined, c);
    } else {
      var rest := Join(pieces[1..], c);
      FindFirst(pieces[0], c, rest);
      assert joined == pieces[0] + [c] + rest;
      assert joined[..|pieces[0]|] == pieces[0] && joined[|pieces[0]| + 1..] == rest;
      SplitJoin(pieces[1..], c);
    }
  }

  lemma {:induction false} FilterAll(pieces: seq<string>)
    requires forall p | p in pieces :: Keeps(p)
    ensures Filter(pieces) == pieces
  {
    if pieces != [] {
      FilterAll(pieces[1..]);
    }
  }

  lemma SortAgain(s: seq<string>)
    ensures Sort(Sort(s)) == Sort(s)
  {
    SortSorts(s);
    SortSorts(Sort(s));
    SortedUnique(Sort(Sort(s)), Sort(s));
  }

  function QueryOf(pairs: seq<string>): Option<string> {
    if pairs == [] then None else Some(Join(pairs, '&'))
  }

  /** The parts of a canonical string. */
  function AsUri(c: Canonical): Uri {
    Uri(c.host, c.port, c.path, QueryOf(c.pairs))
  }

  lemma PairsAgain(query: Option<string>)
    ensures var pairs := Sort(KeptPairs(query));
            && (forall p | p in pairs :: Keeps(p) && '&' !in p)
            && (pairs != [] ==> KeptPairs(Some(Join(pairs, '&'))) == pairs)
  {
    hide Keeps, AtMost;
    var kept := KeptPairs(query);
    var pairs := Sort(kept);
    SortSorts(kept);
    forall p | p in pairs
      ensures Keeps(p) && '&' !in p
    {
      assert p in multiset(kept);
      assert p in Split(query.value, '&');
    }
    if pairs != [] {
      SplitJoin(pairs, '&');
      FilterAll(pairs);
    }
  }

  lemma PartsIdempotentExactly(u: Uri)
    ensures Canonicalize(AsUri(Canonicalize(u))) == Canonicalize(u) <==> !("www.www." <= PlainHost(u.host))
  {
    hide NormalizeWww, KeptPairs, PlainHost, Join;
    NormalizeWwwIdempotentExactly(u.host);
    PairsAgain(u.query);
    SortAgain(KeptPairs(u.query));
    var c := Canonicalize(u);
    assert CanonicalPath(c.path) == c.path;
    assert c.pairs == [] ==> KeptPairs(None) == [] && Sort([]) == [] by {
      NoPairs();
    }
  }

  lemma NoPairs()
    ensures KeptPairs(None) == [] && Sort([]) == []
  {}

  // ---- The string ------------------------------------------------------------------------------------

  function Decimal(n: nat): (s: string)
    ensures s != "" && forall i | 0 <= i < |s| :: '0' <= s[i] <= '9'
  {
    var digit := ('0' as int + n % 10) as char;
    if n < 10 then [digit] else Decimal(n / 10) + [digit]
  }

  function Number(s: string): nat
    requires forall i | 0 <= i < |s| :: '0' <= s[i] <= '9'
  {
    if s == "" then 0 else 10 * Number(s[..|s| - 1]) + (s[|s| - 1] as int - '0' as int)
  }

  lemma {:induction false} DecimalRead(n: nat)
    ensures Number(Decimal(n)) == n
  {
    if n >= 10 {
      DecimalRead(n / 10);
      var s := Decimal(n);
      assert s[..|s| - 1] == Decimal(n / 10);
    }
  }

  predicate AllDigits(s: string) {
    forall i | 0 <= i < |s| :: '0' <= s[i] <= '9'
  }

  function AuthorityText(host: string, port: Option<string>): string {
    if port.None? then host else host + ":" + port.value
  }

  function QueryText(query: Option<string>): string {
    if query.None? then "" else "?" + query.value
  }

  function Text(host: string, port: Option<string>, path: string, query: Option<string>): string {
    "https://" + AuthorityText(host, port) + path + QueryText(query)
  }

  function PortText(port: Option<nat>): Option<string> {
    if port.None? then None else Some(Decimal(port.value))
  }

  function Render(c: Canonical): string {
    Text(c.host, PortText(c.port), c.path, QueryOf(c.pairs))
  }

  /** What the parser guarantees of the parts: separators only where they separate, and no fragment. */
  predicate Parsed(u: Uri) {
    && ':' !in u.host && '/' !in u.host
    && '?' !in u.path && (u.path == "" || u.path[0] == '/')
    && '#' !in u.host && '#' !in u.path && (u.query.Some? ==> '#' !in u.query.value)
  }

  predicate Separated(host: string, port: Option<string>, path: string) {
    && ':' !in host && '/' !in host
    && '?' !in path && path != "" && path[0] == '/'
    && (port.Some? ==> AllDigits(port.value))
  }

  /** A parser that reads the text finds the parts v; port is how the text spells the port. */
  predicate Reads(text: string, v: Uri, port: Option<string>) {
    && Separated(v.host, port, v.path)
    && (port.Some? <==> v.port.Some?) && (port.Some? ==> port.value != "" && Number(port.value) == v.port.value)
    && text == Text(v.host, port, v.path, v.query) && '#' !in text
  }

  predicate Clean(c: Canonical) {
    && Separated(c.host, PortText(c.port), c.path)
    && forall p | p in c.pairs :: '&' !in p
  }

  lemma CanonicalIsClean(u: Uri)
    requires Parsed(u)
    ensures Clean(Canonicalize(u))
  {
    PairsAgain(u.query);
    CanonicalHostChars(u.host, ':');
    CanonicalHostChars(u.host, '/');
    TrimmedChars(u.path, '/', '?');
  }

  lemma CanonicalHostChars(host: string, c: char)
    requires c !in host && !('a' <= c <= 'z')
    ensures c !in NormalizeWww(host)
  {
    var t := TrimEnd(host, '.');
    forall i | 0 <= i < |t|
      ensures Lower(t)[i] != c
    {
      LowerAt(t, i);
      assert t[i] in host;
    }
  }

  lemma TrimmedChars(s: string, end: char, c: char)
    requires c !in s
    ensures c !in TrimEnd(s, end)
  {
    assert forall i | 0 <= i < |TrimEnd(s, end)| :: TrimEnd(s, end)[i] in s;
  }

  /** Two strings cut at the first c. */
  lemma CutAtFirst(a: string, b: string, c: char, x: string, y: string)
    requires c !in a && c !in b && a + [c] + x == b + [c] + y
    ensures a == b && x == y
  {
    FindFirst(a, c, x);
    FindFirst(b, c, y);
    assert (a + [c] + x)[..|a|] == a && (b + [c] + y)[..|b|] == b;
    assert (a + [c] + x)[|a| + 1..] == x && (b + [c] + y)[|b| + 1..] == y;
  }

  lemma AuthorityDecides(h: string, p: Option<string>, h': string, p': Option<string>)
    requires ':' !in h && ':' !in h' && AuthorityText(h, p) == AuthorityText(h', p')
    ensures h == h' && p == p'
  {
    assert p.Some? ==> AuthorityText(h, p)[|h|] == ':';
    assert p'.Some? ==> AuthorityText(h', p')[|h'|] == ':';
    if p.Some? && p'.Some? {
      CutAtFirst(h, h', ':', p.value, p'.value);
    }
  }

  lemma QueryDecides(x: string, q: Option<string>, x': string, q': Option<string>)
    requires '?' !in x && '?' !in x' && x + QueryText(q) == x' + QueryText(q')
    ensures x == x' && q == q'
  {
    assert q.Some? ==> (x + QueryText(q))[|x|] == '?';
    assert q'.Some? ==> (x' + QueryText(q'))[|x'|] == '?';
    assert (q.None? ==> x + QueryText(q) == x) && (q'.None? ==> x' + QueryText(q') == x');
    if q.Some? && q'.Some? {
      assert x + QueryText(q) == x + ['?'] + q.value && x' + QueryText(q') == x' + ['?'] + q'.value;
      CutAtFirst(x, x', '?', q.value, q'.value);
    }
  }

  lemma NoSlash(host: string, port: Option<string>)
    requires '/' !in host && (port.Some? ==> AllDigits(port.value))
    ensures '/' !in AuthorityText(host, port)
  {}

  lemma TextCut(host: string, port: Option<string>, path: string, query: Option<string>)
    requires path != "" && path[0] == '/'
    ensures Text(host, port, path, query)[|"https://"|..] == AuthorityText(host, port) + ['/'] + (path[1..] + QueryText(query))
  {
    hide AuthorityText, QueryText;
    Regroup("https://", AuthorityText(host, port), path, QueryText(query));
  }

  lemma Regroup(prefix: string, a: string, path: string, q: string)
    requires path != ""
    ensures (prefix + a + path + q)[|prefix|..] == a + [path[0]] + (path[1..] + q)
  {
    assert path == [path[0]] + path[1..];
    assert prefix + a + path + q == prefix + (a + [path[0]] + (path[1..] + q));
  }

  /** A text has one reading. */
  lemma TextDecides(h: string, p: Option<string>, a: string, q: Option<string>,
                    h': string, p': Option<string>, a': string, q': Option<string>)
    requires Separated(h, p, a) && Separated(h', p', a') && Text(h, p, a, q) == Text(h', p', a', q')
    ensures h == h' && p == p' && a == a' && q == q'
  {
    hide Text, QueryText, AuthorityText;
    TextCut(h, p, a, q);
    TextCut(h', p', a', q');
    NoSlash(h, p);
    NoSlash(h', p');
    CutAtFirst(AuthorityText(h, p), AuthorityText(h', p'), '/', a[1..] + QueryText(q), a'[1..] + QueryText(q'));
    AuthorityDecides(h, p, h', p');
    QueryDecides(a[1..], q, a'[1..], q');
    assert a == ['/'] + a[1..] && a' == ['/'] + a'[1..];
  }

  lemma PortDecides(a: Option<nat>, b: Option<nat>)
    requires PortText(a) == PortText(b)
    ensures a == b
  {
    if a.Some? {
      DecimalRead(a.value);
      DecimalRead(b.value);
    }
  }

  lemma PairsDecide(a: seq<string>, b: seq<string>)
    requires QueryOf(a) == QueryOf(b)
    requires (forall p | p in a :: '&' !in p) && (forall p | p in b :: '&' !in p)
    ensures a == b
  {
    hide Join;
    if a != [] {
      SplitJoin(a, '&');
      SplitJoin(b, '&');
    }
  }

  /** The canonical string decides the canonical parts. */
  lemma RenderDecides(a: Canonical, b: Canonical)
    requires Clean(a) && Clean(b) && Render(a) == Render(b)
    ensures a == b
  {
    hide Text, QueryOf, PortText, Separated;
    TextDecides(a.host, PortText(a.port), a.path, QueryOf(a.pairs), b.host, PortText(b.port), b.path, QueryOf(b.pairs));
    PortDecides(a.port, b.port);
    PairsDecide(a.pairs, b.pairs);
  }

  /** The strings by which results are deduplicated are equal exactly when the canonical parts are. */
  lemma SameStringExactly(u: Uri, v: Uri)
    requires Parsed(u) && Parsed(v)
    ensures Render(Canonicalize(u)) == Render(Canonicalize(v)) <==> Canonicalize(u) == Canonicalize(v)
  {
    hide Canonicalize, Render;
    CanonicalIsClean(u);
    CanonicalIsClean(v);
    if Render(Canonicalize(u)) == Render(Canonicalize(v)) {
      RenderDecides(Canonicalize(u), Canonicalize(v));
    }
  }

  // ---- Reading the canonical string back ---------------------------------------------------------------

  lemma {:induction false} SplitChars(s: string, separator: char, c: char)
    requires c !in s
    ensures forall p | p in Split(s, separator) :: c !in p
    decreases |s|
  {
    var at := Find(s, separator);
    if at < |s| {
      SplitChars(s[at + 1..], separator, c);
    }
  }

  lemma {:induction false} JoinChars(pieces: seq<string>, separator: char, c: char)
    requires c != separator && forall p | p in pieces :: c !in p
    ensures c !in Join(pieces, separator)
  {
    if |pieces| > 1 {
      JoinChars(pieces[1..], separator, c);
    }
  }

  lemma TextChars(host: string, port: Option<string>, path: string, query: Option<string>)
    requires '#' !in host && '#' !in path && (port.Some? ==> AllDigits(port.value)) && (query.Some? ==> '#' !in query.value)
    ensures '#' !in Text(host, port, path, query)
  {
    assert '#' !in AuthorityText(host, port) && '#' !in QueryText(query);
  }

  lemma PairsChars(query: Option<string>)
    requires query.Some? ==> '#' !in query.value
    ensures var pairs := Sort(KeptPairs(query)); QueryOf(pairs).Some? ==> '#' !in QueryOf(pairs).value
  {
    var pairs := Sort(KeptPairs(query));
    SortSorts(KeptPairs(query));
    if query.Some? {
      SplitChars(query.value, '&', '#');
    }
    PiecesOnly(query);
    hide Sort, KeptPairs, Join;
    forall p | p in pairs
      ensures '#' !in p
    {
      assert p in multiset(KeptPairs(query));
    }
    JoinChars(pairs, '&', '#');
  }

  lemma NoFragment(u: Uri)
    requires Parsed(u)
    ensures '#' !in Render(Canonicalize(u))
  {
    hide NormalizeWww, TrimEnd, Sort, KeptPairs, QueryOf, Text, Decimal;
    CanonicalHostChars(u.host, '#');
    TrimmedChars(u.path, '/', '#');
    PairsChars(u.query);
    var c := Canonicalize(u);
    TextChars(c.host, PortText(c.port), c.path, QueryOf(c.pairs));
  }

  lemma PiecesOnly(query: Option<string>)
    ensures query.None? ==> KeptPairs(query) == []
    ensures query.Some? ==> forall p | p in KeptPairs(query) :: p in Split(query.value, '&')
  {}

  /** A parser finds in the canonical string the canonical parts, and nothing else. */
  lemma CanonicalReadBack(u: Uri, v: Uri, port: Option<string>)
    requires Parsed(u)
    ensures var c := Canonicalize(u);
            Reads(Render(c), v, port) <==> v == AsUri(c) && port == PortText(c.port)
  {
    var c := Canonicalize(u);
    CanonicalIsClean(u);
    NoFragment(u);
    if c.port.Some? {
      DecimalRead(c.port.value);
    }
    hide Canonicalize, Text, Decimal, Number, QueryOf;
    if Reads(Render(c), v, port) {
      TextDecides(v.host, port, v.path, v.query, c.host, PortText(c.port), c.path, QueryOf(c.pairs));
    }
  }

  /** The canonical string, parsed and canonicalized again, is itself exactly without a doubled "www.". */
  lemma CanonicalizeIdempotentExactly(u: Uri, v: Uri, port: Option<string>)
    requires Parsed(u) && Reads(Render(Canonicalize(u)), v, port)
    ensures Render(Canonicalize(v)) == Render(Canonicalize(u)) <==> !("www.www." <= PlainHost(u.host))
  {
    CanonicalReadBack(u, v, port);
    PartsIdempotentExactly(u);
    ReadsParsed(Render(Canonicalize(u)), v, port);
    SameStringExactly(v, u);
  }

  lemma ReadsParsed(text: string, v: Uri, port: Option<string>)
    requires Reads(text, v, port)
    ensures Parsed(v)
  {
    assert forall x | x in v.host || x in v.path || (v.query.Some? && x in v.query.value) :: x in text;
  }

  // ---- The canonical form, part by part ------------------------------------------------------------------

  /** Small letters for the capital ones of ASCII, nothing else changed. */
  lemma {:induction false} LowerExactly(s: string, i: nat)
    requires i < |s|
    ensures Lower(s)[i] as int == s[i] as int + (if 65 <= s[i] as int <= 90 then 32 else 0)
  {
    LowerAt(s, i);
  }

  predicate SmallerAt(a: string, b: string, n: nat) {
    n < |a| && n < |b| && a[..n] == b[..n] && a[n] < b[n]
  }

  lemma SmallerLater(a: string, b: string, n: nat)
    requires a != "" && b != "" && a[0] == b[0] && n > 0
    ensures SmallerAt(a, b, n) <==> SmallerAt(a[1..], b[1..], n - 1)
  {
    if n < |a| && n < |b| {
      assert a[..n] == [a[0]] + a[1..][..n - 1] && b[..n] == [b[0]] + b[1..][..n - 1];
      assert a[..n][1..] == a[1..][..n - 1] && b[..n][1..] == b[1..][..n - 1];
    }
  }

  lemma SmallerFirst(a: string, b: string)
    ensures a != "" && b != "" && a[0] < b[0] ==> SmallerAt(a, b, 0)
    ensures a != "" && b != "" && a[0] != b[0] ==> !(a <= b) && forall n: nat | n > 0 :: !SmallerAt(a, b, n)
    ensures a != "" && b != "" && a[0] >= b[0] ==> !SmallerAt(a, b, 0)
    ensures a == "" || b == "" ==> forall n: nat :: !SmallerAt(a, b, n)
  {
    if a != "" && b != "" {
      assert a[..0] == b[..0];
      forall n: nat | n > 0 && SmallerAt(a, b, n)
        ensures a[0] == b[0]
      {
        assert a[..n][0] == a[0] && b[..n][0] == b[0];
      }
    }
  }

  /** Strings are ordered by the first scalar in which they differ; a prefix comes first. */
  lemma {:induction false} AtMostExactly(a: string, b: string)
    ensures AtMost(a, b) <==> a <= b || exists n: nat :: SmallerAt(a, b, n)
  {
    hide SmallerAt;
    SmallerFirst(a, b);
    if a != "" && b != "" && a[0] == b[0] {
      AtMostExactly(a[1..], b[1..]);
      assert a == [a[0]] + a[1..] && b == [b[0]] + b[1..];
      forall n: nat
        ensures SmallerAt(a[1..], b[1..], n) <==> SmallerAt(a, b, n + 1)
      {
        SmallerLater(a, b, n + 1);
      }
      forall n: nat | SmallerAt(a, b, n)
        ensures n > 0 && SmallerAt(a[1..], b[1..], n - 1)
      {
        SmallerLater(a, b, if n > 0 then n else 1);
      }
    }
  }

  /** A pair is for tracking by its key, with or without a value, however it is spelled. */
  lemma TrackingExactly(key: string, value: string)
    requires '=' !in key
    ensures IsTracking(key + "=" + value) <==> IsTracking(key)
    ensures IsTracking(key) <==>
              "utm_" <= Lower(key) || Lower(key) in ["fbclid", "gclid", "dclid", "mc_cid", "mc_eid", "_hsenc", "_hsmi"]
  {
    hide Lower;
    FindFirst(key, '=', value);
    FindNone(key, '=');
    assert (key + "=" + value)[..|key|] == key && key[..|key|] == key;
    assert key + "=" + value == key + ['='] + value;
  }

  lemma {:induction false} FilterOfConcat(a: seq<string>, b: seq<string>)
    ensures Filter(a + b) == Filter(a) + Filter(b)
  {
    hide Keeps;
    if a == [] {
      assert a + b == b;
    } else {
      assert (a + b)[1..] == a[1..] + b;
      FilterOfConcat(a[1..], b);
    }
  }

  /** Each piece between the ampersands is kept by itself, unless it is empty or for tracking. */
  lemma FilterExactly(before: seq<string>, piece: string, behind: seq<string>)
    ensures Filter(before + [piece] + behind)
         == Filter(before) + (if piece == "" || IsTracking(piece) then [] else [piece]) + Filter(behind)
  {
    hide Filter, IsTracking;
    FilterOfConcat(before + [piece], behind);
    FilterOfConcat(before, [piece]);
    FilterOne(piece);
  }

  lemma FilterOne(piece: string)
    ensures Filter([piece]) == if piece == "" || IsTracking(piece) then [] else [piece]
  {
    hide IsTracking;
    assert [piece][1..] == [];
  }

  lemma TrimSlashes(path: string, slashes: string)
    requires (path == "" || path[|path| - 1] != '/') && forall c | c in slashes :: c == '/'
    ensures TrimEnd(path + slashes, '/') == path
  {
    var whole := path + slashes;
    var t := TrimEnd(whole, '/');
    assert whole[..|path|] == path;
    assert forall i | |path| <= i < |whole| :: whole[i] == slashes[i - |path|] && slashes[i - |path|] in slashes;
    assert path != "" ==> whole[|path| - 1] == path[|path| - 1];
    if |path| < |t| {
      assert t[|t| - 1] == whole[|t| - 1];
    }
  }

  /**
   The canonical parts in terms of the URL: the host in small letters without trailing dots and without
   one "www."; no port where it is 443; the path without trailing slashes, "/" when nothing is left of
   it; and the kept pairs in order, each as often as it was there.
   */
  lemma CanonicalParts(u: Uri, path: string, slashes: string)
    requires u.path == path + slashes && (path == "" || path[|path| - 1] != '/') && forall c | c in slashes :: c == '/'
    ensures var c := Canonicalize(u); var host := Lower(TrimEnd(u.host, '.'));
            && (if "www." <= host then host == "www." + c.host else c.host == host)
            && (u.port == None || u.port == Some(443) ==> c.port == None)
            && (u.port.Some? && u.port != Some(443) ==> c.port == u.port)
            && c.path == (if path == "" then "/" else path)
            && Sorted(c.pairs) && multiset(c.pairs) == multiset(KeptPairs(u.query))
  {
    hide KeptPairs, Lower, TrimEnd, Sort, Sorted;
    TrimSlashes(path, slashes);
    SortSorts(KeptPairs(u.query));
  }

  /** The canonical string in terms of its parts. */
  lemma RenderSpelled(c: Canonical)
    ensures Render(c) == "https://" + c.host + (if c.port.None? then "" else ":" + Decimal(c.port.value)) + c.path
                         + (if c.pairs == [] then "" else "?" + Join(c.pairs, '&'))
  {
    hide Decimal, Join;
  }
}
