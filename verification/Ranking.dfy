/**
 Deduplication and ranking of search results, src/adapters/web_search/evidence.rs:117-152, for any
 canonical form, any score and any way to read a domain off a URL.
 */
module Ranking {
  import opened Wrappers

  const MAX_SOURCES: nat := 8
  const MAX_SOURCES_PER_DOMAIN: nat := 2

  datatype SearchResult = SearchResult(title: string, url: string, description: string)

  datatype Rules = Rules(
    canonical: string -> Option<string>,
    score: SearchResult -> int,
    domain: string -> Option<string>)

  /** A result under its canonical URL, with its score and its place in the answer of the engine. */
  datatype Candidate = Candidate(score: int, index: nat, result: SearchResult)

  function CandidateAt(rules: Rules, results: seq<SearchResult>, i: nat): Candidate
    requires i < |results| && rules.canonical(results[i].url).Some?
  {
    var r := results[i].(url := rules.canonical(results[i].url).value);
    Candidate(rules.score(r), i, r)
  }

  /** The first result with its canonical URL. */
  predicate IsFirst(rules: Rules, results: seq<SearchResult>, i: nat)
    requires i < |results|
  {
    && rules.canonical(results[i].url).Some?
    && forall j: nat | j < i :: rules.canonical(results[j].url) != rules.canonical(results[i].url)
  }

  function Candidates(rules: Rules, results: seq<SearchResult>, n: nat): seq<Candidate>
    requires n <= |results|
  {
    if n == 0 then []
    else Candidates(rules, results, n - 1) + (if IsFirst(rules, results, n - 1) then [CandidateAt(rules, results, n - 1)] else [])
  }

  // ---- Order -----------------------------------------------------------------------------------

  /** Higher score first, then the earlier result. */
  predicate Outranks(a: Candidate, b: Candidate) {
    a.score > b.score || (a.score == b.score && a.index < b.index)
  }

  predicate Ranked(s: seq<Candidate>) {
    forall i, j | 0 <= i < j < |s| :: Outranks(s[i], s[j])
  }

  predicate DistinctIndices(s: seq<Candidate>) {
    forall i, j | 0 <= i < j < |s| :: s[i].index != s[j].index
  }

  function Insert(s: seq<Candidate>, c: Candidate): seq<Candidate> {
    if s == [] || Outranks(c, s[0]) then [c] + s else [s[0]] + Insert(s[1..], c)
  }

  function Sort(s: seq<Candidate>): seq<Candidate> {
    if s == [] then [] else Insert(Sort(s[..|s| - 1]), s[|s| - 1])
  }

  lemma OutranksOrders(a: Candidate, b: Candidate, c: Candidate)
    ensures Outranks(a, b) && Outranks(b, c) ==> Outranks(a, c)
    ensures a.index != b.index ==> Outranks(a, b) || Outranks(b, a)
  {}

  lemma {:induction false} InsertRanks(s: seq<Candidate>, c: Candidate)
    requires Ranked(s) && forall d | d in s :: d.index != c.index
    ensures Ranked(Insert(s, c)) && multiset(Insert(s, c)) == multiset(s) + multiset{c}
  {
    hide Outranks;
    if s == [] {
    } else if Outranks(c, s[0]) {
      forall i | 0 < i < |s|
        ensures Outranks(c, s[i])
      {
        OutranksOrders(c, s[0], s[i]);
      }
    } else {
      OutranksOrders(c, s[0], c);
      InsertRanks(s[1..], c);
      assert s == [s[0]] + s[1..];
      forall d | d in Insert(s[1..], c)
        ensures Outranks(s[0], d)
      {
        assert d in multiset(Insert(s[1..], c));
      }
    }
  }

  /** Sorting ranks the candidates and keeps every one of them. */
  lemma {:induction false} SortRanks(s: seq<Candidate>)
    requires DistinctIndices(s)
    ensures Ranked(Sort(s)) && multiset(Sort(s)) == multiset(s)
  {
    if s != [] {
      var front := s[..|s| - 1];
      SortRanks(front);
      assert s == front + [s[|s| - 1]];
      forall d | d in Sort(front)
        ensures d.index != s[|s| - 1].index
      {
        assert d in multiset(front);
      }
      InsertRanks(Sort(front), s[|s| - 1]);
    }
  }

  lemma OneMoreCandidate(rules: Rules, results: seq<SearchResult>, n: nat)
    requires n < |results|
    ensures IsFirst(rules, results, n) ==> rules.canonical(results[n].url).Some?
    ensures IsFirst(rules, results, n) ==> CandidateAt(rules, results, n).index == n
    ensures Candidates(rules, results, n + 1)
         == Candidates(rules, results, n) + (if IsFirst(rules, results, n) then [CandidateAt(rules, results, n)] else [])
  {}

  lemma {:induction false} CandidatesDistinct(rules: Rules, results: seq<SearchResult>, n: nat)
    requires n <= |results|
    ensures DistinctIndices(Candidates(rules, results, n))
    ensures forall c | c in Candidates(rules, results, n) :: c.index < n
    ensures forall i: nat | i < n ::
              IsFirst(rules, results, i) <==> exists c | c in Candidates(rules, results, n) :: c.index == i
    ensures forall c | c in Candidates(rules, results, n) ::
              IsFirst(rules, results, c.index) && c == CandidateAt(rules, results, c.index)
  {
    if n > 0 {
      OneMoreCandidate(rules, results, n - 1);
      hide Candidates, IsFirst, CandidateAt;
      CandidatesDistinct(rules, results, n - 1);
      if IsFirst(rules, results, n - 1) {
        Enlisted(Candidates(rules, results, n - 1), CandidateAt(rules, results, n - 1));
      }
    } else {
      assert Candidates(rules, results, n) == [];
    }
  }

  /** One more entry, with an index above those of the others. */
  lemma Enlisted(before: seq<Candidate>, c: Candidate)
    requires DistinctIndices(before) && forall d | d in before :: d.index < c.index
    ensures DistinctIndices(before + [c])
    ensures forall d :: d in before + [c] <==> d in before || d == c
  {
    assert (before + [c])[|before|] == c;
  }

  // ---- The greedy choice ------------------------------------------------------------------------

  function DomainOf(rules: Rules, c: Candidate): Option<string> {
    rules.domain(c.result.url)
  }

  function CountDomain(rules: Rules, s: seq<Candidate>, domain: Option<string>): nat {
    if s == [] then 0
    else CountDomain(rules, s[..|s| - 1], domain) + (if DomainOf(rules, s[|s| - 1]) == domain then 1 else 0)
  }

  predicate Admitted(rules: Rules, kept: seq<Candidate>, c: Candidate) {
    && |kept| < MAX_SOURCES
    && DomainOf(rules, c).Some?
    && CountDomain(rules, kept, DomainOf(rules, c)) < MAX_SOURCES_PER_DOMAIN
  }

  function Pick(rules: Rules, sorted: seq<Candidate>, n: nat): seq<Candidate>
    requires n <= |sorted|
  {
    if n == 0 then []
    else
      var kept := Pick(rules, sorted, n - 1);
      if Admitted(rules, kept, sorted[n - 1]) then kept + [sorted[n - 1]] else kept
  }

  /** The kept candidates that outrank c. */
  function Above(kept: seq<Candidate>, c: Candidate): seq<Candidate> {
    if kept == [] then []
    else Above(kept[..|kept| - 1], c) + (if Outranks(kept[|kept| - 1], c) then [kept[|kept| - 1]] else [])
  }

  lemma {:induction false} AboveAll(kept: seq<Candidate>, c: Candidate)
    requires forall d | d in kept :: Outranks(d, c)
    ensures Above(kept, c) == kept
  {
    hide Outranks;
    if kept != [] {
      var front, last := kept[..|kept| - 1], kept[|kept| - 1];
      assert kept == front + [last];
      assert last in kept && forall d | d in front :: d in kept;
      AboveAll(front, c);
    }
  }

  lemma RankedOneMore(s: seq<Candidate>, c: Candidate)
    requires Ranked(s) && forall d | d in s :: Outranks(d, c)
    ensures Ranked(s + [c])
  {
    forall i, j | 0 <= i < j < |s + [c]|
      ensures Outranks((s + [c])[i], (s + [c])[j])
    {
      assert s[i] in s;
    }
  }

  lemma {:induction false} PickedFrom(rules: Rules, sorted: seq<Candidate>, n: nat)
    requires n <= |sorted|
    ensures forall c | c in Pick(rules, sorted, n) :: c in sorted[..n]
    ensures |Pick(rules, sorted, n)| <= MAX_SOURCES
    ensures Ranked(sorted) ==> Ranked(Pick(rules, sorted, n))
    ensures forall domain: string :: CountDomain(rules, Pick(rules, sorted, n), Some(domain)) <= MAX_SOURCES_PER_DOMAIN
  {
    if n > 0 {
      PickedFrom(rules, sorted, n - 1);
      var kept := Pick(rules, sorted, n - 1);
      assert sorted[..n] == sorted[..n - 1] + [sorted[n - 1]];
      assert (kept + [sorted[n - 1]])[..|kept|] == kept;
      if Ranked(sorted) {
        RankedOneMore(kept, sorted[n - 1]);
      }
    }
  }

  /** What outranks the candidate at k among the finally kept is what had been kept before it. */
  lemma {:induction false} AboveIsPicked(rules: Rules, sorted: seq<Candidate>, k: nat, n: nat)
    requires Ranked(sorted) && k <= n <= |sorted| && k < |sorted|
    ensures Above(Pick(rules, sorted, n), sorted[k]) == Pick(rules, sorted, k)
  {
    if n == k {
      PickedFrom(rules, sorted, k);
      AboveAll(Pick(rules, sorted, k), sorted[k]);
    } else {
      AboveIsPicked(rules, sorted, k, n - 1);
      var kept := Pick(rules, sorted, n - 1);
      assert (kept + [sorted[n - 1]])[..|kept|] == kept;
      assert n - 1 == k || Outranks(sorted[k], sorted[n - 1]);
    }
  }

  lemma {:induction false} KeptOrNot(rules: Rules, sorted: seq<Candidate>, k: nat, n: nat)
    requires Ranked(sorted) && k < n <= |sorted|
    ensures sorted[k] in Pick(rules, sorted, n) <==> Admitted(rules, Pick(rules, sorted, k), sorted[k])
  {
    if n == k + 1 {
      PickedFrom(rules, sorted, k);
    } else {
      KeptOrNot(rules, sorted, k, n - 1);
      assert Outranks(sorted[k], sorted[n - 1]);
    }
  }

  // ---- The result -----------------------------------------------------------------------------------

  function RankedCandidates(rules: Rules, results: seq<SearchResult>): seq<Candidate> {
    var sorted := Sort(Candidates(rules, results, |results|));
    Pick(rules, sorted, |sorted|)
  }

  /**
   The kept candidates, without a loop: they are ranked, and a candidate is among them exactly when
   it has a domain, fewer than eight kept candidates outrank it and fewer than two of its domain do.
   */
  ghost predicate IsRanking(rules: Rules, candidates: seq<Candidate>, kept: seq<Candidate>) {
    && Ranked(kept)
    && (forall c | c in kept :: c in candidates)
    && forall c | c in candidates :: c in kept <==> Admitted(rules, Above(kept, c), c)
  }

  lemma RankingIsExact(rules: Rules, results: seq<SearchResult>)
    ensures IsRanking(rules, Candidates(rules, results, |results|), RankedCandidates(rules, results))
    ensures |RankedCandidates(rules, results)| <= MAX_SOURCES
    ensures forall domain: string ::
              CountDomain(rules, RankedCandidates(rules, results), Some(domain)) <= MAX_SOURCES_PER_DOMAIN
  {
    var candidates := Candidates(rules, results, |results|);
    CandidatesDistinct(rules, results, |results|);
    SortRanks(candidates);
    var sorted := Sort(candidates);
    PickedFrom(rules, sorted, |sorted|);
    assert sorted[..|sorted|] == sorted;
    forall c
      ensures c in candidates <==> c in sorted
    {
      assert c in candidates <==> c in multiset(candidates);
      assert c in sorted <==> c in multiset(sorted);
    }
    forall c | c in candidates
      ensures c in Pick(rules, sorted, |sorted|) <==> Admitted(rules, Above(Pick(rules, sorted, |sorted|), c), c)
    {
      var k :| 0 <= k < |sorted| && sorted[k] == c;
      AboveIsPicked(rules, sorted, k, |sorted|);
      KeptOrNot(rules, sorted, k, |sorted|);
    }
  }

  // ---- Uniqueness ---------------------------------------------------------------------------------

  predicate SameMembers(a: seq<Candidate>, b: seq<Candidate>) {
    (forall c | c in a :: c in b) && (forall c | c in b :: c in a)
  }

  /** Two ranked lists with the same members are the same list. */
  lemma {:induction false} RankedEqual(a: seq<Candidate>, b: seq<Candidate>)
    requires Ranked(a) && Ranked(b) && SameMembers(a, b)
    ensures a == b
    decreases |a|
  {
    assert (a != [] ==> a[0] in a) && (b != [] ==> b[0] in b);
    if a != [] {
      assert a[0] in b && b[0] in a;
      assert a[0] == b[0];
      forall c | c in a[1..]
        ensures c in b[1..]
      {
        assert c in b && Outranks(a[0], c);
      }
      forall c | c in b[1..]
        ensures c in a[1..]
      {
        assert c in a && Outranks(b[0], c);
      }
      RankedEqual(a[1..], b[1..]);
    }
  }

  lemma {:induction false} AboveMembers(kept: seq<Candidate>, c: Candidate)
    ensures forall d :: d in Above(kept, c) <==> d in kept && Outranks(d, c)
    ensures Ranked(kept) ==> Ranked(Above(kept, c))
  {
    if kept != [] {
      var front := kept[..|kept| - 1];
      AboveMembers(front, c);
      assert kept == front + [kept[|kept| - 1]];
      if Ranked(kept) {
        assert forall i | 0 <= i < |front| :: front[i] == kept[i];
        RankedOneMore(Above(front, c), kept[|kept| - 1]);
      }
    }
  }

  ghost function Better(candidates: seq<Candidate>, c: Candidate): set<Candidate> {
    set d | d in candidates && Outranks(d, c)
  }

  /** Two rankings agree on a candidate once they agree on every candidate that outranks it. */
  lemma {:induction false} Agree(rules: Rules, candidates: seq<Candidate>, a: seq<Candidate>, b: seq<Candidate>, c: Candidate)
    requires IsRanking(rules, candidates, a) && IsRanking(rules, candidates, b) && c in candidates
    ensures c in a <==> c in b
    decreases Better(candidates, c)
  {
    hide Admitted;
    AboveMembers(a, c);
    AboveMembers(b, c);
    forall d | d in candidates && Outranks(d, c)
      ensures d in a <==> d in b
    {
      assert d in Better(candidates, c) && d !in Better(candidates, d);
      Agree(rules, candidates, a, b, d);
    }
    RankedEqual(Above(a, c), Above(b, c));
  }

  lemma RankingIsUnique(rules: Rules, candidates: seq<Candidate>, a: seq<Candidate>, b: seq<Candidate>)
    requires IsRanking(rules, candidates, a) && IsRanking(rules, candidates, b)
    ensures a == b
  {
    forall c | c in candidates
      ensures c in a <==> c in b
    {
      Agree(rules, candidates, a, b, c);
    }
    RankedEqual(a, b);
  }

  // ---- The loops ------------------------------------------------------------------------------------

  /** The first pass: one candidate a canonical URL. */
  method Deduplicate(rules: Rules, results: seq<SearchResult>) returns (candidates: seq<Candidate>)
    ensures candidates == Candidates(rules, results, |results|)
  {
    var seen: set<string> := {};
    candidates := [];
    for i := 0 to |results|
      invariant candidates == Candidates(rules, results, i)
      invariant forall url :: url in seen <==> exists j: nat | j < i :: rules.canonical(results[j].url) == Some(url)
    {
      var canonical := rules.canonical(results[i].url);
      if canonical.Some? && canonical.value !in seen {
        seen := seen + {canonical.value};
        candidates := candidates + [CandidateAt(rules, results, i)];
      }
    }
  }

  /** The last pass, with its running counts. */
  method Choose(rules: Rules, sorted: seq<Candidate>) returns (kept: seq<Candidate>)
    ensures kept == Pick(rules, sorted, |sorted|)
  {
    var counts: map<string, nat> := map[];
    kept := [];
    for i := 0 to |sorted|
      invariant kept == Pick(rules, sorted, i) && |kept| < MAX_SOURCES
      invariant forall d: string :: CountDomain(rules, kept, Some(d)) == if d in counts then counts[d] else 0
    {
      var domain := DomainOf(rules, sorted[i]);
      if domain.None? {
        continue;
      }
      var count := if domain.value in counts then counts[domain.value] else 0;
      if count >= MAX_SOURCES_PER_DOMAIN {
        counts := counts[domain.value := count];
        continue;
      }
      counts := counts[domain.value := count + 1];
      assert (kept + [sorted[i]])[..|kept|] == kept;
      kept := kept + [sorted[i]];
      if |kept| == MAX_SOURCES {
        FullStays(rules, sorted, i + 1, |sorted|);
        return;
      }
    }
  }

  lemma {:induction false} FullStays(rules: Rules, sorted: seq<Candidate>, i: nat, n: nat)
    requires i <= n <= |sorted| && |Pick(rules, sorted, i)| == MAX_SOURCES
    ensures Pick(rules, sorted, n) == Pick(rules, sorted, i)
  {
    if i < n {
      FullStays(rules, sorted, i, n - 1);
    }
  }

  // ---- The answer in terms of the results themselves ----------------------------------------------------

  /** c is result number c.index, the first of its canonical URL, rewritten to that URL and scored so. */
  predicate Stands(rules: Rules, results: seq<SearchResult>, c: Candidate) {
    && c.index < |results|
    && var r := results[c.index];
       && rules.canonical(r.url) == Some(c.result.url)
       && c.result.title == r.title && c.result.description == r.description
       && c.score == rules.score(c.result)
       && forall j: nat | j < c.index :: rules.canonical(results[j].url) != rules.canonical(r.url)
  }

  predicate Before(a: Candidate, b: Candidate) {
    if a.score == b.score then a.index < b.index else a.score > b.score
  }

  /** Why a result is not in the answer: eight better ones, or two better ones of its domain. */
  ghost predicate Crowded(rules: Rules, ranked: seq<Candidate>, c: Candidate) {
    || (|ranked| == 8 && forall d | d in ranked :: Before(d, c))
    || exists i, j | 0 <= i < j < |ranked| ::
         Before(ranked[i], c) && Before(ranked[j], c)
         && rules.domain(ranked[i].result.url) == rules.domain(ranked[j].result.url) == rules.domain(c.result.url)
  }

  /** Everything that is asked of an answer. */
  ghost predicate IsAnswer(rules: Rules, results: seq<SearchResult>, ranked: seq<Candidate>) {
    && |ranked| <= 8
    && (forall c | c in ranked :: Stands(rules, results, c) && rules.domain(c.result.url).Some?)
    && (forall i, j | 0 <= i < j < |ranked| :: Before(ranked[i], ranked[j]))
    && (forall i, j, k | 0 <= i < j < k < |ranked| ::
          !(rules.domain(ranked[i].result.url) == rules.domain(ranked[j].result.url) == rules.domain(ranked[k].result.url)))
    && (forall c | Stands(rules, results, c) && rules.domain(c.result.url).Some? :: c in ranked || Crowded(rules, ranked, c))
  }

  lemma BeforeIsOutranks(a: Candidate, b: Candidate)
    ensures Before(a, b) <==> Outranks(a, b)
  {}

  lemma {:induction false} AboveLength(kept: seq<Candidate>, c: Candidate)
    ensures |Above(kept, c)| <= |kept|
    ensures |Above(kept, c)| == |kept| ==> Above(kept, c) == kept
  {
    hide Outranks;
    if kept != [] {
      AboveLength(kept[..|kept| - 1], c);
    }
  }

  lemma {:induction false} SomeOfDomain(rules: Rules, s: seq<Candidate>, domain: Option<string>) returns (i: nat)
    requires CountDomain(rules, s, domain) > 0
    ensures i < |s| && DomainOf(rules, s[i]) == domain && CountDomain(rules, s[..i], domain) == CountDomain(rules, s, domain) - 1
  {
    i := |s| - 1;
    if DomainOf(rules, s[i]) != domain {
      var front := s[..i];
      i := SomeOfDomain(rules, front, domain);
      assert front[..i] == s[..i];
    }
  }

  lemma TwoOfDomain(rules: Rules, s: seq<Candidate>, domain: Option<string>) returns (i: nat, j: nat)
    requires CountDomain(rules, s, domain) >= 2
    ensures i < j < |s| && DomainOf(rules, s[i]) == domain == DomainOf(rules, s[j])
  {
    j := SomeOfDomain(rules, s, domain);
    i := SomeOfDomain(rules, s[..j], domain);
  }

  lemma {:induction false} CountGrows(rules: Rules, s: seq<Candidate>, n: nat, domain: Option<string>)
    requires n <= |s|
    ensures CountDomain(rules, s[..n], domain) <= CountDomain(rules, s, domain)
    decreases |s|
  {
    if n < |s| {
      CountGrows(rules, s[..|s| - 1], n, domain);
      assert s[..|s| - 1][..n] == s[..n];
    } else {
      assert s[..n] == s;
    }
  }

  lemma OneMoreOfDomain(rules: Rules, s: seq<Candidate>, i: nat, domain: Option<string>)
    requires i < |s| && DomainOf(rules, s[i]) == domain
    ensures CountDomain(rules, s[..i + 1], domain) == CountDomain(rules, s[..i], domain) + 1
  {
    assert s[..i + 1][..i] == s[..i];
  }

  lemma NoThirdOfDomain(rules: Rules, s: seq<Candidate>, i: nat, j: nat, k: nat)
    requires i < j < k < |s| && DomainOf(rules, s[i]) == DomainOf(rules, s[j]) == DomainOf(rules, s[k])
    ensures CountDomain(rules, s, DomainOf(rules, s[i])) >= 3
  {
    hide CountDomain, DomainOf;
    var d := DomainOf(rules, s[i]);
    OneMoreOfDomain(rules, s, i, d);
    OneMoreOfDomain(rules, s, j, d);
    OneMoreOfDomain(rules, s, k, d);
    CountGrows(rules, s[..j], i + 1, d);
    assert s[..j][..i + 1] == s[..i + 1];
    CountGrows(rules, s[..k], j + 1, d);
    assert s[..k][..j + 1] == s[..j + 1];
    CountGrows(rules, s, k + 1, d);
  }

  lemma CandidateStands(rules: Rules, results: seq<SearchResult>, c: Candidate)
    ensures Stands(rules, results, c) <==> c in Candidates(rules, results, |results|)
  {
    CandidatesDistinct(rules, results, |results|);
    hide Candidates;
    if Stands(rules, results, c) {
      assert IsFirst(rules, results, c.index);
      assert c == CandidateAt(rules, results, c.index);
      var d :| d in Candidates(rules, results, |results|) && d.index == c.index;
      assert d == c;
    }
  }

  lemma LeftOutIsCrowded(rules: Rules, ranked: seq<Candidate>, c: Candidate)
    requires !Admitted(rules, Above(ranked, c), c) && DomainOf(rules, c).Some? && |ranked| <= 8
    ensures Crowded(rules, ranked, c)
  {
    hide Outranks, Before;
    AboveMembers(ranked, c);
    AboveLength(ranked, c);
    var above := Above(ranked, c);
    forall d | d in above
      ensures Before(d, c) && d in ranked
    {
      BeforeIsOutranks(d, c);
    }
    if |above| < 8 {
      var i, j := TwoOfDomain(rules, above, DomainOf(rules, c));
      var i', j' := AbovePlaces(ranked, c, i, j);
      assert Before(ranked[i'], c) && Before(ranked[j'], c);
    }
  }

  /** The places of two of them in the list. */
  lemma {:induction false} AbovePlaces(kept: seq<Candidate>, c: Candidate, i: nat, j: nat) returns (i': nat, j': nat)
    requires i < j < |Above(kept, c)|
    ensures i' < j' < |kept| && kept[i'] == Above(kept, c)[i] && kept[j'] == Above(kept, c)[j]
  {
    hide Outranks;
    var front := kept[..|kept| - 1];
    if j < |Above(front, c)| {
      i', j' := AbovePlaces(front, c, i, j);
    } else {
      i' := AbovePlace(front, c, i);
      j' := |kept| - 1;
    }
  }

  lemma {:induction false} AbovePlace(kept: seq<Candidate>, c: Candidate, i: nat) returns (i': nat)
    requires i < |Above(kept, c)|
    ensures i' < |kept| && kept[i'] == Above(kept, c)[i]
  {
    hide Outranks;
    var front := kept[..|kept| - 1];
    if i < |Above(front, c)| {
      i' := AbovePlace(front, c, i);
    } else {
      i' := |kept| - 1;
    }
  }

  lemma RankingIsAnswer(rules: Rules, results: seq<SearchResult>)
    ensures IsAnswer(rules, results, RankedCandidates(rules, results))
  {
    hide Candidates, Above, Outranks, Stands, Before, Crowded, RankedCandidates, CountDomain;
    var ranked := RankedCandidates(rules, results);
    RankingIsExact(rules, results);
    forall c
      ensures Stands(rules, results, c) <==> c in Candidates(rules, results, |results|)
    {
      CandidateStands(rules, results, c);
    }
    forall i, j | 0 <= i < j < |ranked|
      ensures Before(ranked[i], ranked[j])
    {
      BeforeIsOutranks(ranked[i], ranked[j]);
    }
    forall i, j, k | 0 <= i < j < k < |ranked|
      ensures !(rules.domain(ranked[i].result.url) == rules.domain(ranked[j].result.url) == rules.domain(ranked[k].result.url))
    {
      KeptHasDomain(rules, results, ranked, ranked[i]);
      assert CountDomain(rules, ranked, Some(DomainOf(rules, ranked[i]).value)) <= MAX_SOURCES_PER_DOMAIN;
      if DomainOf(rules, ranked[i]) == DomainOf(rules, ranked[j]) == DomainOf(rules, ranked[k]) {
        NoThirdOfDomain(rules, ranked, i, j, k);
        assert false;
      }
    }
    forall c | c in ranked
      ensures rules.domain(c.result.url).Some?
    {
      KeptHasDomain(rules, results, ranked, c);
    }
    forall c | Stands(rules, results, c) && rules.domain(c.result.url).Some? && c !in ranked
      ensures Crowded(rules, ranked, c)
    {
      LeftOutIsCrowded(rules, ranked, c);
    }
  }

  lemma KeptHasDomain(rules: Rules, results: seq<SearchResult>, ranked: seq<Candidate>, c: Candidate)
    requires IsRanking(rules, Candidates(rules, results, |results|), ranked) && c in ranked
    ensures DomainOf(rules, c).Some?
  {
    hide Candidates, Above, CountDomain, Ranked;
    assert c in Candidates(rules, results, |results|);
  }

  method RankAndDeduplicate(rules: Rules, results: seq<SearchResult>) returns (ranked: seq<Candidate>)
    ensures ranked == RankedCandidates(rules, results)
    ensures IsRanking(rules, Candidates(rules, results, |results|), ranked)
    ensures IsAnswer(rules, results, ranked)
  {
    hide RankedCandidates, IsRanking, IsAnswer, Sort, Candidates;
    RankedIs(rules, results);
    var candidates := Deduplicate(rules, results);
    var sorted := Sort(candidates);
    ranked := Choose(rules, sorted);
    RankingIsExact(rules, results);
    RankingIsAnswer(rules, results);
  }

  lemma RankedIs(rules: Rules, results: seq<SearchResult>)
    ensures var sorted := Sort(Candidates(rules, results, |results|)); RankedCandidates(rules, results) == Pick(rules, sorted, |sorted|)
  {}
}
