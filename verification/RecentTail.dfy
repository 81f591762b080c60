/**
 The recent tail a compaction keeps, src/runtime_core/knowledge/compaction/recent_tail.rs:22-158: whole
 exchanges from the back, each opened by a user record.
 */
module RecentTail {
  import opened Wrappers
  import opened Tokens

  const RECORD_OVERHEAD_TOKENS: nat := 8
  const MAX_RECENT_RECORDS: nat := 64

  datatype Record = Record(id: string, kind: string, content: string)

  function RecordCost(r: Record): nat {
    RECORD_OVERHEAD_TOKENS + EstimateTokens(r.kind) + EstimateTokens(r.content)
  }

  function Cost(records: seq<Record>): nat {
    if records == [] then 0 else RecordCost(records[0]) + Cost(records[1..])
  }

  function FixedCost(records: seq<Record>): nat {
    if records == [] then 0 else RECORD_OVERHEAD_TOKENS + EstimateTokens(records[0].kind) + FixedCost(records[1..])
  }

  function Estimates(texts: seq<string>): nat {
    if texts == [] then 0 else EstimateTokens(texts[0]) + Estimates(texts[1..])
  }

  function Kinds(records: seq<Record>): seq<string> {
    seq(|records|, i requires 0 <= i < |records| => records[i].kind)
  }

  function Contents(records: seq<Record>): seq<string> {
    seq(|records|, i requires 0 <= i < |records| => records[i].content)
  }

  /** Eight tokens a record, and the estimates of its kind and of its content. */
  lemma {:induction false} CostCounts(records: seq<Record>)
    ensures FixedCost(records) == 8 * |records| + Estimates(Kinds(records))
    ensures Cost(records) == FixedCost(records) + Estimates(Contents(records))
  {
    hide EstimateTokens;
    if records != [] {
      CostCounts(records[1..]);
      assert Kinds(records)[1..] == Kinds(records[1..]) && Contents(records)[1..] == Contents(records[1..]);
    }
  }

  predicate Opens(records: seq<Record>, i: nat) {
    i < |records| && records[i].kind == "user"
  }

  /** The number of exchanges that begin in records. */
  function Exchanges(records: seq<Record>): nat {
    if records == [] then 0 else (if records[0].kind == "user" then 1 else 0) + Exchanges(records[1..])
  }

  /** Whether the exchanges from start on may be kept together. */
  predicate Fits(records: seq<Record>, start: nat, budget: nat)
    requires start <= |records|
  {
    Cost(records[start..]) <= budget && |records| - start <= MAX_RECENT_RECORDS
  }

  /**
   What the selection promises: it starts at an exchange, holds at most max of them, more than one
   only if they fit, and the exchange before it could not have been added.
   */
  predicate LargestTail(records: seq<Record>, start: nat, budget: nat, max: nat) {
    && Opens(records, start)
    && 0 < Exchanges(records[start..]) <= max
    && (Exchanges(records[start..]) > 1 ==> Fits(records, start, budget))
    && forall earlier: nat | earlier < start && Opens(records, earlier)
                             && (forall i: nat | earlier < i < start :: !Opens(records, i)) ::
         Exchanges(records[start..]) == max || !Fits(records, earlier, budget)
  }

  lemma {:induction false} CostOfConcat(a: seq<Record>, b: seq<Record>)
    ensures Cost(a + b) == Cost(a) + Cost(b)
    ensures Exchanges(a + b) == Exchanges(a) + Exchanges(b)
  {
    if a == [] {
      assert a + b == b;
    } else {
      assert (a + b)[1..] == a[1..] + b;
      CostOfConcat(a[1..], b);
    }
  }

  /** A stretch that only its first record opens is one exchange. */
  lemma {:induction false} OneExchange(records: seq<Record>)
    requires forall i: nat | 0 < i < |records| :: records[i].kind != "user"
    requires records != [] && records[0].kind == "user"
    ensures Exchanges(records) == 1
  {
    NoExchange(records[1..]);
  }

  lemma {:induction false} NoExchange(records: seq<Record>)
    requires forall r | r in records :: r.kind != "user"
    ensures Exchanges(records) == 0
  {
    if records != [] {
      NoExchange(records[1..]);
    }
  }

  // ---- Cutting down a single exchange ------------------------------------------------------------

  /** The last model record. */
  function LastModel(records: seq<Record>): (at: Option<nat>)
    ensures at.Some? ==> at.value < |records| && records[at.value].kind == "model"
    ensures at.Some? ==> forall i | at.value < i < |records| :: records[i].kind != "model"
    ensures at.None? ==> forall i | 0 <= i < |records| :: records[i].kind != "model"
  {
    if records == [] then None
    else if records[|records| - 1].kind == "model" then Some(|records| - 1)
    else LastModel(records[..|records| - 1])
  }

  /** The chosen positions, filled up from the back until there are limit of them. */
  function FillUp(chosen: set<nat>, index: nat, limit: nat): set<nat>
    decreases index
  {
    if index == 0 || |chosen| == limit then chosen else FillUp(chosen + {index}, index - 1, limit)
  }

  function Kept(records: seq<Record>, limit: nat): set<nat>
    requires records != []
  {
    var model := LastModel(records);
    FillUp({0} + (if model.Some? then {model.value} else {}), |records| - 1, limit)
  }

  /** The records at the chosen positions, in order. */
  function Pick(records: seq<Record>, chosen: set<nat>): seq<Record> {
    if records == [] then []
    else
      var last := |records| - 1;
      Pick(records[..last], chosen) + (if last in chosen then [records[last]] else [])
  }

  function Essential(records: seq<Record>, limit: nat): seq<Record> {
    if |records| <= limit then records else Pick(records, Kept(records, limit))
  }

  lemma {:induction false} FillUpSize(chosen: set<nat>, index: nat, limit: nat)
    requires |chosen| <= limit
    ensures chosen <= FillUp(chosen, index, limit)
    ensures |FillUp(chosen, index, limit)| <= limit
    ensures forall i | i in FillUp(chosen, index, limit) :: i in chosen || i <= index
    decreases index
  {
    if index > 0 && |chosen| < limit {
      FillUpSize(chosen + {index}, index - 1, limit);
    }
  }

  lemma {:induction false} PickSize(records: seq<Record>, chosen: set<nat>)
    ensures |Pick(records, chosen)| <= |chosen|
    ensures forall i: nat | i < |records| && i in chosen :: records[i] in Pick(records, chosen)
    ensures records != [] && 0 in chosen ==> Pick(records, chosen) != [] && Pick(records, chosen)[0] == records[0]
  {
    if records != [] {
      var last := |records| - 1;
      PickSize(records[..last], chosen - {last});
      PickIgnores(records[..last], chosen, last);
      var front := Pick(records[..last], chosen);
      assert Pick(records, chosen) == front + (if last in chosen then [records[last]] else []);
      hide Pick;
      forall i: nat | i < |records| && i in chosen
        ensures records[i] in Pick(records, chosen)
      {
        if i < last {
          assert records[..last][i] in front;
        }
      }
    }
  }

  /** How many positions below end are chosen. */
  function Rank(chosen: set<nat>, end: nat): nat {
    if end == 0 then 0 else Rank(chosen, end - 1) + (if end - 1 in chosen then 1 else 0)
  }

  /** The chosen records and no others, each at its rank. */
  lemma {:induction false} PickExactly(records: seq<Record>, chosen: set<nat>)
    ensures |Pick(records, chosen)| == Rank(chosen, |records|)
    ensures forall i: nat | i < |records| && i in chosen ::
              Rank(chosen, i) < |Pick(records, chosen)| && Pick(records, chosen)[Rank(chosen, i)] == records[i]
  {
    if records != [] {
      var last := |records| - 1;
      PickExactly(records[..last], chosen);
    }
  }

  lemma {:induction false} PickIgnores(records: seq<Record>, chosen: set<nat>, other: nat)
    requires other >= |records|
    ensures Pick(records, chosen) == Pick(records, chosen - {other})
  {
    if records != [] {
      PickIgnores(records[..|records| - 1], chosen, other);
    }
  }

  /** At most limit records, among them the first and the last model record. */
  lemma EssentialKeeps(records: seq<Record>, limit: nat)
    requires records != [] && (limit >= 2 || |records| <= limit)
    ensures var e := Essential(records, limit);
            && |e| <= limit && e != [] && e[0] == records[0]
            && (LastModel(records).Some? ==> records[LastModel(records).value] in e)
  {
    if |records| > limit {
      var model := LastModel(records);
      var first := {0} + (if model.Some? then {model.value} else {});
      FillUpSize(first, |records| - 1, limit);
      PickSize(records, Kept(records, limit));
    }
  }

  /** The loop over the ordered set of positions. */
  method EssentialRecords(records: seq<Record>, limit: nat) returns (result: seq<Record>)
    ensures result == Essential(records, limit)
  {
    if |records| <= limit {
      return records;
    }
    var selected := {0};
    var model := LastModel(records);
    if model.Some? {
      selected := selected + {model.value};
    }
    var index: nat := |records| - 1;
    while index > 0 && |selected| != limit
      invariant FillUp(selected, index, limit) == Kept(records, limit)
    {
      selected := selected + {index};
      index := index - 1;
    }
    result := Pick(records, selected);
  }

  function Cut(records: seq<Record>, each: nat): seq<Record> {
    if records == [] then []
    else [records[0].(content := TruncateTail(records[0].content, each))] + Cut(records[1..], each)
  }

  lemma {:induction false} CutCost(records: seq<Record>, each: nat)
    ensures |Cut(records, each)| == |records|
    ensures Cost(Cut(records, each)) <= FixedCost(records) + |records| * each
  {
    hide EstimateTokens, TruncateTail;
    if records != [] {
      CutCost(records[1..], each);
      TruncationFits(records[0].content, each);
      var cut := Cut(records, each);
      assert cut[1..] == Cut(records[1..], each);
      assert RecordCost(cut[0]) <= RECORD_OVERHEAD_TOKENS + EstimateTokens(records[0].kind) + each;
      assert |records| * each == each + |records[1..]| * each;
    }
  }

  /** The largest number of records, from limit down to two, whose fixed cost fits. */
  function FittingLimit(records: seq<Record>, budget: nat, limit: nat): nat {
    if FixedCost(Essential(records, limit)) > budget && limit > 2 then FittingLimit(records, budget, limit - 1) else limit
  }

  function Share(total: nat, count: nat): nat
    requires count > 0
  {
    total / count
  }

  lemma EachShare(total: nat, count: nat)
    requires count > 0
    ensures count * Share(total, count) <= total < count * (Share(total, count) + 1)
  {}

  /** A single exchange cut down: its essential records, each with an equal share of what the budget leaves. */
  function CutDown(records: seq<Record>, budget: nat): seq<Record> {
    var kept := Essential(records, FittingLimit(records, budget, Min(|records|, MAX_RECENT_RECORDS)));
    if FixedCost(kept) > budget || kept == [] then []
    else if Cost(records) <= budget && |records| <= MAX_RECENT_RECORDS then kept
    else Cut(kept, Share(budget - FixedCost(kept), |kept|))
  }

  /** The same records, each content truncated to each tokens. */
  predicate IsCut(kept: seq<Record>, cut: seq<Record>, each: nat) {
    && |cut| == |kept|
    && forall i | 0 <= i < |kept| ::
         cut[i].id == kept[i].id && cut[i].kind == kept[i].kind && IsTruncation(kept[i].content, each, cut[i].content)
  }

  /** The largest equal share of what the budget leaves beside the fixed costs. */
  predicate IsShare(kept: seq<Record>, each: nat, budget: nat) {
    FixedCost(kept) + |kept| * each <= budget < FixedCost(kept) + |kept| * (each + 1)
  }

  /** The records that are kept of an exchange, before their contents are cut. */
  function Selected(records: seq<Record>, budget: nat): seq<Record> {
    Essential(records, FittingLimit(records, budget, Min(|records|, MAX_RECENT_RECORDS)))
  }

  /** The first record's id and kind survive; the content of each record gets an equal share of the budget. */
  method BoundedSingleExchange(records: seq<Record>, budget: nat) returns (bounded: seq<Record>)
    requires records != []
    ensures bounded == CutDown(records, budget)
    ensures bounded == [] <==> FixedCost(Selected(records, budget)) > budget
    ensures bounded != [] ==> if Cost(records) <= budget && |records| <= 64 then bounded == records
                              else exists each: nat :: IsCut(Selected(records, budget), bounded, each)
                                                       && IsShare(Selected(records, budget), each, budget)
    ensures Cost(bounded) <= budget && |bounded| <= MAX_RECENT_RECORDS
    ensures bounded != [] ==> bounded[0].id == records[0].id && bounded[0].kind == records[0].kind
    ensures bounded == [] ==> FixedCost(Essential(records, Min(|records|, 2))) > budget
    ensures bounded != [] && LastModel(records).Some? ==>
              exists r | r in bounded :: r.id == records[LastModel(records).value].id && r.kind == "model"
  {
    hide Cost, FixedCost, Essential, Cut, LastModel, Pick, Kept, EstimateTokens, Share, IsCut;
    var recordLimit := Min(|records|, MAX_RECENT_RECORDS);
    bounded := EssentialRecords(records, recordLimit);
    while FixedCost(bounded) > budget && recordLimit > 2
      invariant recordLimit <= |records| && recordLimit <= MAX_RECENT_RECORDS
      invariant recordLimit >= Min(|records|, 2)
      invariant bounded == Essential(records, recordLimit)
      invariant FittingLimit(records, budget, recordLimit) == FittingLimit(records, budget, Min(|records|, MAX_RECENT_RECORDS))
      decreases recordLimit
    {
      recordLimit := recordLimit - 1;
      bounded := EssentialRecords(records, recordLimit);
    }
    EssentialKeeps(records, recordLimit);
    if FixedCost(bounded) > budget {
      NothingBehind(records);
      return [];
    }
    if Cost(records) <= budget && |records| <= MAX_RECENT_RECORDS {
      EssentialCost(records, recordLimit);
      NothingToDrop(records, budget);
      return;
    }
    var each := Share(budget - FixedCost(bounded), |bounded|);
    EachShare(budget - FixedCost(bounded), |bounded|);
    CutCost(bounded, each);
    CutKeeps(bounded, each, records, LastModel(records));
    CutPointwise(bounded, each);
    assert IsShare(bounded, each, budget);
    bounded := Cut(bounded, each);
  }

  lemma {:induction false} FixedIsLess(records: seq<Record>)
    ensures FixedCost(records) <= Cost(records)
  {
    hide EstimateTokens;
    if records != [] {
      FixedIsLess(records[1..]);
    }
  }

  lemma NothingToDrop(records: seq<Record>, budget: nat)
    requires Cost(records) <= budget && |records| <= MAX_RECENT_RECORDS
    ensures Selected(records, budget) == records
  {
    FixedIsLess(records);
    hide Cost, FixedCost;
  }

  lemma EssentialCost(records: seq<Record>, limit: nat)
    requires records != []
    ensures Cost(Essential(records, limit)) <= Cost(records)
  {
    if |records| > limit {
      PickCost(records, Kept(records, limit));
    }
  }

  lemma {:induction false} PickCost(records: seq<Record>, chosen: set<nat>)
    ensures Cost(Pick(records, chosen)) <= Cost(records)
  {
    if records != [] {
      var last := |records| - 1;
      PickCost(records[..last], chosen);
      assert records == records[..last] + [records[last]];
      CostOfConcat(records[..last], [records[last]]);
      CostOfConcat(Pick(records[..last], chosen), if last in chosen then [records[last]] else []);
    }
  }

  lemma {:induction false} CutPointwise(records: seq<Record>, each: nat)
    ensures |Cut(records, each)| == |records|
    ensures IsCut(records, Cut(records, each), each)
  {
    hide TruncateTail, IsTruncation;
    if records != [] {
      CutPointwise(records[1..], each);
      TruncatedExactly(records[0].content, each, TruncateTail(records[0].content, each));
    }
  }

  /** The cut records are the same records by id and kind. */
  lemma CutKeeps(kept: seq<Record>, each: nat, records: seq<Record>, model: Option<nat>)
    requires kept != []
    requires model.Some? ==> model.value < |records| && records[model.value] in kept
    ensures |Cut(kept, each)| == |kept|
    ensures Cut(kept, each)[0].id == kept[0].id && Cut(kept, each)[0].kind == kept[0].kind
    ensures model.Some? ==> exists r | r in Cut(kept, each) :: r.id == records[model.value].id && r.kind == records[model.value].kind
  {
    CutPointwise(kept, each);
    hide Cut, IsTruncation;
    if model.Some? {
      var i :| 0 <= i < |kept| && kept[i] == records[model.value];
      assert Cut(kept, each)[i] in Cut(kept, each);
    }
  }

  // ---- The selection -----------------------------------------------------------------------------

  lemma OneMoreStart(records: seq<Record>, front: seq<nat>)
    requires records != []
    requires forall k | 0 <= k < |front| :: Opens(records[..|records| - 1], front[k])
    requires forall i, j | 0 <= i < j < |front| :: front[i] < front[j]
    requires forall i: nat | Opens(records[..|records| - 1], i) :: i in front
    ensures var last := |records| - 1; var s := front + (if records[last].kind == "user" then [last] else []);
            && (forall k | 0 <= k < |s| :: Opens(records, s[k]))
            && (forall i, j | 0 <= i < j < |s| :: s[i] < s[j])
            && (forall i: nat | Opens(records, i) :: i in s)
  {
    var last := |records| - 1;
    var s := front + (if records[last].kind == "user" then [last] else []);
    forall i: nat | Opens(records, i)
      ensures i in s
    {
      if i < last {
        assert Opens(records[..last], i);
      } else {
        assert s[|front|] == last;
      }
    }
  }

  /** Where the exchanges begin. */
  function Starts(records: seq<Record>): (s: seq<nat>)
    ensures forall k | 0 <= k < |s| :: Opens(records, s[k])
    ensures forall i, j | 0 <= i < j < |s| :: s[i] < s[j]
    ensures forall i: nat | Opens(records, i) :: i in s
  {
    if records == [] then []
    else
      var last := |records| - 1;
      var front := Starts(records[..last]);
      OneMoreStart(records, front);
      front + (if records[last].kind == "user" then [last] else [])
  }

  /** Nothing opens between two neighbouring starts, or behind the last one. */
  lemma Neighbours(records: seq<Record>, k: nat, i: nat)
    requires k < |Starts(records)| && Starts(records)[k] < i < |records|
    requires k + 1 < |Starts(records)| ==> i < Starts(records)[k + 1]
    ensures !Opens(records, i)
  {
    var s := Starts(records);
    forall j | 0 <= j < |s|
      ensures s[j] != i
    {
      assert j < k || j == k || j == k + 1 || j > k + 1;
    }
  }

  /** The exchange from start to end, in front of a tail already measured. */
  lemma OneMore(records: seq<Record>, start: nat, end: nat)
    requires start < end <= |records| && Opens(records, start)
    requires forall i: nat | start < i < end :: !Opens(records, i)
    ensures Cost(records[start..]) == Cost(records[start..end]) + Cost(records[end..])
    ensures Exchanges(records[start..]) == 1 + Exchanges(records[end..])
  {
    assert records[start..] == records[start..end] + records[end..];
    CostOfConcat(records[start..end], records[end..]);
    forall i: nat | 0 < i < end - start
      ensures records[start..end][i].kind != "user"
    {
      assert !Opens(records, start + i);
    }
    OneExchange(records[start..end]);
  }

  lemma FitsMeans(records: seq<Record>, start: nat, budget: nat)
    requires start <= |records|
    ensures Fits(records, start, budget) <==> Cost(records[start..]) <= budget && |records| - start <= MAX_RECENT_RECORDS
  {}

  lemma NothingBehind(records: seq<Record>)
    ensures records[|records|..] == []
    ensures Cost(records[|records|..]) == 0 && Exchanges(records[|records|..]) == 0
  {}

  /** The k-th exchange, which ends where the next one begins. */
  lemma NextExchange(records: seq<Record>, k: nat, end: nat)
    requires k < |Starts(records)|
    requires end == if k + 1 < |Starts(records)| then Starts(records)[k + 1] else |records|
    ensures var start := Starts(records)[k];
            && start < end <= |records|
            && Cost(records[start..]) == Cost(records[start..end]) + Cost(records[end..])
            && Exchanges(records[start..]) == 1 + Exchanges(records[end..])
  {
    var start := Starts(records)[k];
    assert Opens(records, start);
    forall i: nat | start < i < end
      ensures !Opens(records, i)
    {
      Neighbours(records, k, i);
    }
    OneMore(records, start, end);
  }

  /** The loop stopped for a reason. */
  lemma SelectedIsLargest(records: seq<Record>, k: nat, budget: nat, max: nat)
    requires k < |Starts(records)|
    requires var start := Starts(records)[k];
             && start < |records|
             && 0 < Exchanges(records[start..]) <= max
             && (Exchanges(records[start..]) > 1 ==> Fits(records, start, budget))
             && (k > 0 && Exchanges(records[start..]) < max ==> !Fits(records, Starts(records)[k - 1], budget))
    ensures LargestTail(records, Starts(records)[k], budget, max)
  {
    var start := Starts(records)[k];
    assert Opens(records, start);
    forall earlier: nat | earlier < start && Opens(records, earlier)
                          && (forall i: nat | earlier < i < start :: !Opens(records, i))
      ensures Exchanges(records[start..]) == max || !Fits(records, earlier, budget)
    {
      assert earlier in Starts(records);
      PreviousStart(records, k, earlier);
    }
  }

  /**
   What a compaction takes in: everything in front of the largest tail, or everything there is when no
   tail can be kept, be it for want of an exchange or because even two records of the last one do not fit.
   */
  ghost predicate IsSourceEnd(records: seq<Record>, sourceEnd: nat, budget: nat, max: nat) {
    if sourceEnd < |records| then LargestTail(records, sourceEnd, budget, max) && !Hopeless(records, sourceEnd, budget, max)
    else
      && sourceEnd == |records|
      && (max == 0 || Exchanges(records) == 0 || exists start: nat :: Hopeless(records, start, budget, max))
  }

  ghost predicate Hopeless(records: seq<Record>, start: nat, budget: nat, max: nat) {
    && LargestTail(records, start, budget, max) && !Fits(records, start, budget)
    && CutDown(records[start..], budget) == []
  }

  /** The last place before end where an exchange begins. */
  lemma {:induction false} LastOpening(records: seq<Record>, start: nat, end: nat) returns (p: nat)
    requires start < end && Opens(records, start)
    ensures start <= p < end && Opens(records, p) && forall i: nat | p < i < end :: !Opens(records, i)
    decreases end
  {
    if Opens(records, end - 1) {
      p := end - 1;
    } else {
      p := LastOpening(records, start, end - 1);
    }
  }

  /** What lies behind is cheaper, and has fewer exchanges than a tail that begins with one. */
  lemma LaterTail(records: seq<Record>, a: nat, b: nat, budget: nat)
    requires a <= b <= |records|
    ensures Fits(records, a, budget) ==> Fits(records, b, budget)
    ensures a < b && Opens(records, a) ==> Exchanges(records[b..]) < Exchanges(records[a..])
  {
    assert records[a..] == records[a..b] + records[b..];
    CostOfConcat(records[a..b], records[b..]);
  }

  /** Behind a largest tail there is no other. */
  lemma EarlierRulesOut(records: seq<Record>, a: nat, b: nat, budget: nat, max: nat)
    requires LargestTail(records, a, budget, max) && a < b <= |records|
    ensures !LargestTail(records, b, budget, max)
  {
    var p := LastOpening(records, a, b);
    LaterTail(records, a, b, budget);
    LaterTail(records, a, p, budget);
    hide Fits, Cost, Exchanges;
  }

  /** The description of the source end admits one end only. */
  lemma SourceEndIsUnique(records: seq<Record>, a: nat, b: nat, budget: nat, max: nat)
    requires IsSourceEnd(records, a, budget, max) && IsSourceEnd(records, b, budget, max)
    ensures a == b
  {
    hide LargestTail, Fits, CutDown, Exchanges;
    if a < |records| {
      OnlySource(records, a, b, budget, max);
    } else if b < |records| {
      OnlySource(records, b, a, budget, max);
    }
  }

  lemma OnlySource(records: seq<Record>, a: nat, b: nat, budget: nat, max: nat)
    requires IsSourceEnd(records, a, budget, max) && IsSourceEnd(records, b, budget, max) && a < |records|
    ensures a == b
  {
    hide LargestTail, Hopeless, Exchanges;
    TailCounts(records, a, budget, max);
    var start := UnderlyingTail(records, b, budget, max);
    hide IsSourceEnd;
    if a < start {
      EarlierRulesOut(records, a, start, budget, max);
    } else if start < a {
      EarlierRulesOut(records, start, a, budget, max);
    }
  }

  /** The tail that decides a source end, kept or not. */
  lemma UnderlyingTail(records: seq<Record>, end: nat, budget: nat, max: nat) returns (start: nat)
    requires IsSourceEnd(records, end, budget, max) && max > 0 && Exchanges(records) > 0
    ensures start < |records| && LargestTail(records, start, budget, max)
    ensures if end < |records| then start == end else Hopeless(records, start, budget, max)
  {
    hide Exchanges, Fits, CutDown;
    if end < |records| {
      start := end;
    } else {
      start :| Hopeless(records, start, budget, max);
    }
  }

  lemma TailCounts(records: seq<Record>, start: nat, budget: nat, max: nat)
    requires LargestTail(records, start, budget, max)
    ensures max > 0 && Exchanges(records) > 0
  {
    assert records == records[..start] + records[start..];
    CostOfConcat(records[..start], records[start..]);
  }

  lemma NoStarts(records: seq<Record>)
    requires Starts(records) == []
    ensures Exchanges(records) == 0
  {
    forall r | r in records
      ensures r.kind != "user"
    {
      var i :| 0 <= i < |records| && records[i] == r;
      assert i !in Starts(records);
    }
    NoExchange(records);
  }

  /** The loop of select_recent_tail, back over the exchanges; None when it selects none. */
  method SelectExchanges(records: seq<Record>, budget: nat, maxExchanges: nat) returns (selected: Option<(nat, nat)>)
    ensures selected.Some? ==> var (start, cost) := selected.value;
                               LargestTail(records, start, budget, maxExchanges) && cost == Cost(records[start..])
    ensures selected.None? ==> maxExchanges == 0 || Exchanges(records) == 0
  {
    hide Cost, Exchanges, LargestTail, Starts, Fits;
    var starts := Starts(records);
    NothingBehind(records);
    var selectedStart: nat, selectedCost: nat, selectedRecords: nat, selectedExchanges: nat := |records|, 0, 0, 0;
    var k: nat := |starts|;
    while k > 0 && selectedExchanges != maxExchanges
      invariant 0 <= k <= |starts|
      invariant selectedStart == if k < |starts| then starts[k] else |records|
      invariant selectedCost == Cost(records[selectedStart..]) && selectedRecords == |records| - selectedStart
      invariant selectedExchanges == Exchanges(records[selectedStart..]) <= maxExchanges
      invariant selectedExchanges == |starts| - k
      invariant selectedExchanges > 1 ==> Fits(records, selectedStart, budget)
    {
      var start, end := starts[k - 1], selectedStart;
      NextExchange(records, k - 1, end);
      FitsMeans(records, start, budget);
      var cost := Cost(records[start..end]);
      if selectedExchanges > 0 && (selectedCost + cost > budget || selectedRecords + (end - start) > MAX_RECENT_RECORDS) {
        break;
      }
      selectedStart := start;
      selectedCost := selectedCost + cost;
      selectedRecords := selectedRecords + (end - start);
      selectedExchanges := selectedExchanges + 1;
      k := k - 1;
    }
    if selectedExchanges == 0 {
      if maxExchanges > 0 {
        NoStarts(records);
      }
      return None;
    }
    SelectedIsLargest(records, k, budget, maxExchanges);
    selected := Some((selectedStart, selectedCost));
  }

  method SelectRecentTail(records: seq<Record>, budget: nat, maxExchanges: nat) returns (sourceEnd: nat, tail: seq<Record>)
    ensures sourceEnd <= |records| && IsSourceEnd(records, sourceEnd, budget, maxExchanges)
    ensures tail == [] <==> sourceEnd == |records|
    ensures sourceEnd < |records| ==>
              tail == if Fits(records, sourceEnd, budget) then records[sourceEnd..] else CutDown(records[sourceEnd..], budget)
    ensures Cost(tail) <= budget && |tail| <= MAX_RECENT_RECORDS
    ensures tail != [] ==> tail[0].id == records[sourceEnd].id && tail[0].kind == "user"
  {
    hide Cost, Exchanges, CutDown;
    NothingBehind(records);
    var selected := SelectExchanges(records, budget, maxExchanges);
    if selected.None? {
      return |records|, [];
    }
    var (selectedStart, selectedCost) := selected.value;
    tail := records[selectedStart..];
    if |tail| > MAX_RECENT_RECORDS || selectedCost > budget {
      tail := BoundedSingleExchange(tail, budget);
    }
    sourceEnd := if tail == [] then |records| else selectedStart;
    assert tail == [] ==> Hopeless(records, selectedStart, budget, maxExchanges);
  }

  lemma PreviousStart(records: seq<Record>, k: nat, earlier: nat)
    requires k < |Starts(records)| && earlier in Starts(records) && earlier < Starts(records)[k]
    requires forall i: nat | earlier < i < Starts(records)[k] :: !Opens(records, i)
    ensures k > 0 && Starts(records)[k - 1] == earlier
  {
    var s := Starts(records);
    var j :| 0 <= j < |s| && s[j] == earlier;
    assert j < k;
    assert Opens(records, s[k - 1]);
  }
}
