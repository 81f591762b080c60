/**
 What a resumed session is shown: the newest turns within a turn and a token budget, and the newest
 distinct source pointers (src/app/context_adapter/resume_context.rs:96-160); and the bounded prompt
 of a compaction summary (src/app/context_adapter/compaction.rs:326-357).
 */
module Resume {
  import opened Wrappers
  import opened Tokens
  import opened Compaction
  import RecentTail

  const MAX_CONTEXT_FILES: nat := 4

  // ---- Budgets ---------------------------------------------------------------------------------

  function Clamp(x: nat, low: nat, high: nat): nat
    requires low <= high
  {
    Min(Max(x, low), high)
  }

  /** runtime_core/knowledge/context/budget.rs:24-42 */
  datatype Budget = Budget(transcriptTokens: nat, perTurnTokens: nat, maxTurns: nat)

  function ForContextLimit(contextLimit: nat): Budget {
    var limit := Max(contextLimit, 1);
    var transcript := Min(Clamp(limit / 8, 512, 16_384), limit);
    Budget(transcript, Min(Clamp(transcript / 2, 256, 4_096), transcript), Clamp(limit / 2_048, 8, 64))
  }

  /** The budgets in numbers: an eighth of the window and half of that, each between its bounds; a turn for 2048 tokens. */
  lemma BudgetInNumbers(contextLimit: nat)
    ensures var b := ForContextLimit(contextLimit);
            && (contextLimit == 0 ==> b.transcriptTokens == 1)
            && (0 < contextLimit <= 512 ==> b.transcriptTokens == contextLimit)
            && (512 <= contextLimit <= 4_096 ==> b.transcriptTokens == 512)
            && (4_096 <= contextLimit <= 131_072 ==> b.transcriptTokens == contextLimit / 8)
            && (131_072 <= contextLimit ==> b.transcriptTokens == 16_384)
            && (b.transcriptTokens <= 256 ==> b.perTurnTokens == b.transcriptTokens)
            && (256 <= b.transcriptTokens <= 512 ==> b.perTurnTokens == 256)
            && (512 <= b.transcriptTokens <= 8_192 ==> b.perTurnTokens == b.transcriptTokens / 2)
            && (8_192 <= b.transcriptTokens ==> b.perTurnTokens == 4_096)
            && (contextLimit <= 16_384 ==> b.maxTurns == 8)
            && (16_384 <= contextLimit <= 131_072 ==> b.maxTurns == contextLimit / 2_048)
            && (131_072 <= contextLimit ==> b.maxTurns == 64)
  {}

  // ---- Turns --------------------------------------------------------------------------------------

  datatype Turn = Turn(kind: string, content: string)

  function Total(turns: seq<Turn>): nat {
    if turns == [] then 0 else EstimateTokens(turns[0].content) + Total(turns[1..])
  }

  function NonEmpty(records: seq<Record>): seq<Record> {
    if records == [] then []
    else (if records[0].content == "" then [] else [records[0]]) + NonEmpty(records[1..])
  }

  /** A run of records as turns, newest first in line for the budget, each cut to what is left for it. */
  function Turns(records: seq<Record>, budget: Budget): (turns: seq<Turn>)
    ensures |turns| == |records|
  {
    if records == [] then []
    else
      var newer := Turns(records[1..], budget);
      var left := Min(SaturatingSub(budget.transcriptTokens, Total(newer)), budget.perTurnTokens);
      [Turn(records[0].kind, TruncateTail(records[0].content, left))] + newer
  }

  /**
   Each turn is its record, newest first in line for the budget: the kind, and the content truncated
   to what the newer turns left of the transcript budget, and to the budget of one turn.
   */
  predicate AreTurns(records: seq<Record>, turns: seq<Turn>, budget: Budget) {
    && |turns| == |records|
    && forall k | 0 <= k < |turns| ::
         && turns[k].kind == records[k].kind
         && IsTruncation(records[k].content, Min(SaturatingSub(budget.transcriptTokens, Total(turns[k + 1..])), budget.perTurnTokens),
                         turns[k].content)
  }

  lemma {:induction false} TurnsExactly(records: seq<Record>, turns: seq<Turn>, budget: Budget)
    ensures AreTurns(records, turns, budget) <==> turns == Turns(records, budget)
  {
    hide TruncateTail, IsTruncation, Total;
    if |turns| == |records| && turns != [] {
      TurnsExactly(records[1..], turns[1..], budget);
      TurnsFromFront(records, turns, budget);
      var left := Min(SaturatingSub(budget.transcriptTokens, Total(turns[1..])), budget.perTurnTokens);
      TruncatedExactly(records[0].content, left, turns[0].content);
      assert turns == [turns[0]] + turns[1..];
      assert Turns(records, budget)[1..] == Turns(records[1..], budget);
    }
  }

  lemma TurnsFromFront(records: seq<Record>, turns: seq<Turn>, budget: Budget)
    requires |turns| == |records| && turns != []
    ensures AreTurns(records, turns, budget) <==>
            && turns[0].kind == records[0].kind
            && IsTruncation(records[0].content, Min(SaturatingSub(budget.transcriptTokens, Total(turns[1..])), budget.perTurnTokens),
                            turns[0].content)
            && AreTurns(records[1..], turns[1..], budget)
  {
    hide IsTruncation, Total;
    forall k | 0 < k < |turns|
      ensures turns[k] == turns[1..][k - 1] && records[k] == records[1..][k - 1] && turns[k + 1..] == turns[1..][k..]
    {
    }
    assert forall k | 0 <= k < |turns[1..]| :: turns[1..][k] == turns[k + 1] && turns[1..][k + 1..] == turns[k + 2..];
  }

  lemma {:induction false} NonEmptyOfConcat(a: seq<Record>, b: seq<Record>)
    ensures NonEmpty(a + b) == NonEmpty(a) + NonEmpty(b)
  {
    if a == [] {
      assert a + b == b;
    } else {
      assert (a + b)[1..] == a[1..] + b;
      NonEmptyOfConcat(a[1..], b);
    }
  }

  /** Every turn is within the per-turn budget and all of them within the transcript budget. */
  lemma {:induction false} TurnsFit(records: seq<Record>, budget: Budget)
    ensures Total(Turns(records, budget)) <= budget.transcriptTokens
    ensures forall i | 0 <= i < |records| :: EstimateTokens(Turns(records, budget)[i].content) <= budget.perTurnTokens
  {
    hide EstimateTokens, TruncateTail;
    if records != [] {
      TurnsFit(records[1..], budget);
      var newer := Turns(records[1..], budget);
      var left := Min(SaturatingSub(budget.transcriptTokens, Total(newer)), budget.perTurnTokens);
      TruncationFits(records[0].content, left);
      assert Turns(records, budget)[1..] == newer;
    }
  }

  function Excluding(records: seq<Record>, workflow: Option<string>): seq<Record> {
    if records == [] then []
    else (if workflow == Some(records[0].workflowId) then [] else [records[0]]) + Excluding(records[1..], workflow)
  }

  lemma {:induction false} ExcludingOfConcat(a: seq<Record>, b: seq<Record>, workflow: Option<string>)
    ensures Excluding(a + b, workflow) == Excluding(a, workflow) + Excluding(b, workflow)
  {
    if a == [] {
      assert a + b == b;
    } else {
      assert (a + b)[1..] == a[1..] + b;
      ExcludingOfConcat(a[1..], b, workflow);
    }
  }

  /** The records of all other workflows, in their order: each record counts by itself. */
  lemma ExcludingExactly(before: seq<Record>, r: Record, behind: seq<Record>, workflow: Option<string>)
    ensures Excluding(before + [r] + behind, workflow)
         == Excluding(before, workflow) + (if workflow == Some(r.workflowId) then [] else [r]) + Excluding(behind, workflow)
  {
    ExcludingOfConcat(before + [r], behind, workflow);
    ExcludingOfConcat(before, [r], workflow);
    assert [r][1..] == [];
  }

  /**
   The first loop: back through the eligible records until the turns or the tokens are used up. What
   comes out are the last records with any content, as many as the budgets allow.
   */
  method SelectTurns(eligible: seq<Record>, budget: Budget) returns (selected: seq<Turn>, tokens: nat)
    requires budget.perTurnTokens > 0
    ensures tokens == Total(selected) <= budget.transcriptTokens && |selected| <= budget.maxTurns
    ensures |selected| <= |NonEmpty(eligible)|
    ensures selected == Turns(NonEmpty(eligible)[|NonEmpty(eligible)| - |selected|..], budget)
    ensures AreTurns(NonEmpty(eligible)[|NonEmpty(eligible)| - |selected|..], selected, budget)
    ensures |selected| == |NonEmpty(eligible)| || |selected| == budget.maxTurns || tokens == budget.transcriptTokens
  {
    hide EstimateTokens, TruncateTail, NonEmpty, Turns, AreTurns, Total;
    var reversed: seq<Turn> := [];
    tokens := 0;
    ghost var chosen: seq<Record> := [];
    var i := |eligible|;
    NothingSelected(eligible, budget);
    while i > 0
      invariant 0 <= i <= |eligible|
      invariant chosen == NonEmpty(eligible[i..])
      invariant Reverse(reversed) == Turns(chosen, budget)
      invariant tokens == Total(Turns(chosen, budget)) <= budget.transcriptTokens
      invariant |reversed| == |chosen| <= budget.maxTurns
    {
      if |reversed| >= budget.maxTurns || tokens >= budget.transcriptTokens {
        break;
      }
      var record := eligible[i - 1];
      var remaining := SaturatingSub(budget.transcriptTokens, tokens);
      var content := TruncateTail(record.content, Min(remaining, budget.perTurnTokens));
      var cost := EstimateTokens(content);
      TruncationFits(record.content, Min(remaining, budget.perTurnTokens));
      NothingCostsNothing(content);
      OneMoreTurn(eligible, i - 1, budget);
      i := i - 1;
      if |content| == 0 || cost == 0 || cost > remaining {
        continue;
      }
      tokens := tokens + cost;
      chosen := [record] + chosen;
      ReverseAppend(reversed, Turn(record.kind, content));
      reversed := reversed + [Turn(record.kind, content)];
    }
    selected := Reverse(reversed);
    LastOnes(eligible, i);
    TurnsExactly(NonEmpty(eligible)[|NonEmpty(eligible)| - |selected|..], selected, budget);
  }

  /** The next record in front of a run: passed over when empty, else a turn with what is left. */
  lemma OneMoreTurn(eligible: seq<Record>, i: nat, budget: Budget)
    requires i < |eligible|
    ensures NonEmpty(eligible[i..])
         == (if eligible[i].content == "" then [] else [eligible[i]]) + NonEmpty(eligible[i + 1..])
    ensures var newer := Turns(NonEmpty(eligible[i + 1..]), budget);
            var turn := Turn(eligible[i].kind,
                             TruncateTail(eligible[i].content, Min(SaturatingSub(budget.transcriptTokens, Total(newer)), budget.perTurnTokens)));
            eligible[i].content != "" ==>
              Turns(NonEmpty(eligible[i..]), budget) == [turn] + newer
              && Total([turn] + newer) == EstimateTokens(turn.content) + Total(newer)
  {
    hide EstimateTokens, TruncateTail;
    assert eligible[i..][1..] == eligible[i + 1..];
    var run := NonEmpty(eligible[i + 1..]);
    assert ([eligible[i]] + run)[1..] == run;
    var turns := Turns([eligible[i]] + run, budget);
    assert turns[1..] == Turns(run, budget);
  }

  lemma LastOnes(eligible: seq<Record>, i: nat)
    requires i <= |eligible|
    ensures var all, run := NonEmpty(eligible), NonEmpty(eligible[i..]);
            |run| <= |all| && all[|all| - |run|..] == run && (i == 0 ==> run == all)
  {
    assert eligible == eligible[..i] + eligible[i..];
    NonEmptyOfConcat(eligible[..i], eligible[i..]);
  }

  lemma NothingSelected(eligible: seq<Record>, budget: Budget)
    ensures NonEmpty(eligible[|eligible|..]) == [] && Turns([], budget) == [] && Total([]) == 0
  {}

  function Reverse<T>(s: seq<T>): (r: seq<T>)
    ensures |r| == |s|
    ensures forall i | 0 <= i < |s| :: r[i] == s[|s| - 1 - i]
  {
    if s == [] then [] else [s[|s| - 1]] + Reverse(s[..|s| - 1])
  }

  lemma ReverseAppend<T>(s: seq<T>, x: T)
    ensures Reverse(s + [x]) == [x] + Reverse(s)
  {
    assert (s + [x])[..|s|] == s;
  }

  // ---- Source pointers -----------------------------------------------------------------------------

  function AllPointers(records: seq<Record>): seq<Pointer> {
    if records == [] then [] else records[0].pointers + AllPointers(records[1..])
  }

  predicate Mentions(pointers: seq<Pointer>, ref: string) {
    exists p | p in pointers :: p.stableRef == ref
  }

  /** Each reference at its last occurrence, in order. */
  function LastOccurrences(pointers: seq<Pointer>): seq<Pointer> {
    if pointers == [] then []
    else
      var later := LastOccurrences(pointers[1..]);
      if Mentions(pointers[1..], pointers[0].stableRef) then later else [pointers[0]] + later
  }

  /** The newest of them, at most MAX_CONTEXT_FILES. */
  function NewestPointers(pointers: seq<Pointer>): seq<Pointer> {
    var all := LastOccurrences(pointers);
    all[SaturatingSub(|all|, MAX_CONTEXT_FILES)..]
  }

  /** Where a reference occurs last; -1 when it does not. */
  function LastIndex(pointers: seq<Pointer>, ref: string): (i: int)
    ensures -1 <= i < |pointers|
    ensures i >= 0 ==> pointers[i].stableRef == ref
    ensures i >= 0 <==> Mentions(pointers, ref)
  {
    if pointers == [] then -1
    else
      var later := LastIndex(pointers[1..], ref);
      if later >= 0 then later + 1 else if pointers[0].stableRef == ref then 0 else -1
  }

  /** Each listed pointer stands at the last occurrence of its reference, and these come in order. */
  predicate InOrder(pointers: seq<Pointer>, list: seq<Pointer>) {
    && (forall i | 0 <= i < |list| :: AtLast(pointers, list[i]))
    && (forall i, j | 0 <= i < j < |list| ::
          LastIndex(pointers, list[i].stableRef) < LastIndex(pointers, list[j].stableRef))
  }

  predicate AtLast(pointers: seq<Pointer>, p: Pointer) {
    LastIndex(pointers, p.stableRef) >= 0 && pointers[LastIndex(pointers, p.stableRef)] == p
  }

  lemma BackInOrder(pointers: seq<Pointer>, list: seq<Pointer>, from: nat)
    requires InOrder(pointers, list) && from <= |list|
    ensures InOrder(pointers, list[from..])
  {
    hide LastIndex, AtLast;
    assert forall i | 0 <= i < |list[from..]| :: list[from..][i] == list[from + i];
  }

  lemma OneInFront(first: Pointer, rest: seq<Pointer>, ref: string)
    ensures LastIndex([first] + rest, ref)
         == if LastIndex(rest, ref) >= 0 then LastIndex(rest, ref) + 1 else if first.stableRef == ref then 0 else -1
  {
    assert ([first] + rest)[1..] == rest;
  }

  lemma StillAtLast(first: Pointer, rest: seq<Pointer>, p: Pointer)
    requires AtLast(rest, p)
    ensures AtLast([first] + rest, p)
    ensures LastIndex([first] + rest, p.stableRef) == LastIndex(rest, p.stableRef) + 1 > 0
  {
    OneInFront(first, rest, p.stableRef);
  }

  lemma FrontShifts(first: Pointer, rest: seq<Pointer>, list: seq<Pointer>)
    requires InOrder(rest, list)
    ensures InOrder([first] + rest, list)
    ensures LastIndex(rest, first.stableRef) < 0 ==> InOrder([first] + rest, [first] + list)
  {
    hide LastIndex, AtLast, Mentions;
    forall i | 0 <= i < |list|
      ensures AtLast([first] + rest, list[i])
      ensures LastIndex([first] + rest, list[i].stableRef) == LastIndex(rest, list[i].stableRef) + 1 > 0
    {
      StillAtLast(first, rest, list[i]);
    }
    if LastIndex(rest, first.stableRef) < 0 {
      FirstAtLast(first, rest);
      assert forall i | 0 < i < |[first] + list| :: ([first] + list)[i] == list[i - 1];
    }
  }

  lemma FirstAtLast(first: Pointer, rest: seq<Pointer>)
    requires LastIndex(rest, first.stableRef) < 0
    ensures AtLast([first] + rest, first) && LastIndex([first] + rest, first.stableRef) == 0
  {
    OneInFront(first, rest, first.stableRef);
  }

  /** One pointer a reference, at its last occurrence, in the order of these, and none missing. */
  lemma {:induction false} LastOccurrencesExact(pointers: seq<Pointer>)
    ensures InOrder(pointers, LastOccurrences(pointers))
    ensures forall p | p in pointers :: Mentions(LastOccurrences(pointers), p.stableRef)
  {
    hide LastIndex, InOrder;
    if pointers == [] {
      NothingInOrder();
    } else {
      var first, rest := pointers[0], pointers[1..];
      var later, all := LastOccurrences(rest), LastOccurrences(pointers);
      LastOccurrencesExact(rest);
      assert pointers == [first] + rest;
      FrontShifts(first, rest, later);
      forall p | p in pointers
        ensures Mentions(all, p.stableRef)
      {
        NoneMissing(first, rest, p);
      }
    }
  }

  lemma NothingInOrder()
    ensures InOrder([], [])
  {}

  lemma NoneMissing(first: Pointer, rest: seq<Pointer>, p: Pointer)
    requires p in [first] + rest
    requires forall q | q in rest :: Mentions(LastOccurrences(rest), q.stableRef)
    ensures Mentions(LastOccurrences([first] + rest), p.stableRef)
  {
    OneMorePointer(first, rest);
    var later, all := LastOccurrences(rest), LastOccurrences([first] + rest);
    if p in rest {
      MentionsMore(later, all, p.stableRef);
    } else if Mentions(rest, first.stableRef) {
      var q :| q in rest && q.stableRef == first.stableRef;
      assert Mentions(later, q.stableRef);
    } else {
      assert first in all;
    }
  }

  lemma MentionsMore(some: seq<Pointer>, more: seq<Pointer>, ref: string)
    requires Mentions(some, ref) && forall p | p in some :: p in more
    ensures Mentions(more, ref)
  {}

  /**
   The newest references: in the order of their last occurrences, distinct, and a reference is left
   out only when there are four others that occur later.
   */
  lemma NewestAreNewest(pointers: seq<Pointer>)
    ensures var newest := NewestPointers(pointers);
            && |newest| <= 4 && InOrder(pointers, newest)
            && (forall p | p in pointers && !Mentions(newest, p.stableRef) ::
                  |newest| == 4
                  && 0 <= LastIndex(pointers, p.stableRef) < LastIndex(pointers, newest[0].stableRef))
  {
    hide Mentions, LastIndex, LastOccurrences, InOrder;
    LastOccurrencesExact(pointers);
    var all := LastOccurrences(pointers);
    var from := SaturatingSub(|all|, MAX_CONTEXT_FILES);
    BackInOrder(pointers, all, from);
    forall p | p in pointers && !Mentions(all[from..], p.stableRef)
      ensures |all[from..]| == MAX_CONTEXT_FILES
      ensures 0 <= LastIndex(pointers, p.stableRef) < LastIndex(pointers, all[from..][0].stableRef)
    {
      var k := LeftOut(all, from, p.stableRef);
      EarlierIndex(pointers, all, k, from);
    }
  }

  lemma EarlierIndex(pointers: seq<Pointer>, list: seq<Pointer>, i: nat, j: nat)
    requires InOrder(pointers, list) && i < j < |list|
    ensures 0 <= LastIndex(pointers, list[i].stableRef) < LastIndex(pointers, list[j].stableRef)
  {
    assert AtLast(pointers, list[i]);
  }

  lemma LeftOut(all: seq<Pointer>, from: nat, ref: string) returns (k: nat)
    requires from <= |all| && Mentions(all, ref) && !Mentions(all[from..], ref)
    ensures k < from && all[k].stableRef == ref
  {
    k :| 0 <= k < |all| && all[k].stableRef == ref;
    assert forall j | from <= j < |all| :: all[j] == all[from..][j - from];
    assert forall q | q in all[from..] :: q.stableRef != ref;
  }

  /** The references of a back part come last. */
  lemma {:induction false} LastOccurrencesOfBack(front: seq<Pointer>, back: seq<Pointer>)
    ensures var all, some := LastOccurrences(front + back), LastOccurrences(back);
            |some| <= |all| && all[|all| - |some|..] == some
  {
    if front == [] {
      assert front + back == back;
    } else {
      assert (front + back)[1..] == front[1..] + back;
      LastOccurrencesOfBack(front[1..], back);
    }
  }

  lemma {:induction false} AllPointersOfConcat(a: seq<Record>, b: seq<Record>)
    ensures AllPointers(a + b) == AllPointers(a) + AllPointers(b)
  {
    if a == [] {
      assert a + b == b;
    } else {
      assert (a + b)[1..] == a[1..] + b;
      AllPointersOfConcat(a[1..], b);
    }
  }

  /** The pointers still to come and the ones behind position k of record i. */
  lemma Remainder(eligible: seq<Record>, i: nat, k: nat) returns (front: seq<Pointer>)
    requires i < |eligible| && k <= |eligible[i].pointers|
    ensures AllPointers(eligible) == front + (eligible[i].pointers[k..] + AllPointers(eligible[i + 1..]))
  {
    var before, record, behind := eligible[..i], eligible[i], eligible[i + 1..];
    assert eligible == before + ([record] + behind);
    AllPointersOfConcat(before, [record] + behind);
    assert ([record] + behind)[1..] == behind;
    assert AllPointers([record] + behind) == record.pointers + AllPointers(behind);
    front := AllPointers(before) + record.pointers[..k];
    assert record.pointers == record.pointers[..k] + record.pointers[k..];
    assert AllPointers(eligible) == front + (record.pointers[k..] + AllPointers(behind));
  }

  lemma OneMorePointer(pointer: Pointer, done: seq<Pointer>)
    ensures LastOccurrences([pointer] + done)
         == (if Mentions(done, pointer.stableRef) then [] else [pointer]) + LastOccurrences(done)
    ensures forall ref :: Mentions([pointer] + done, ref) <==> ref == pointer.stableRef || Mentions(done, ref)
  {
    assert ([pointer] + done)[1..] == done;
  }

  /** The inner loop: the pointers of one record, back to front, after those of the records behind it. */
  method ScanRecord(pointers: seq<Pointer>, seen0: set<string>, reversed0: seq<Pointer>, ghost behind: seq<Pointer>)
    returns (seen: set<string>, reversed: seq<Pointer>, ghost k: nat)
    requires Reverse(reversed0) == LastOccurrences(behind) && |reversed0| <= MAX_CONTEXT_FILES
    requires forall ref :: ref in seen0 <==> Mentions(behind, ref)
    ensures k <= |pointers| && (k > 0 ==> |reversed| == MAX_CONTEXT_FILES)
    ensures Reverse(reversed) == LastOccurrences(pointers[k..] + behind) && |reversed| <= MAX_CONTEXT_FILES
    ensures forall ref :: ref in seen <==> Mentions(pointers[k..] + behind, ref)
  {
    hide Mentions, LastOccurrences;
    seen, reversed := seen0, reversed0;
    var at := |pointers|;
    assert pointers[at..] + behind == behind;
    while at > 0
      invariant 0 <= at <= |pointers|
      invariant Reverse(reversed) == LastOccurrences(pointers[at..] + behind) && |reversed| <= MAX_CONTEXT_FILES
      invariant forall ref :: ref in seen <==> Mentions(pointers[at..] + behind, ref)
    {
      if |reversed| >= MAX_CONTEXT_FILES {
        break;
      }
      var pointer := pointers[at - 1];
      ghost var done := pointers[at..] + behind;
      OneMorePointer(pointer, done);
      assert pointers[at - 1..] + behind == [pointer] + done;
      at := at - 1;
      if pointer.stableRef !in seen {
        ReverseAppend(reversed, pointer);
        reversed := reversed + [pointer];
      }
      seen := seen + {pointer.stableRef};
    }
    k := at;
  }

  /** The second loop: back through the records until there are enough pointers. */
  method SelectPointers(eligible: seq<Record>) returns (selected: seq<Pointer>)
    ensures selected == NewestPointers(AllPointers(eligible))
  {
    var seen: set<string> := {};
    var reversed: seq<Pointer> := [];
    var i := |eligible|;
    while i > 0
      invariant 0 <= i <= |eligible|
      invariant Reverse(reversed) == LastOccurrences(AllPointers(eligible[i..])) && |reversed| <= MAX_CONTEXT_FILES
      invariant forall ref :: ref in seen <==> Mentions(AllPointers(eligible[i..]), ref)
    {
      i := i - 1;
      ghost var k;
      assert eligible[i..][1..] == eligible[i + 1..];
      seen, reversed, k := ScanRecord(eligible[i].pointers, seen, reversed, AllPointers(eligible[i + 1..]));
      if |reversed| >= MAX_CONTEXT_FILES {
        ghost var front := Remainder(eligible, i, k);
        ghost var done := eligible[i].pointers[k..] + AllPointers(eligible[i + 1..]);
        LastOccurrencesOfBack(front, done);
        return Reverse(reversed);
      }
      assert eligible[i].pointers[0..] == eligible[i].pointers;
    }
    selected := Reverse(reversed);
  }

  // ---- Rebuilding a session -----------------------------------------------------------------------------

  lemma BudgetsArePositive(contextLimit: nat)
    ensures ForContextLimit(contextLimit).perTurnTokens > 0 && ForContextLimit(contextLimit).maxTurns > 0
  {}

  /**
   rebuild_session_context_for_limit up to the source snippets. A session compacted more often than
   its chain can be walked fails when strict, and otherwise is shown from its very first record.
   */
  method RebuildSessionContext(session: Session, strict: bool, exclude: Option<string>, contextLimit: nat)
    returns (r: Result<(seq<Turn>, seq<Pointer>), Compaction.Error>)
    requires session.Sound()
    ensures r.Failure? <==> strict && |session.history| > 64
    ensures r.Success? ==>
              var shown := if |session.history| > 64 then session.records else Tail(session.Contents());
              var eligible := Excluding(shown, exclude);
              var (turns, pointers) := r.value;
              && pointers == NewestPointers(AllPointers(eligible))
              && |turns| <= |NonEmpty(eligible)| && |turns| <= ForContextLimit(contextLimit).maxTurns
              && AreTurns(NonEmpty(eligible)[|NonEmpty(eligible)| - |turns|..], turns, ForContextLimit(contextLimit))
              && (|turns| == |NonEmpty(eligible)| || |turns| == ForContextLimit(contextLimit).maxTurns
                  || Total(turns) == ForContextLimit(contextLimit).transcriptTokens)
  {
    BudgetsArePositive(contextLimit);
    hide ForContextLimit, Turns, AreTurns, Total, NonEmpty, NewestPointers, AllPointers, Excluding, Tail;
    hide Compaction.Valid, Compaction.Position, Compaction.WellChained, Compaction.Descends, Compaction.Grounded, Compaction.Taken;
    var loaded := session.LoadCurrentArtifact();
    if strict && loaded.Failure? {
      return Failure(loaded.error);
    }
    var shown := session.records;
    if loaded.Success? {
      shown := session.CandidateRecords(loaded.value);
    }
    var eligible := Excluding(shown, exclude);
    var turns, tokens := SelectTurns(eligible, ForContextLimit(contextLimit));
    var pointers := SelectPointers(eligible);
    r := Success((turns, pointers));
  }

  // ---- The summary prompt ------------------------------------------------------------------------------

  lemma TokensOfConcat(a: string, b: string)
    ensures EstimateTokens(a + b) <= EstimateTokens(a) + EstimateTokens(b)
  {
    BytesOfConcat(a, b);
    if a == "" {
      assert a + b == b;
    } else if b == "" {
      assert a + b == a;
    }
  }

  function Concat(parts: seq<string>): string {
    if parts == [] then "" else parts[0] + Concat(parts[1..])
  }

  lemma {:induction false} ConcatOfConcat(a: seq<string>, b: seq<string>)
    ensures Concat(a + b) == Concat(a) + Concat(b)
  {
    if a == [] {
      assert a + b == b;
    } else {
      assert (a + b)[1..] == a[1..] + b;
      ConcatOfConcat(a[1..], b);
    }
  }

  /** Every part whole and in its place, with nothing between. */
  lemma ConcatExactly(before: seq<string>, part: string, behind: seq<string>)
    ensures Concat(before + [part] + behind) == Concat(before) + part + Concat(behind)
  {
    hide Concat;
    ConcatOfConcat(before + [part], behind);
    ConcatOfConcat(before, [part]);
    ConcatOne(part);
  }

  lemma ConcatOne(part: string)
    ensures Concat([part]) == part
  {
    assert [part][1..] == [];
  }

  function Sum(parts: seq<string>): nat {
    if parts == [] then 0 else EstimateTokens(parts[0]) + Sum(parts[1..])
  }

  lemma {:induction false} TokensOfAll(parts: seq<string>)
    ensures EstimateTokens(Concat(parts)) <= Sum(parts)
  {
    if parts != [] {
      TokensOfAll(parts[1..]);
      TokensOfConcat(parts[0], Concat(parts[1..]));
    }
  }

  /** The records chosen from the back: each one that still fits beside those already chosen. */
  function Greedy(parts: seq<string>, used: nat, max: nat): seq<string> {
    if parts == [] then []
    else
      var newer := Greedy(parts[1..], used, max);
      if used + Sum(newer) + EstimateTokens(parts[0]) > max then newer else [parts[0]] + newer
  }

  lemma {:induction false} GreedyFits(parts: seq<string>, used: nat, max: nat)
    requires used <= max
    ensures used + Sum(Greedy(parts, used, max)) <= max
  {
    hide EstimateTokens;
    if parts != [] {
      GreedyFits(parts[1..], used, max);
      var newer := Greedy(parts[1..], used, max);
      assert ([parts[0]] + newer)[1..] == newer;
    }
  }

  function Rendered(r: RecentTail.Record): string {
    "\n[" + r.kind + " record " + r.id + "]\n" + r.content + "\n"
  }

  function AllRendered(records: seq<RecentTail.Record>): (parts: seq<string>)
    ensures |parts| == |records|
    ensures forall i | 0 <= i < |records| ::
              parts[i] == "\n[" + records[i].kind + " record " + records[i].id + "]\n" + records[i].content + "\n"
  {
    seq(|records|, i requires 0 <= i < |records| => Rendered(records[i]))
  }

  /**
   bounded_summary_prompt: empty, or the header and the greedy choice in order; the whole prompt is
   within the budget, however the pieces round.
   */
  method BoundedSummaryPrompt(header: string, records: seq<RecentTail.Record>, max: nat) returns (prompt: string)
    ensures EstimateTokens(prompt) <= max
    ensures var chosen := Greedy(AllRendered(records), EstimateTokens(header), max);
            prompt == if EstimateTokens(header) >= max || chosen == [] then "" else header + Concat(chosen)
  {
    hide EstimateTokens, Rendered;
    NothingCostsNothing("");
    var used := EstimateTokens(header);
    if used >= max {
      return "";
    }
    ghost var parts := AllRendered(records);
    var selected: seq<string> := [];
    var i := |records|;
    assert parts[|records|..] == [];
    while i > 0
      invariant 0 <= i <= |records|
      invariant Reverse(selected) == Greedy(parts[i..], EstimateTokens(header), max)
      invariant used == EstimateTokens(header) + Sum(Reverse(selected)) <= max
    {
      i := i - 1;
      var rendered := Rendered(records[i]);
      assert parts[i..] == [rendered] + parts[i + 1..];
      var cost := EstimateTokens(rendered);
      if used + cost > max {
        continue;
      }
      used := used + cost;
      ReverseAppend(selected, rendered);
      assert ([rendered] + Reverse(selected))[1..] == Reverse(selected);
      selected := selected + [rendered];
    }
    assert parts[0..] == parts;
    var chosen := Reverse(selected);
    if chosen == [] {
      return "";
    }
    prompt := header + Concat(chosen);
    TokensOfAll(chosen);
    TokensOfConcat(header, Concat(chosen));
  }
}
