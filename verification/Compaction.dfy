/**
 Conversation compaction: src/app/context_adapter/compaction.rs:106-237 with its artifact store
 (compaction/artifact_store.rs:22-125) and the boundary pointer committed by compare-and-swap
 (src/app/workflow_adapter/state/lifecycle/events.rs:41-97). Compactions of a session run one at a
 time under its lease; transcript records may arrive at any moment, and the process may stop
 between installing an artifact and committing its boundary.
 */
module Compaction {
  import opened Wrappers
  import RecentTail

  type RecordId = string
  type Path = nat
  type Hash = nat

  const MAX_CHAIN_DEPTH: nat := 64

  datatype Pointer = Pointer(stableRef: string, path: string)

  datatype Record = Record(id: RecordId, workflowId: string, kind: string, content: string, pointers: seq<Pointer>)

  /** None stands for the "none" of the first artifact. */
  datatype Artifact = Artifact(
    boundaryId: RecordId, previousPath: Option<Path>, previousHash: Option<Hash>, sourceCount: nat, hash: Hash)

  /** A session: its transcript, every artifact ever installed, and the boundaries committed so far. */
  datatype Memory = Memory(records: seq<Record>, artifacts: map<Path, Artifact>, history: seq<Path>)

  function Position(records: seq<Record>, id: RecordId): (at: Option<nat>)
    ensures at.Some? ==> at.value < |records| && records[at.value].id == id
    ensures at.None? <==> forall r | r in records :: r.id != id
  {
    if records == [] then None
    else if records[0].id == id then Some(0)
    else match Position(records[1..], id) case Some(i) => Some(i + 1) case None => None
  }

  /** The first record with the id. */
  lemma {:induction false} PositionIsFirst(records: seq<Record>, id: RecordId, i: nat)
    requires Position(records, id).Some? && i < Position(records, id).value
    ensures records[i].id != id
  {
    if i > 0 {
      PositionIsFirst(records[1..], id, i - 1);
    }
  }

  lemma {:induction false} PositionStays(records: seq<Record>, more: seq<Record>, id: RecordId)
    requires Position(records, id).Some?
    ensures Position(records + more, id) == Position(records, id)
  {
    if records[0].id != id {
      assert (records + more)[1..] == records[1..] + more;
      PositionStays(records[1..], more, id);
    }
  }

  predicate UniqueIds(records: seq<Record>) {
    forall i, j | 0 <= i < j < |records| :: records[i].id != records[j].id
  }

  lemma PositionOf(records: seq<Record>, i: nat)
    requires UniqueIds(records) && i < |records|
    ensures Position(records, records[i].id) == Some(i)
  {
    var at := Position(records, records[i].id);
    assert records[i] in records;
    assert at.Some?;
    assert at.value < i || i < at.value || i == at.value;
  }

  // ---- Segments -----------------------------------------------------------------------------------

  function Committed(m: Memory, i: nat): Artifact
    requires i < |m.history| && m.history[i] in m.artifacts
  {
    m.artifacts[m.history[i]]
  }

  /** The number of records up to and including the i-th boundary. */
  function End(m: Memory, i: nat): nat
    requires i < |m.history| && m.history[i] in m.artifacts
    requires Position(m.records, Committed(m, i).boundaryId).Some?
  {
    Position(m.records, Committed(m, i).boundaryId).value + 1
  }

  predicate Grounded(m: Memory) {
    forall i | 0 <= i < |m.history| ::
      m.history[i] in m.artifacts && Position(m.records, Committed(m, i).boundaryId).Some?
  }

  /** The number of records the first i compactions took in. */
  function Taken(m: Memory, i: nat): nat
    requires Grounded(m) && i <= |m.history|
  {
    if i == 0 then 0 else End(m, i - 1)
  }

  predicate Linked(m: Memory, i: nat)
    requires Grounded(m) && i < |m.history|
  {
    var a := Committed(m, i);
    && a.previousPath == (if i == 0 then None else Some(m.history[i - 1]))
    && a.previousHash == (if i == 0 then None else Some(Committed(m, i - 1).hash))
    && Taken(m, i) < End(m, i)
    && a.sourceCount == End(m, i) - Taken(m, i)
  }

  /** Boundaries advance, each artifact names its predecessor by path and hash, down to "none". */
  predicate Valid(m: Memory) {
    && UniqueIds(m.records) && Grounded(m)
    && forall i | 0 <= i < |m.history| :: Linked(m, i)
  }

  function Segment(m: Memory, i: nat): seq<Record>
    requires Valid(m) && i < |m.history|
  {
    Bounds(m, i);
    m.records[Taken(m, i)..End(m, i)]
  }

  /** The records behind the last boundary: what the next compaction and a resume look at. */
  function Tail(m: Memory): seq<Record>
    requires Grounded(m)
  {
    m.records[Taken(m, |m.history|)..]
  }

  lemma Bounds(m: Memory, i: nat)
    requires Valid(m) && i < |m.history|
    ensures Taken(m, i) < End(m, i) <= |m.records|
  {
    assert Linked(m, i);
  }

  lemma {:induction false} Advances(m: Memory, i: nat, j: nat)
    requires Valid(m) && i < j < |m.history|
    ensures End(m, i) < End(m, j) && m.history[i] != m.history[j]
  {
    assert Linked(m, j);
    if i < j - 1 {
      Advances(m, i, j - 1);
    }
  }

  function Concat(m: Memory, count: nat): seq<Record>
    requires Valid(m) && count <= |m.history|
  {
    if count == 0 then [] else Concat(m, count - 1) + Segment(m, count - 1)
  }

  lemma Glue(s: seq<Record>, a: nat, b: nat)
    requires a <= b <= |s|
    ensures s[..a] + s[a..b] == s[..b] && s[..b] + s[b..] == s
  {}

  lemma {:induction false} ConcatIsPrefix(m: Memory, count: nat)
    requires Valid(m) && count <= |m.history|
    ensures Taken(m, count) <= |m.records| && Concat(m, count) == m.records[..Taken(m, count)]
  {
    hide Valid, Grounded, Taken, Segment, Committed, Position;
    ValidIsGrounded(m);
    if count == 0 {
      NothingTaken(m);
    } else {
      ConcatIsPrefix(m, count - 1);
      SegmentBounds(m, count - 1);
      Glue(m.records, Taken(m, count - 1), Taken(m, count));
    }
  }

  lemma ValidIsGrounded(m: Memory)
    requires Valid(m)
    ensures Grounded(m)
    ensures forall i | 0 <= i < |m.history| :: m.history[i] in m.artifacts
  {}

  lemma NothingTaken(m: Memory)
    requires Grounded(m)
    ensures Taken(m, 0) == 0
  {}

  lemma SegmentBounds(m: Memory, i: nat)
    requires Valid(m) && i < |m.history|
    ensures Taken(m, i) < Taken(m, i + 1) <= |m.records|
    ensures Segment(m, i) == m.records[Taken(m, i)..Taken(m, i + 1)]
    ensures |Segment(m, i)| == Committed(m, i).sourceCount > 0
  {
    assert Linked(m, i);
    Bounds(m, i);
  }

  /** The segments of the compactions and the tail are the transcript, every record once and in order. */
  lemma SegmentsPartition(m: Memory)
    requires Valid(m)
    ensures Concat(m, |m.history|) + Tail(m) == m.records
    ensures forall i | 0 <= i < |m.history| :: |Segment(m, i)| == Committed(m, i).sourceCount > 0
  {
    hide Valid, Grounded, Taken, Concat, Segment, Committed, Position;
    var n := |m.history|;
    ValidIsGrounded(m);
    ConcatIsPrefix(m, n);
    Glue(m.records, Taken(m, n), Taken(m, n));
    forall i | 0 <= i < n
      ensures |Segment(m, i)| == Committed(m, i).sourceCount > 0
    {
      SegmentBounds(m, i);
    }
  }

  predicate Extends(m: Memory, later: Memory) {
    && m.records <= later.records && m.history <= later.history
    && forall path | path in m.artifacts :: path in later.artifacts && later.artifacts[path] == m.artifacts[path]
  }

  lemma SameTaken(m: Memory, later: Memory, i: nat)
    requires Grounded(m) && Grounded(later) && Extends(m, later) && i <= |m.history|
    ensures Taken(later, i) == Taken(m, i)
  {
    if i > 0 {
      var more := later.records[|m.records|..];
      assert later.records == m.records + more;
      assert later.history[i - 1] == m.history[i - 1];
      PositionStays(m.records, more, Committed(m, i - 1).boundaryId);
    }
  }

  lemma SliceOfPrefix(s: seq<Record>, t: seq<Record>, a: nat, b: nat)
    requires s <= t && a <= b <= |s|
    ensures s[a..b] == t[a..b]
  {}

  /** A record that was taken in stays in its segment whatever is appended or committed later. */
  lemma SegmentsAreFixed(m: Memory, later: Memory, i: nat)
    requires Valid(m) && Valid(later) && Extends(m, later) && i < |m.history|
    ensures Segment(m, i) == Segment(later, i)
  {
    hide Valid, Grounded, Taken, Segment, Committed, Position;
    ValidIsGrounded(m);
    ValidIsGrounded(later);
    SameTaken(m, later, i);
    SameTaken(m, later, i + 1);
    SegmentBounds(m, i);
    SegmentBounds(later, i);
    SliceOfPrefix(m.records, later.records, Taken(m, i), Taken(m, i + 1));
  }

  lemma SameEnd(m: Memory, later: Memory, i: nat)
    requires Grounded(m) && Extends(m, later) && later.history == m.history && i < |m.history|
    ensures later.history[i] in later.artifacts && Committed(later, i) == Committed(m, i)
    ensures Position(later.records, Committed(m, i).boundaryId) == Position(m.records, Committed(m, i).boundaryId)
  {
    var more := later.records[|m.records|..];
    assert later.records == m.records + more;
    PositionStays(m.records, more, Committed(m, i).boundaryId);
  }

  lemma LinkStays(m: Memory, later: Memory, i: nat)
    requires Grounded(m) && Grounded(later) && Extends(m, later) && later.history == m.history && i < |m.history|
    requires Linked(m, i) && Taken(later, i) == Taken(m, i) && Taken(later, i + 1) == Taken(m, i + 1)
    ensures Linked(later, i)
  {
    hide Position;
    SameEnd(m, later, i);
    if i > 0 {
      SameEnd(m, later, i - 1);
    }
  }

  /** New records and new artifacts beside the chain leave it as it was. */
  lemma GrowthKeepsValid(m: Memory, later: Memory)
    requires Valid(m) && UniqueIds(later.records)
    requires Extends(m, later) && later.history == m.history
    ensures Valid(later)
    ensures forall i | 0 <= i <= |m.history| :: Taken(later, i) == Taken(m, i)
  {
    hide Position, UniqueIds, Linked, Taken, Extends, Committed;
    forall i | 0 <= i < |m.history|
      ensures later.history[i] in later.artifacts && Position(later.records, Committed(later, i).boundaryId).Some?
    {
      SameEnd(m, later, i);
    }
    forall i | 0 <= i <= |m.history|
      ensures Taken(later, i) == Taken(m, i)
    {
      SameTaken(m, later, i);
    }
    forall i | 0 <= i < |m.history|
      ensures Linked(later, i)
    {
      LinkStays(m, later, i);
    }
  }

  lemma EarlierLink(m: Memory, next: Memory, i: nat)
    requires Grounded(m) && Grounded(next) && next == m.(history := next.history) && m.history <= next.history
    requires i < |m.history| && Linked(m, i)
    ensures Linked(next, i)
  {
    hide Position;
    assert next.history[i] == m.history[i];
    assert i > 0 ==> next.history[i - 1] == m.history[i - 1];
  }

  /** One more link at the end. */
  lemma CommitKeepsValid(m: Memory, path: Path, count: nat)
    requires Valid(m) && path in m.artifacts
    requires 0 < count && Taken(m, |m.history|) + count <= |m.records|
    requires var a := m.artifacts[path]; var n := |m.history|;
             && a.boundaryId == m.records[Taken(m, n) + count - 1].id && a.sourceCount == count
             && a.previousPath == (if n == 0 then None else Some(m.history[n - 1]))
             && a.previousHash == (if n == 0 then None else Some(Committed(m, n - 1).hash))
    ensures var next := m.(history := m.history + [path]);
            Valid(next) && Taken(next, |next.history|) == Taken(m, |m.history|) + count
  {
    var next := m.(history := m.history + [path]);
    var n := |m.history|;
    PositionOf(m.records, Taken(m, n) + count - 1);
    hide Position, UniqueIds;
    assert Grounded(next);
    assert Linked(next, n);
    hide Linked;
    forall i | 0 <= i < n
      ensures Linked(next, i)
    {
      EarlierLink(m, next, i);
    }
  }

  // ---- The session ------------------------------------------------------------------------------------

  datatype Error = ChainTooDeep | ChainCycle | ArtifactMissing | HashMismatch | BoundaryMissing | BoundaryOrder
    | InstallConflict | BoundaryConflict | Stopped

  datatype Mode = Automatic | Manual

  datatype Policy = Policy(autoTrigger: nat, tailBudget: nat, exchangeLimit: nat)

  function ForCompaction(r: Record): RecentTail.Record {
    RecentTail.Record(r.id, r.kind, r.content)
  }

  function AllForCompaction(records: seq<Record>): (s: seq<RecentTail.Record>)
    ensures |s| == |records|
    ensures forall i | 0 <= i < |records| ::
              s[i].id == records[i].id && s[i].kind == records[i].kind && s[i].content == records[i].content
  {
    seq(|records|, i requires 0 <= i < |records| => ForCompaction(records[i]))
  }

  /** What the walk meets at the artifact number at. */
  lemma ChainStep(m: Memory, at: nat)
    requires Valid(m) && at < |m.history|
    ensures m.history[at] in m.artifacts && Position(m.records, Committed(m, at).boundaryId).Some?
    ensures Committed(m, at).previousPath.None? <==> at == 0
    ensures at > 0 ==> var path := m.history[at - 1];
                       && path in m.artifacts && Committed(m, at).previousPath == Some(path)
                       && Committed(m, at).previousHash == Some(m.artifacts[path].hash)
                       && Position(m.records, m.artifacts[path].boundaryId).Some?
                       && Position(m.records, m.artifacts[path].boundaryId).value
                          < Position(m.records, Committed(m, at).boundaryId).value
                       && forall i | at <= i < |m.history| :: m.history[i] != path
  {
    assert Linked(m, at);
    if at > 0 {
      forall i | at <= i < |m.history|
        ensures m.history[i] != m.history[at - 1]
      {
        Advances(m, at - 1, i);
      }
    }
  }

  lemma TailGrows(m: Memory, later: Memory)
    requires Valid(m) && UniqueIds(later.records)
    requires Extends(m, later) && later.history == m.history
    ensures Valid(later) && Taken(later, |m.history|) == Taken(m, |m.history|)
    ensures Tail(later) == Tail(m) + later.records[|m.records|..]
  {
    GrowthKeepsValid(m, later);
    TakenBound(m);
  }

  lemma TakenBound(m: Memory)
    requires Valid(m)
    ensures Taken(m, |m.history|) <= |m.records|
  {
    if m.history != [] {
      Bounds(m, |m.history| - 1);
    }
  }

  lemma OneMoreIsUnique(records: seq<Record>, record: Record)
    requires UniqueIds(records) && Position(records, record.id).None?
    ensures UniqueIds(records + [record])
  {}

  /** One link of a chain: an artifact at a known boundary and, at an earlier one, the predecessor it names by path and hash. */
  predicate StepsDown(records: seq<Record>, artifacts: map<Path, Artifact>, head: Path) {
    && head in artifacts && artifacts[head].previousPath.Some?
    && var child := artifacts[head];
       var path := child.previousPath.value;
       && path in artifacts && child.previousHash == Some(artifacts[path].hash)
       && var at, before := Position(records, child.boundaryId), Position(records, artifacts[path].boundaryId);
          at.Some? && before.Some? && before.value < at.value
  }

  /** A chain of at most fuel artifacts, down to one without a predecessor. */
  predicate WellChained(records: seq<Record>, artifacts: map<Path, Artifact>, head: Path, fuel: nat)
    decreases fuel
  {
    && fuel > 0 && head in artifacts && Position(records, artifacts[head].boundaryId).Some?
    && (artifacts[head].previousPath.None?
        || (StepsDown(records, artifacts, head)
            && WellChained(records, artifacts, artifacts[head].previousPath.value, fuel - 1)))
  }

  /** At least so many links. */
  predicate Descends(records: seq<Record>, artifacts: map<Path, Artifact>, head: Path, links: nat)
    decreases links
  {
    links == 0 || (StepsDown(records, artifacts, head)
                   && Descends(records, artifacts, artifacts[head].previousPath.value, links - 1))
  }

  /** The commits of a session are a chain, and they descend exactly as often as there are commits below. */
  lemma {:induction false} CommitsAreChained(m: Memory, at: nat, fuel: nat)
    requires Valid(m) && at < |m.history|
    ensures WellChained(m.records, m.artifacts, m.history[at], fuel) <==> at < fuel
    ensures Descends(m.records, m.artifacts, m.history[at], fuel) <==> fuel <= at
  {
    ChainStep(m, at);
    hide Valid, Position;
    if at > 0 && fuel > 0 {
      CommitsAreChained(m, at - 1, fuel - 1);
      assert StepsDown(m.records, m.artifacts, m.history[at]);
    }
  }

  /** What the walk knows of the artifacts behind it: none of them lies before the one it stands at. */
  predicate AtOrAfter(records: seq<Record>, artifacts: map<Path, Artifact>, visited: set<Path>, at: nat) {
    forall p | p in visited :: p in artifacts && Position(records, artifacts[p].boundaryId).Some?
                               && Position(records, artifacts[p].boundaryId).value >= at
  }

  /**
   validate_artifact_chain with the load of its head. It has a test for cycles, but never needs it:
   an artifact visited before lies at or behind the boundary of the one that names it, so the order
   test would refuse it as well.
   */
  method ValidateArtifactChain(records: seq<Record>, artifacts: map<Path, Artifact>, headPointer: Path)
    returns (r: Result<(), Error>)
    ensures r.Success? <==> WellChained(records, artifacts, headPointer, 64)
    ensures r == Failure(ChainTooDeep) <==> Descends(records, artifacts, headPointer, 64)
  {
    hide Position;
    if headPointer !in artifacts {
      return Failure(ArtifactMissing);
    }
    var visited := {headPointer};
    var child := artifacts[headPointer];
    var childBoundary := Position(records, child.boundaryId);
    if childBoundary.None? {
      return Failure(BoundaryMissing);
    }
    ghost var at := headPointer;
    for depth := 0 to MAX_CHAIN_DEPTH
      invariant at in artifacts && child == artifacts[at]
      invariant childBoundary == Position(records, child.boundaryId) && childBoundary.Some?
      invariant AtOrAfter(records, artifacts, visited, childBoundary.value)
      invariant WellChained(records, artifacts, headPointer, MAX_CHAIN_DEPTH)
                <==> WellChained(records, artifacts, at, MAX_CHAIN_DEPTH - depth)
      invariant Descends(records, artifacts, headPointer, MAX_CHAIN_DEPTH)
                <==> Descends(records, artifacts, at, MAX_CHAIN_DEPTH - depth)
    {
      if child.previousPath.None? {
        return Success(());
      }
      var path := child.previousPath.value;
      if path in visited {
        return Failure(ChainCycle);
      }
      visited := visited + {path};
      if path !in artifacts {
        return Failure(ArtifactMissing);
      }
      var previous := artifacts[path];
      if child.previousHash != Some(previous.hash) {
        return Failure(HashMismatch);
      }
      var previousBoundary := Position(records, previous.boundaryId);
      if previousBoundary.None? {
        return Failure(BoundaryMissing);
      }
      if previousBoundary.value >= childBoundary.value {
        return Failure(BoundaryOrder);
      }
      assert StepsDown(records, artifacts, at);
      at, child, childBoundary := path, previous, previousBoundary;
    }
    r := Failure(ChainTooDeep);
  }

  /** Where the source ends: in front of the largest tail that the policy keeps. */
  ghost predicate IsSourceEnd(candidates: seq<Record>, end: nat, policy: Policy) {
    RecentTail.IsSourceEnd(AllForCompaction(candidates), end, policy.tailBudget, policy.exchangeLimit)
  }

  /** What asks for a compaction: the user, or an observed or estimated size at the trigger. */
  predicate Due(candidates: seq<Record>, mode: Mode, policy: Policy, observed: nat) {
    mode == Manual || observed >= policy.autoTrigger || RecentTail.Cost(AllForCompaction(candidates)) >= policy.autoTrigger
  }

  /** Whether to compact, and how many of the records behind the last boundary to take in. */
  method PlanCompaction(candidates: seq<Record>, mode: Mode, policy: Policy, observed: nat)
    returns (compact: bool, sourceEnd: nat)
    ensures sourceEnd <= |candidates|
    ensures IsSourceEnd(candidates, sourceEnd, policy)
    ensures compact <==> sourceEnd > 0 && Due(candidates, mode, policy, observed)
  {
    hide RecentTail.Cost, RecentTail.IsSourceEnd;
    var compactable := AllForCompaction(candidates);
    var recent;
    sourceEnd, recent := RecentTail.SelectRecentTail(compactable, policy.tailBudget, policy.exchangeLimit);
    var estimated := RecentTail.Cost(compactable);
    if observed > estimated {
      estimated := observed;
    }
    compact := sourceEnd > 0 && (mode == Manual || estimated >= policy.autoTrigger);
  }

  class Session {
    var records: seq<Record>
    var artifacts: map<Path, Artifact>
    var boundary: Option<Path>
    ghost var history: seq<Path>

    ghost function Contents(): Memory
      reads this
    {
      Memory(records, artifacts, history)
    }

    /** The boundary pointer is the last commit. */
    ghost predicate Sound()
      reads this
    {
      Valid(Contents()) && boundary == LastOf(history)
    }

    constructor ()
      ensures Sound() && records == [] && history == []
    {
      records, artifacts, boundary, history := [], map[], None, [];
    }

    /** A transcript record; one that is there already is not added again. */
    method Append(record: Record)
      requires Sound()
      modifies this
      ensures Sound() && history == old(history) && artifacts == old(artifacts)
      ensures records == if Position(old(records), record.id).Some? then old(records) else old(records) + [record]
      ensures Tail(Contents()) == if Position(old(records), record.id).Some? then old(Tail(Contents())) else old(Tail(Contents())) + [record]
    {
      ghost var before := Contents();
      var at := Position(records, record.id);
      if at.None? {
        OneMoreIsUnique(records, record);
        hide Valid, Grounded, Tail, Position;
        records := records + [record];
        assert Contents().records[|before.records|..] == [record];
        TailGrows(before, Contents());
      }
    }

    /**
     load_current_artifact: the pointer's artifact, after a walk down the whole chain. The walk gives
     up after 64 links, so a sound session is readable exactly up to that many compactions.
     */
    method LoadCurrentArtifact() returns (r: Result<Option<Artifact>, Error>)
      ensures r.Success? <==> boundary.None? || WellChained(records, artifacts, boundary.value, 64)
      ensures boundary.Some? && (r.Success? || Sound()) ==> boundary.value in artifacts
      ensures r.Success? ==> r.value == if boundary.None? then None else Some(artifacts[boundary.value])
      ensures r == Failure(ChainTooDeep)
              <==> boundary.Some? && Descends(records, artifacts, boundary.value, 64)
      ensures Sound() ==> r == if |history| > 64 then Failure(ChainTooDeep)
                               else Success(if history == [] then None else Some(artifacts[boundary.value]))
    {
      hide Valid, Position, Descends;
      if Sound() && history != [] {
        ValidIsGrounded(Contents());
        CommitsAreChained(Contents(), |history| - 1, MAX_CHAIN_DEPTH);
      }
      if boundary.None? {
        return Success(None);
      }
      var chain := ValidateArtifactChain(records, artifacts, boundary.value);
      if chain.Failure? {
        return Failure(chain.error);
      }
      r := Success(Some(artifacts[boundary.value]));
    }

    /** An artifact file is written once; the same body again is no conflict. */
    method InstallArtifact(path: Path, artifact: Artifact) returns (r: Result<(), Error>)
      modifies `artifacts
      ensures r.Success? ==> artifacts == old(artifacts)[path := artifact]
      ensures r.Success? <==> (path !in old(artifacts) || old(artifacts)[path] == artifact)
      ensures r.Failure? ==> r.error == InstallConflict && artifacts == old(artifacts)
    {
      if path in artifacts {
        if artifacts[path] != artifact {
          return Failure(InstallConflict);
        }
        assert artifacts == artifacts[path := artifact];
      } else {
        artifacts := artifacts[path := artifact];
      }
      r := Success(());
    }

    /** record_compaction_boundary: the pointer moves only from the expected predecessor. */
    method RecordBoundary(path: Path, expected: Option<Path>) returns (r: Result<(), Error>)
      modifies `boundary, `history
      ensures r.Success? <==> old(boundary) == expected
      ensures r.Success? ==> boundary == Some(path) && history == old(history) + [path]
      ensures r.Failure? ==> r.error == BoundaryConflict && boundary == old(boundary) && history == old(history)
    {
      if boundary != expected {
        return Failure(BoundaryConflict);
      }
      boundary := Some(path);
      history := history + [path];
      r := Success(());
    }

    /** The records behind the boundary of the current artifact. */
    method CandidateRecords(previous: Option<Artifact>) returns (candidates: seq<Record>)
      requires Sound()
      requires boundary.Some? ==> boundary.value in artifacts
      requires previous == if boundary.Some? then Some(artifacts[boundary.value]) else None
      ensures candidates == Tail(Contents())
    {
      StartOfTail(Contents(), boundary);
      TakenBound(Contents());
      hide Valid, Position;
      if previous.None? {
        return records;
      }
      var at := Position(records, previous.value.boundaryId);
      candidates := records[at.value + 1..];
    }

    /**
     compact_session. path and hash are the new artifact's, whatever they come out as; arriving are
     records that other turns append before the boundary is committed; stops cuts the process off
     after the artifact is installed.
     */
    method CompactSession(mode: Mode, policy: Policy, observed: nat, path: Path, hash: Hash, arriving: seq<Record>, stops: bool)
      returns (r: Result<bool, Error>, ghost taken: nat)
      requires Sound()
      requires UniqueIds(records + arriving)
      modifies this
      ensures Sound()
      ensures records == old(records) || records == old(records) + arriving
      // Artifacts are never replaced; the boundary moves only on success, by one link.
      ensures forall p | p in old(artifacts) :: p in artifacts && artifacts[p] == old(artifacts)[p]
      ensures r != Success(true) ==> history == old(history)
      ensures r == Success(true) ==> history == old(history) + [path] && records == old(records) + arriving
      // The new segment is a non-empty front of the old tail; the rest stays in the tail.
      ensures r == Success(true) ==> 0 < taken <= |old(Tail(Contents()))|
                                     && Segment(Contents(), |history| - 1) == old(Tail(Contents()))[..taken]
                                     && Tail(Contents()) == old(Tail(Contents()))[taken..] + arriving
      // It ends where the largest tail of whole exchanges begins, or takes everything when none can be kept.
      ensures r == Success(true) ==> IsSourceEnd(old(Tail(Contents())), taken, policy)
      // It does nothing only where nothing asks for it: no source, or automatic and below the trigger.
      ensures r == Success(false) ==>
                exists sourceEnd: nat ::
                  && IsSourceEnd(old(Tail(Contents())), sourceEnd, policy)
                  && !(sourceEnd > 0 && Due(old(Tail(Contents())), mode, policy, observed))
      ensures r == Success(true) ==> Due(old(Tail(Contents())), mode, policy, observed)
      // No other failure than these, and none without its cause.
      ensures r.Failure? ==> r.error in {ChainTooDeep, InstallConflict, Stopped}
      ensures r == Failure(ChainTooDeep) <==> |old(history)| > 64
      ensures r == Failure(Stopped) ==> stops
      ensures r == Failure(InstallConflict) ==> path in old(artifacts)
    {
      hide Valid, Grounded, UniqueIds, Taken, Position, Segment, Tail, AllForCompaction, IsSourceEnd;
      taken := 0;
      var previous := LoadCurrentArtifact();
      if previous.Failure? {
        return Failure(previous.error), 0;
      }
      var candidates := CandidateRecords(previous.value);
      var compact, sourceEnd := PlanCompaction(candidates, mode, policy, observed);
      if !compact {
        return Success(false), 0;
      }
      var previousHash := if previous.value.Some? then Some(previous.value.value.hash) else None;
      var committed := InstallAndCommit(candidates, sourceEnd, previousHash, path, hash, arriving, stops);
      taken := sourceEnd;
      r := if committed.Success? then Success(true) else Failure(committed.error);
    }

    /** The second half of compact_session: the artifact, whatever arrives meanwhile, the boundary. */
    method InstallAndCommit(candidates: seq<Record>, sourceEnd: nat, previousHash: Option<Hash>, path: Path, hash: Hash,
                            arriving: seq<Record>, stops: bool)
      returns (r: Result<(), Error>)
      requires Sound() && UniqueIds(records + arriving)
      requires candidates == Tail(Contents()) && 0 < sourceEnd <= |candidates|
      requires boundary.Some? ==> boundary.value in artifacts
      requires previousHash == if boundary.Some? then Some(artifacts[boundary.value].hash) else None
      modifies this
      ensures Sound()
      ensures records == old(records) || records == old(records) + arriving
      ensures forall p | p in old(artifacts) :: p in artifacts && artifacts[p] == old(artifacts)[p]
      ensures r.Failure? ==> history == old(history)
      ensures r.Success? ==> history == old(history) + [path] && records == old(records) + arriving
                             && Segment(Contents(), |history| - 1) == candidates[..sourceEnd]
                             && Tail(Contents()) == candidates[sourceEnd..] + arriving
      ensures r.Failure? ==> (r.error == InstallConflict && path in old(artifacts)) || (r.error == Stopped && stops)
    {
      ghost var before := Contents();
      hide Valid, Grounded, UniqueIds, Taken, Position, Segment, Tail;
      var artifact := Artifact(candidates[sourceEnd - 1].id, boundary, previousHash, sourceEnd, hash);
      ValidIsGrounded(before);
      var installed := InstallArtifact(path, artifact);
      if installed.Failure? {
        return Failure(installed.error);
      }
      records := records + arriving;
      CompactionStep(before, candidates, artifact, path, arriving);
      if stops {
        return Failure(Stopped);
      }
      r := RecordBoundary(path, artifact.previousPath);
    }
  }

  lemma TailAt(m: Memory, k: nat)
    requires Valid(m) && k < |Tail(m)|
    ensures Taken(m, |m.history|) + k < |m.records| && Tail(m)[k] == m.records[Taken(m, |m.history|) + k]
  {
    TakenBound(m);
  }

  /** The stores after the artifact is installed, and after its boundary is committed. */
  lemma CompactionStep(before: Memory, candidates: seq<Record>, artifact: Artifact, path: Path, arriving: seq<Record>)
    requires Valid(before) && UniqueIds(before.records + arriving)
    requires candidates == Tail(before) && 0 < artifact.sourceCount <= |candidates|
    requires artifact.boundaryId == candidates[artifact.sourceCount - 1].id
    requires artifact.previousPath == LastOf(before.history)
    requires artifact.previousHash == if before.history == [] then None else Some(Committed(before, |before.history| - 1).hash)
    requires path in before.artifacts ==> before.artifacts[path] == artifact
    ensures var grown := Memory(before.records + arriving, before.artifacts[path := artifact], before.history);
            var after := grown.(history := before.history + [path]);
            && Valid(grown) && Valid(after)
            && Segment(after, |before.history|) == candidates[..artifact.sourceCount]
            && Tail(after) == candidates[artifact.sourceCount..] + arriving
  {
    var grown := Memory(before.records + arriving, before.artifacts[path := artifact], before.history);
    hide Valid, Grounded, UniqueIds, Taken, Position, Segment, Tail;
    ValidIsGrounded(before);
    TailAt(before, artifact.sourceCount - 1);
    assert grown.records[|before.records|..] == arriving;
    TailGrows(before, grown);
    NewSegment(before, grown, path, artifact.sourceCount);
  }

  function LastOf(history: seq<Path>): Option<Path> {
    if history == [] then None else Some(history[|history| - 1])
  }

  /** The tail starts behind the record the current artifact names. */
  lemma StartOfTail(m: Memory, boundary: Option<Path>)
    requires Valid(m) && boundary == LastOf(m.history)
    ensures boundary.None? ==> Taken(m, |m.history|) == 0
    ensures boundary.Some? ==> boundary.value in m.artifacts
                               && Position(m.records, m.artifacts[boundary.value].boundaryId).Some?
                               && Taken(m, |m.history|) == Position(m.records, m.artifacts[boundary.value].boundaryId).value + 1
    ensures Tail(m) == m.records[Taken(m, |m.history|)..]
  {}

  /** The last segment and the tail after a commit. */
  lemma NewSegment(before: Memory, grown: Memory, path: Path, count: nat)
    requires Valid(before) && Valid(grown) && before.records <= grown.records && grown.history == before.history
    requires Taken(grown, |before.history|) == Taken(before, |before.history|)
    requires 0 < count <= |Tail(before)| && path in grown.artifacts
    requires var a := grown.artifacts[path]; var n := |grown.history|;
             && a.boundaryId == grown.records[Taken(grown, n) + count - 1].id && a.sourceCount == count
             && a.previousPath == LastOf(grown.history)
             && a.previousHash == (if n == 0 then None else Some(Committed(grown, n - 1).hash))
    ensures var after := grown.(history := grown.history + [path]);
            && Valid(after)
            && Segment(after, |before.history|) == Tail(before)[..count]
            && Tail(after) == Tail(before)[count..] + grown.records[|before.records|..]
  {
    hide Position, Committed, UniqueIds;
    var after := grown.(history := grown.history + [path]);
    var n := |before.history|;
    TakenBound(before);
    CommitKeepsValid(grown, path, count);
    SegmentBounds(after, n);
    assert Taken(after, n) == Taken(before, n) by {
      SameTaken(grown, after, n);
    }
  }
}
