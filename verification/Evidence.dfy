/**
 Recording one verification receipt across four stores, as src/app/evidence_adapter/recording.rs:10-138
 does it: an artifact file, a runtime log, the event ledger and the transcript. Each write is one
 atomic step and the process may stop before any of them; a later call starts over from the top.
 */
module Evidence {
  import opened Wrappers

  /** sha256_text and its first twenty digits. Nothing is assumed of either: ids may even collide. */
  datatype Hashing = Hashing(full: string -> string, short: string -> string)

  datatype Request = Request(
    workflowId: string, proposalId: string, actionId: string, command: string, passed: bool,
    exitCode: string, sourceHash: string, stdout: string, stderr: string)

  datatype Artifact = Artifact(
    evidenceId: string, artifactHash: string, workflowId: string, proposalId: string, actionId: string,
    commandHash: string, passed: bool, exitCode: string, sourceHash: string, stdoutHash: string, stderrHash: string)

  datatype RuntimeLine = RuntimeLine(
    evidenceId: string, workflowId: string, artifactHash: string, passed: bool, sourceHash: string)

  datatype Event = Event(
    evidenceId: string, workflowId: string, artifactHash: string, passed: bool, sourceHash: string)

  datatype Turn = Turn(
    evidenceId: string, passed: bool, exitCode: string, sourceHash: string, artifactHash: string,
    stdoutHash: string, stderrHash: string)

  datatype Store = Store(
    artifacts: map<string, Artifact>, runtime: seq<RuntimeLine>, ledger: seq<Event>, turns: map<(string, string), Turn>)

  datatype Error = Fault | ArtifactConflict | RuntimeConflict | TurnConflict

  const EMPTY := Store(map[], [], [], map[])

  // ---- What one request writes -----------------------------------------------------------------

  function EvidenceId(h: Hashing, r: Request): string {
    "evidence-" + h.short(r.workflowId + "\n" + r.proposalId + "\n" + r.command + "\n" + r.exitCode + "\n" + r.sourceHash)
  }

  function Payload(h: Hashing, r: Request): string {
    "workflow_id=" + r.workflowId + "\nproposal_id=" + r.proposalId + "\naction_id=" + r.actionId
    + "\ncommand_hash=" + h.full(r.command) + "\npassed=" + (if r.passed then "true" else "false")
    + "\nexit_code=" + r.exitCode + "\nsource_hash=" + r.sourceHash
    + "\nstdout_hash=" + h.full(r.stdout) + "\nstderr_hash=" + h.full(r.stderr) + "\n"
  }

  function ArtifactOf(h: Hashing, r: Request): Artifact {
    Artifact(EvidenceId(h, r), h.full(Payload(h, r)), r.workflowId, r.proposalId, r.actionId, h.full(r.command),
             r.passed, r.exitCode, r.sourceHash, h.full(r.stdout), h.full(r.stderr))
  }

  function LineOf(a: Artifact): RuntimeLine {
    RuntimeLine(a.evidenceId, a.workflowId, a.artifactHash, a.passed, a.sourceHash)
  }

  function EventOf(a: Artifact): Event {
    Event(a.evidenceId, a.workflowId, a.artifactHash, a.passed, a.sourceHash)
  }

  function TurnOf(a: Artifact): Turn {
    Turn(a.evidenceId, a.passed, a.exitCode, a.sourceHash, a.artifactHash, a.stdoutHash, a.stderrHash)
  }

  // ---- One attempt, cut off after some number of its writes -------------------------------------

  predicate HasLine(s: Store, id: string) { exists line | line in s.runtime :: line.evidenceId == id }

  predicate HasEvent(s: Store, id: string) { exists event | event in s.ledger :: event.evidenceId == id }

  predicate Conflicts(h: Hashing, s: Store, r: Request) {
    var a := ArtifactOf(h, r);
    a.evidenceId in s.artifacts && s.artifacts[a.evidenceId] != a
  }

  function PutArtifact(s: Store, a: Artifact): Store {
    if a.evidenceId in s.artifacts then s else s.(artifacts := s.artifacts[a.evidenceId := a])
  }

  function AppendLine(s: Store, a: Artifact): Store {
    if HasLine(s, a.evidenceId) then s else s.(runtime := s.runtime + [LineOf(a)])
  }

  function AppendEvent(s: Store, a: Artifact): Store {
    if HasEvent(s, a.evidenceId) then s else s.(ledger := s.ledger + [EventOf(a)])
  }

  function PutTurn(s: Store, a: Artifact): Store {
    if (a.workflowId, a.evidenceId) in s.turns then s
    else s.(turns := s.turns[(a.workflowId, a.evidenceId) := TurnOf(a)])
  }

  /** The stores after an attempt that completed the given number of its four steps; 4 is success. */
  function Attempt(h: Hashing, s: Store, r: Request, steps: nat): Store {
    var a := ArtifactOf(h, r);
    if Conflicts(h, s, r) || steps == 0 then s
    else if steps == 1 then PutArtifact(s, a)
    else if steps == 2 then AppendLine(PutArtifact(s, a), a)
    else if steps == 3 then AppendEvent(AppendLine(PutArtifact(s, a), a), a)
    else PutTurn(AppendEvent(AppendLine(PutArtifact(s, a), a), a), a)
  }

  /** Any schedule: requests in any order, each attempt cut off anywhere. */
  function Runs(h: Hashing, s: Store, calls: seq<(Request, nat)>): Store {
    if calls == [] then s
    else Attempt(h, Runs(h, s, calls[..|calls| - 1]), calls[|calls| - 1].0, calls[|calls| - 1].1)
  }

  // ---- The invariant ------------------------------------------------------------------------------

  predicate LinesBacked(s: Store) {
    forall i | 0 <= i < |s.runtime| ::
      var line := s.runtime[i];
      line.evidenceId in s.artifacts && line == LineOf(s.artifacts[line.evidenceId])
  }

  predicate EventsBacked(s: Store) {
    forall i | 0 <= i < |s.ledger| ::
      var event := s.ledger[i];
      && event.evidenceId in s.artifacts && event == EventOf(s.artifacts[event.evidenceId])
      && HasLine(s, event.evidenceId)
  }

  predicate TurnsBacked(s: Store) {
    forall key | key in s.turns ::
      && key.1 in s.artifacts && s.turns[key] == TurnOf(s.artifacts[key.1])
      && key.0 == s.artifacts[key.1].workflowId && HasEvent(s, key.1)
  }

  predicate OneLineEach(s: Store) {
    forall i, j | 0 <= i < j < |s.runtime| :: s.runtime[i].evidenceId != s.runtime[j].evidenceId
  }

  predicate OneEventEach(s: Store) {
    forall i, j | 0 <= i < j < |s.ledger| :: s.ledger[i].evidenceId != s.ledger[j].evidenceId
  }

  /**
   A transcript turn has its event, an event its runtime line, a line its artifact, each with the
   artifact's own hash and verdict; and there is at most one of each per id.
   */
  predicate Valid(s: Store) {
    && (forall id | id in s.artifacts :: s.artifacts[id].evidenceId == id)
    && LinesBacked(s) && EventsBacked(s) && TurnsBacked(s) && OneLineEach(s) && OneEventEach(s)
  }

  lemma LineAppended(s: Store, a: Artifact)
    requires Valid(s) && a.evidenceId in s.artifacts && s.artifacts[a.evidenceId] == a
    ensures Valid(AppendLine(s, a)) && HasLine(AppendLine(s, a), a.evidenceId)
    ensures AppendLine(s, a).artifacts == s.artifacts
  {
    var t := AppendLine(s, a);
    if !HasLine(s, a.evidenceId) {
      assert t.runtime[|s.runtime|] == LineOf(a);
      forall id | HasLine(s, id)
        ensures HasLine(t, id)
      {
        var line :| line in s.runtime && line.evidenceId == id;
        assert line in t.runtime;
      }
      assert LinesBacked(t);
      forall i, j | 0 <= i < j < |t.runtime|
        ensures t.runtime[i].evidenceId != t.runtime[j].evidenceId
      {
        assert t.runtime[i] in s.runtime;
      }
    }
  }

  lemma EventAppended(s: Store, a: Artifact)
    requires Valid(s) && a.evidenceId in s.artifacts && s.artifacts[a.evidenceId] == a
    requires HasLine(s, a.evidenceId)
    ensures Valid(AppendEvent(s, a)) && HasEvent(AppendEvent(s, a), a.evidenceId)
    ensures AppendEvent(s, a).artifacts == s.artifacts && AppendEvent(s, a).runtime == s.runtime
  {
    var t := AppendEvent(s, a);
    if !HasEvent(s, a.evidenceId) {
      assert t.ledger[|s.ledger|] == EventOf(a);
      forall id | HasEvent(s, id)
        ensures HasEvent(t, id)
      {
        var event :| event in s.ledger && event.evidenceId == id;
        assert event in t.ledger;
      }
      assert forall id :: HasLine(s, id) == HasLine(t, id);
      assert EventsBacked(t);
      forall i, j | 0 <= i < j < |t.ledger|
        ensures t.ledger[i].evidenceId != t.ledger[j].evidenceId
      {
        assert t.ledger[i] in s.ledger;
      }
    }
  }

  lemma ArtifactPut(s: Store, a: Artifact)
    requires Valid(s)
    requires a.evidenceId in s.artifacts ==> s.artifacts[a.evidenceId] == a
    ensures Valid(PutArtifact(s, a))
    ensures a.evidenceId in PutArtifact(s, a).artifacts && PutArtifact(s, a).artifacts[a.evidenceId] == a
  {
    if a.evidenceId !in s.artifacts {
      var t := PutArtifact(s, a);
      assert forall id :: HasLine(s, id) == HasLine(t, id);
      assert forall id :: HasEvent(s, id) == HasEvent(t, id);
      assert EventsBacked(t) && TurnsBacked(t) by {
        hide HasLine, HasEvent;
      }
    }
  }

  lemma TurnPut(s: Store, a: Artifact)
    requires Valid(s) && a.evidenceId in s.artifacts && s.artifacts[a.evidenceId] == a
    requires HasEvent(s, a.evidenceId)
    ensures Valid(PutTurn(s, a))
  {
    var t := PutTurn(s, a);
    assert forall id :: HasLine(s, id) == HasLine(t, id);
    assert forall id :: HasEvent(s, id) == HasEvent(t, id);
  }

  /** The four steps of an attempt that does not conflict, each with what it leaves behind. */
  lemma AttemptSteps(s: Store, a: Artifact)
    requires Valid(s)
    requires a.evidenceId in s.artifacts ==> s.artifacts[a.evidenceId] == a
    ensures var s1 := PutArtifact(s, a); var s2 := AppendLine(s1, a); var s3 := AppendEvent(s2, a);
            && Valid(s1) && Valid(s2) && Valid(s3) && Valid(PutTurn(s3, a))
            && a.evidenceId in s1.artifacts && s1.artifacts[a.evidenceId] == a
            && HasLine(s2, a.evidenceId) && HasEvent(s3, a.evidenceId)
            && s3.runtime == s2.runtime && s3.artifacts == s2.artifacts == s1.artifacts
  {
    hide Valid, HasLine, HasEvent;
    var s1 := PutArtifact(s, a);
    ArtifactPut(s, a);
    LineAppended(s1, a);
    EventAppended(AppendLine(s1, a), a);
    TurnPut(AppendEvent(AppendLine(s1, a), a), a);
  }

  lemma AttemptKeepsValid(h: Hashing, s: Store, r: Request, steps: nat)
    requires Valid(s)
    ensures Valid(Attempt(h, s, r, steps))
  {
    hide Valid;
    if !Conflicts(h, s, r) {
      AttemptSteps(s, ArtifactOf(h, r));
    }
  }

  // ---- Theorems over every schedule -----------------------------------------------------------------

  lemma {:induction false} RunsStayValid(h: Hashing, calls: seq<(Request, nat)>)
    ensures Valid(Runs(h, EMPTY, calls))
  {
    if calls != [] {
      RunsStayValid(h, calls[..|calls| - 1]);
      AttemptKeepsValid(h, Runs(h, EMPTY, calls[..|calls| - 1]), calls[|calls| - 1].0, calls[|calls| - 1].1);
    }
  }

  /** The positions of the runtime lines with an id. */
  function LinesWith(s: Store, id: string): set<nat> {
    set i: nat | i < |s.runtime| && s.runtime[i].evidenceId == id
  }

  function EventsWith(s: Store, id: string): set<nat> {
    set i: nat | i < |s.ledger| && s.ledger[i].evidenceId == id
  }

  lemma Singleton(positions: set<nat>, i: nat)
    requires i in positions && forall j | j in positions :: j == i
    ensures |positions| == 1
  {
    assert positions == {i};
  }

  /** Exactly one of each, all bound to this artifact. */
  ghost predicate RecordedOnce(s: Store, a: Artifact) {
    && a.evidenceId in s.artifacts && s.artifacts[a.evidenceId] == a
    && |LinesWith(s, a.evidenceId)| == 1 && LineOf(a) in s.runtime
    && |EventsWith(s, a.evidenceId)| == 1 && EventOf(a) in s.ledger
    && (a.workflowId, a.evidenceId) in s.turns && s.turns[(a.workflowId, a.evidenceId)] == TurnOf(a)
  }

  /** The same in full: what a request that succeeded can be read back as, store by store. */
  ghost predicate ReadBack(h: Hashing, s: Store, r: Request) {
    var id := "evidence-" + h.short(r.workflowId + "\n" + r.proposalId + "\n" + r.command + "\n" + r.exitCode + "\n" + r.sourceHash);
    var hash := h.full(
      "workflow_id=" + r.workflowId + "\nproposal_id=" + r.proposalId + "\naction_id=" + r.actionId
      + "\ncommand_hash=" + h.full(r.command) + "\npassed=" + (if r.passed then "true" else "false")
      + "\nexit_code=" + r.exitCode + "\nsource_hash=" + r.sourceHash
      + "\nstdout_hash=" + h.full(r.stdout) + "\nstderr_hash=" + h.full(r.stderr) + "\n");
    && id in s.artifacts
    && s.artifacts[id] == Artifact(id, hash, r.workflowId, r.proposalId, r.actionId, h.full(r.command),
                                   r.passed, r.exitCode, r.sourceHash, h.full(r.stdout), h.full(r.stderr))
    && (exists line | line in s.runtime :: line.evidenceId == id)
    && (forall line | line in s.runtime && line.evidenceId == id ::
          line == RuntimeLine(id, r.workflowId, hash, r.passed, r.sourceHash))
    && (exists event | event in s.ledger :: event.evidenceId == id)
    && (forall event | event in s.ledger && event.evidenceId == id ::
          event == Event(id, r.workflowId, hash, r.passed, r.sourceHash))
    && (r.workflowId, id) in s.turns
    && s.turns[(r.workflowId, id)] == Turn(id, r.passed, r.exitCode, r.sourceHash, hash, h.full(r.stdout), h.full(r.stderr))
  }

  lemma RecordedIsReadBack(h: Hashing, s: Store, r: Request)
    requires Valid(s) && RecordedOnce(s, ArtifactOf(h, r))
    ensures ReadBack(h, s, r)
  {
    var a := ArtifactOf(h, r);
    var id, hash := a.evidenceId, a.artifactHash;
    assert LineOf(a).evidenceId == id && EventOf(a).evidenceId == id;
    forall line | line in s.runtime && line.evidenceId == id
      ensures line == RuntimeLine(id, r.workflowId, hash, r.passed, r.sourceHash)
    {
      var i :| 0 <= i < |s.runtime| && s.runtime[i] == line;
    }
    forall event | event in s.ledger && event.evidenceId == id
      ensures event == Event(id, r.workflowId, hash, r.passed, r.sourceHash)
    {
      var i :| 0 <= i < |s.ledger| && s.ledger[i] == event;
    }
  }

  lemma ValidMeansOnce(s: Store, a: Artifact)
    requires Valid(s)
    requires a.evidenceId in s.artifacts && s.artifacts[a.evidenceId] == a
    requires HasLine(s, a.evidenceId) && HasEvent(s, a.evidenceId) && (a.workflowId, a.evidenceId) in s.turns
    ensures RecordedOnce(s, a)
  {
    var line :| line in s.runtime && line.evidenceId == a.evidenceId;
    var i :| 0 <= i < |s.runtime| && s.runtime[i] == line;
    Singleton(LinesWith(s, a.evidenceId), i);
    var event :| event in s.ledger && event.evidenceId == a.evidenceId;
    var k :| 0 <= k < |s.ledger| && s.ledger[k] == event;
    Singleton(EventsWith(s, a.evidenceId), k);
  }

  lemma CompletedIsReadBack(h: Hashing, s: Store, r: Request)
    requires Valid(s) && !Conflicts(h, s, r)
    ensures RecordedOnce(Attempt(h, s, r, 4), ArtifactOf(h, r)) && ReadBack(h, Attempt(h, s, r, 4), r)
  {
    hide Valid, HasLine, HasEvent, RecordedOnce, ArtifactOf, ReadBack;
    var a := ArtifactOf(h, r);
    ConflictsIsArtifactConflict(h, s, r);
    AttemptSteps(s, a);
    var s3 := AppendEvent(AppendLine(PutArtifact(s, a), a), a);
    var t := PutTurn(s3, a);
    assert HasLine(t, a.evidenceId) && HasEvent(t, a.evidenceId) by {
      PutTurnKeepsRest(s3, a);
      LineStays(AppendLine(PutArtifact(s, a), a), s3, a.evidenceId);
    }
    ValidMeansOnce(t, a);
    RecordedIsReadBack(h, t, r);
  }

  /** Whatever the crashes before, the attempt that completes leaves exactly one of each, with everything the request said. */
  lemma SuccessRecordsOnce(h: Hashing, calls: seq<(Request, nat)>, r: Request)
    requires !Conflicts(h, Runs(h, EMPTY, calls), r)
    ensures RecordedOnce(Runs(h, EMPTY, calls + [(r, 4)]), ArtifactOf(h, r))
    ensures ReadBack(h, Runs(h, EMPTY, calls + [(r, 4)]), r)
  {
    hide Valid, RecordedOnce, ReadBack, Attempt;
    RunsStayValid(h, calls);
    assert (calls + [(r, 4)])[..|calls|] == calls;
    CompletedIsReadBack(h, Runs(h, EMPTY, calls), r);
  }

  lemma ConflictsIsArtifactConflict(h: Hashing, s: Store, r: Request)
    requires !Conflicts(h, s, r)
    ensures var a := ArtifactOf(h, r); a.evidenceId in s.artifacts ==> s.artifacts[a.evidenceId] == a
  {}

  lemma LineStays(s: Store, t: Store, id: string)
    requires s.runtime == t.runtime
    ensures HasLine(s, id) == HasLine(t, id)
  {}

  lemma PutTurnKeepsRest(s: Store, a: Artifact)
    ensures forall id :: HasLine(PutTurn(s, a), id) == HasLine(s, id) && HasEvent(PutTurn(s, a), id) == HasEvent(s, id)
  {}

  /** A call that was cut off and repeated to the end leaves what one undisturbed call leaves. */
  lemma CrashesLeaveNoTrace(h: Hashing, s: Store, r: Request, steps: nat)
    requires Valid(s)
    ensures Attempt(h, Attempt(h, s, r, steps), r, 4) == Attempt(h, s, r, 4)
  {
    hide Valid, HasLine, HasEvent, ArtifactOf;
    if !Conflicts(h, s, r) {
      var a := ArtifactOf(h, r);
      ConflictsIsArtifactConflict(h, s, r);
      AttemptSteps(s, a);
      var s1 := PutArtifact(s, a);
      var s2 := AppendLine(s1, a);
      var s3 := AppendEvent(s2, a);
      LineStays(s2, s3, a.evidenceId);
      PutTurnKeepsRest(s3, a);
    }
  }

  /** The first request to get as far as the artifact under an id. */
  function FirstFor(h: Hashing, calls: seq<(Request, nat)>, id: string): Option<Artifact> {
    if calls == [] then None
    else
      var (r, steps) := calls[|calls| - 1];
      match FirstFor(h, calls[..|calls| - 1], id)
      case Some(a) => Some(a)
      case None => if steps > 0 && EvidenceId(h, r) == id then Some(ArtifactOf(h, r)) else None
  }

  lemma AttemptArtifacts(h: Hashing, s: Store, r: Request, steps: nat)
    ensures Attempt(h, s, r, steps).artifacts
         == if steps == 0 || EvidenceId(h, r) in s.artifacts then s.artifacts
            else s.artifacts[EvidenceId(h, r) := ArtifactOf(h, r)]
  {
    hide HasLine, HasEvent;
  }

  /** Under every id stands the artifact of its first request, and no later request replaces it. */
  lemma {:induction false} FirstRequestWins(h: Hashing, calls: seq<(Request, nat)>, id: string)
    ensures id in Runs(h, EMPTY, calls).artifacts <==> FirstFor(h, calls, id).Some?
    ensures FirstFor(h, calls, id).Some? ==> Runs(h, EMPTY, calls).artifacts[id] == FirstFor(h, calls, id).value
  {
    hide Attempt, ArtifactOf, EvidenceId;
    if calls != [] {
      var (r, steps) := calls[|calls| - 1];
      FirstRequestWins(h, calls[..|calls| - 1], id);
      AttemptArtifacts(h, Runs(h, EMPTY, calls[..|calls| - 1]), r, steps);
    }
  }

  // ---- The recorder -------------------------------------------------------------------------------

  class Recorder {
    const h: Hashing
    const steady: bool
    var artifacts: map<string, Artifact>
    var runtime: seq<RuntimeLine>
    var ledger: seq<Event>
    var turns: map<(string, string), Turn>

    constructor (h: Hashing, steady: bool)
      ensures this.h == h && this.steady == steady
      ensures Contents() == EMPTY && Valid(Contents())
    {
      this.h, this.steady := h, steady;
      artifacts, runtime, ledger, turns := map[], [], [], map[];
    }

    ghost function Contents(): Store
      reads this
    {
      Store(artifacts, runtime, ledger, turns)
    }

    /** Whether the process stops here, or the file operation that follows fails. */
    method Stops() returns (stop: bool)
      ensures steady ==> !stop
    {
      stop := *;
      stop := stop && !steady;
    }

    /** The scan over the runtime log: whether the line is there already, or another one under its id. */
    method FindLine(wanted: RuntimeLine) returns (found: Result<bool, Error>)
      ensures found.Success? ==> (found.value <==> HasLine(Contents(), wanted.evidenceId))
      ensures found.Failure? ==> exists line | line in runtime :: line.evidenceId == wanted.evidenceId && line != wanted
    {
      var seen := false;
      for i := 0 to |runtime|
        invariant seen <==> exists line | line in runtime[..i] :: line.evidenceId == wanted.evidenceId
      {
        assert runtime[..i + 1] == runtime[..i] + [runtime[i]];
        if runtime[i].evidenceId == wanted.evidenceId {
          if runtime[i] != wanted {
            return Failure(RuntimeConflict);
          }
          seen := true;
        }
      }
      assert runtime[..|runtime|] == runtime;
      found := Success(seen);
    }

    method EventExists(id: string) returns (found: bool)
      ensures found <==> HasEvent(Contents(), id)
    {
      found := exists event | event in ledger :: event.evidenceId == id;
    }

    method InstallArtifact(a: Artifact) returns (ok: Result<(), Error>)
      modifies this
      ensures ok.Success? ==> Contents() == PutArtifact(old(Contents()), a)
      ensures ok.Success? ==> a.evidenceId in old(artifacts) ==> old(artifacts)[a.evidenceId] == a
      ensures ok.Failure? ==> Contents() == old(Contents()) && ok.error in {Fault, ArtifactConflict}
      ensures ok == Failure(ArtifactConflict) ==> a.evidenceId in artifacts && artifacts[a.evidenceId] != a
      ensures steady ==> ok.Success? || ok == Failure(ArtifactConflict)
    {
      var stop := Stops();
      if stop {
        return Failure(Fault);
      }
      if a.evidenceId in artifacts {
        if artifacts[a.evidenceId] != a {
          return Failure(ArtifactConflict);
        }
      } else {
        artifacts := artifacts[a.evidenceId := a];
      }
      ok := Success(());
    }

    method AppendRuntimeLine(a: Artifact) returns (ok: Result<(), Error>)
      requires Valid(Contents()) && a.evidenceId in artifacts && artifacts[a.evidenceId] == a
      modifies this
      ensures ok.Success? ==> Contents() == AppendLine(old(Contents()), a)
      ensures ok.Failure? ==> Contents() == old(Contents()) && ok.error == Fault
      ensures steady ==> ok.Success?
    {
      var stop := Stops();
      if stop {
        return Failure(Fault);
      }
      NoOtherLine(Contents(), a);
      var found := FindLine(LineOf(a));
      if !found.value {
        runtime := runtime + [LineOf(a)];
      }
      ok := Success(());
    }

    method AppendLedgerEvent(a: Artifact) returns (ok: Result<(), Error>)
      modifies this
      ensures ok.Success? ==> Contents() == AppendEvent(old(Contents()), a)
      ensures ok.Failure? ==> Contents() == old(Contents()) && ok.error == Fault
      ensures steady ==> ok.Success?
    {
      var stop := Stops();
      if stop {
        return Failure(Fault);
      }
      var recorded := EventExists(a.evidenceId);
      if !recorded {
        ledger := ledger + [EventOf(a)];
      }
      ok := Success(());
    }

    method RecordTurn(a: Artifact) returns (ok: Result<(), Error>)
      requires Valid(Contents()) && a.evidenceId in artifacts && artifacts[a.evidenceId] == a
      modifies this
      ensures ok.Success? ==> Contents() == PutTurn(old(Contents()), a)
      ensures ok.Failure? ==> Contents() == old(Contents()) && ok.error == Fault
      ensures steady ==> ok.Success?
    {
      var stop := Stops();
      if stop {
        return Failure(Fault);
      }
      if (a.workflowId, a.evidenceId) in turns {
        TurnAgrees(Contents(), a);
        if turns[(a.workflowId, a.evidenceId)] != TurnOf(a) {
          assert false;
        }
      } else {
        turns := turns[(a.workflowId, a.evidenceId) := TurnOf(a)];
      }
      ok := Success(());
    }

    /**
     steps counts the writes that were reached. The conflict is always found at the artifact: no
     runtime line and no transcript turn ever disagrees with the artifact of its id.
     */
    method RecordPatchVerification(r: Request) returns (result: Result<(string, string, bool), Error>, ghost steps: nat)
      requires Valid(Contents())
      modifies this
      ensures Valid(Contents())
      ensures Contents() == Attempt(h, old(Contents()), r, steps)
      // A request under an id that belongs to another one changes no store, however far it gets.
      ensures Conflicts(h, old(Contents()), r) ==> Contents() == old(Contents())
      ensures result.Success? ==> steps == 4 && !Conflicts(h, old(Contents()), r)
                                  && result.value == (EvidenceId(h, r), h.full(Payload(h, r)), r.passed)
      ensures result.Success? ==> ReadBack(h, Contents(), r)
      ensures result.Failure? && result.error != Fault ==> result.error == ArtifactConflict && Conflicts(h, old(Contents()), r)
      ensures steady ==> if Conflicts(h, old(Contents()), r) then result == Failure(ArtifactConflict) else result.Success?
    {
      hide Valid, HasLine, HasEvent, ArtifactOf, PutArtifact, AppendLine, AppendEvent, PutTurn, EvidenceId, Payload;
      hide ReadBack, RecordedOnce;
      var a := ArtifactOf(h, r);
      ArtifactIdentity(h, r);
      ghost var s := Contents();
      var ok := InstallArtifact(a);
      if ok.Failure? {
        AttemptKeepsValid(h, s, r, 0);
        return Failure(ok.error), 0;
      }
      AttemptSteps(s, a);
      ok := AppendRuntimeLine(a);
      if ok.Failure? {
        AttemptKeepsValid(h, s, r, 1);
        return Failure(ok.error), 1;
      }
      ok := AppendLedgerEvent(a);
      if ok.Failure? {
        AttemptKeepsValid(h, s, r, 2);
        return Failure(ok.error), 2;
      }
      ok := RecordTurn(a);
      if ok.Failure? {
        AttemptKeepsValid(h, s, r, 3);
        return Failure(ok.error), 3;
      }
      AttemptKeepsValid(h, s, r, 4);
      CompletedIsReadBack(h, s, r);
      var stop := Stops();
      if stop {
        return Failure(Fault), 4;
      }
      result, steps := Success((a.evidenceId, a.artifactHash, a.passed)), 4;
    }
  }

  lemma ArtifactIdentity(h: Hashing, r: Request)
    ensures ArtifactOf(h, r).evidenceId == EvidenceId(h, r)
    ensures ArtifactOf(h, r).artifactHash == h.full(Payload(h, r)) && ArtifactOf(h, r).passed == r.passed
  {}

  lemma NoOtherLine(s: Store, a: Artifact)
    requires Valid(s) && a.evidenceId in s.artifacts && s.artifacts[a.evidenceId] == a
    ensures forall line | line in s.runtime && line.evidenceId == a.evidenceId :: line == LineOf(a)
  {}

  lemma TurnAgrees(s: Store, a: Artifact)
    requires Valid(s) && a.evidenceId in s.artifacts && s.artifacts[a.evidenceId] == a
    requires (a.workflowId, a.evidenceId) in s.turns
    ensures s.turns[(a.workflowId, a.evidenceId)] == TurnOf(a)
  {}
}
