/**
 The durable record of one team: its stages, the hash-chained snapshots behind
 it, and the compare-and-swap rules that guard every write.

 Models src/runtime_core/collaboration/team_state.rs,
 src/runtime_core/collaboration/team_state/state_codec.rs and the pure part of
 src/app/collaboration_adapter/team_state.rs with its persistence.rs.
 */
module TeamState {
  import opened Wrappers

  const MAX_TEAM_LANES := 4
  const MAX_STATE_REVISIONS := 64

  datatype Stage = Plan | Dispatch | Execute | Review | Verify | Merge | Report | Complete | Failed | Cancelled {
    predicate IsTerminal() {
      this in {Complete, Failed, Cancelled}
    }

    predicate Permits(next: Stage) {
      || (this, next) in {(Plan, Dispatch), (Dispatch, Execute), (Execute, Review), (Review, Verify),
                          (Verify, Merge), (Merge, Report), (Report, Complete)}
      || (!IsTerminal() && next in {Failed, Cancelled})
    }
  }

  datatype Mode = Pending | Parallel | Sequential

  /** The fields no checkpoint may change. */
  datatype Binding = Binding(
    teamId: string, manifestHash: string, projectId: string, sessionId: string,
    parentWorkflowId: string, parentRevision: nat, parentArtifactHash: string,
    requestedLanes: nat, memberCount: nat, createdAt: nat)

  /** SHA-256 as an ideal digest: the digest of a payload is the term built from it. */
  datatype Digest = Unset | NoPrevious | Sha256(payload: Payload)

  datatype Payload = Payload(
    revision: nat, previousHash: Digest, binding: Binding, stage: Stage,
    admittedLanes: nat, executionMode: Mode, updatedAt: nat)

  datatype Record = Record(
    revision: nat, previousHash: Digest, artifactHash: Digest, binding: Binding, stage: Stage,
    admittedLanes: nat, executionMode: Mode, updatedAt: nat)
  {
    function Sealed(): Digest {
      Sha256(Payload(revision, previousHash, binding, stage, admittedLanes, executionMode, updatedAt))
    }
  }

  datatype Error =
    | CreateConflict | BadInitialRecord | Missing | StaleRevision | StageForbidden | BindingChanged
    | RevisionLimit | Invalid | SnapshotConflict | AdmissionMissing | AdmissionOutOfRange
    | BadMode | AdmissionOutsideDispatch

  predicate IsSha256(text: string) {
    |text| == 64 && forall i | 0 <= i < |text| ::
      '0' <= text[i] <= '9' || 'a' <= text[i] <= 'f' || 'A' <= text[i] <= 'F'
  }

  predicate IsTeamId(text: string) {
    0 < |text| <= 64 && forall i | 0 <= i < |text| ::
      'a' <= text[i] <= 'z' || '0' <= text[i] <= '9' || text[i] == '-' || text[i] == '_'
  }

  predicate ValidBinding(b: Binding) {
    && IsTeamId(b.teamId) && IsSha256(b.manifestHash)
    && b.projectId != "" && b.sessionId != "" && "workflow-" <= b.parentWorkflowId
    && b.parentRevision != 0 && IsSha256(b.parentArtifactHash)
    && 0 < b.requestedLanes <= MAX_TEAM_LANES && b.memberCount == b.requestedLanes
    && b.createdAt != 0
  }

  /** What every record read back from disk has been checked for. */
  predicate ValidRecord(r: Record) {
    && 0 < r.revision <= MAX_STATE_REVISIONS
    && ValidBinding(r.binding)
    && r.admittedLanes <= r.binding.requestedLanes
    && r.binding.createdAt <= r.updatedAt
    && (r.stage == Plan ==> r.admittedLanes == 0 && r.executionMode == Pending)
    && (r.stage != Plan && !r.stage.IsTerminal() ==> r.admittedLanes != 0 && r.executionMode != Pending)
    && r.artifactHash == r.Sealed()
  }

  const SMALL_LETTERS := "abcdefghijklmnopqrstuvwxyz"
  const DIGITS := "0123456789"
  const TEAM_ID_CHARACTERS := SMALL_LETTERS + DIGITS + "-_"
  const HEX_DIGITS := DIGITS + "abcdef" + "ABCDEF"

  lemma SmallLetter(c: char)
    ensures c in SMALL_LETTERS <==> 'a' <= c <= 'z'
  {
    if 'a' <= c <= 'z' {
      assert SMALL_LETTERS[c as int - 'a' as int] == c;
    }
  }

  lemma Digit(c: char)
    ensures c in DIGITS <==> '0' <= c <= '9'
  {
    if '0' <= c <= '9' {
      assert DIGITS[c as int - '0' as int] == c;
    }
  }

  lemma InThree(c: char, x: string, y: string, z: string)
    ensures c in x + y + z <==> c in x || c in y || c in z
  {}

  lemma IdCharacter(c: char)
    ensures c in TEAM_ID_CHARACTERS <==> 'a' <= c <= 'z' || '0' <= c <= '9' || c == '-' || c == '_'
  {
    SmallLetter(c);
    Digit(c);
    InThree(c, SMALL_LETTERS, DIGITS, "-_");
    assert c in "-_" <==> c == '-' || c == '_';
  }

  lemma HexDigit(c: char)
    ensures c in HEX_DIGITS <==> '0' <= c <= '9' || 'a' <= c <= 'f' || 'A' <= c <= 'F'
  {
    Digit(c);
    InThree(c, DIGITS, "abcdef", "ABCDEF");
    if 'a' <= c <= 'f' {
      assert "abcdef"[c as int - 'a' as int] == c;
    } else if 'A' <= c <= 'F' {
      assert "ABCDEF"[c as int - 'A' as int] == c;
    }
  }

  predicate Over(text: string, alphabet: string) {
    forall c | c in text :: c in alphabet
  }

  lemma OverByPlace(text: string, alphabet: string)
    ensures Over(text, alphabet) <==> forall i | 0 <= i < |text| :: text[i] in alphabet
  {
    assert forall i | 0 <= i < |text| :: text[i] in text;
  }

  lemma TeamIdSpelled(text: string)
    ensures IsTeamId(text) <==> 1 <= |text| <= 64 && Over(text, TEAM_ID_CHARACTERS)
  {
    OverByPlace(text, TEAM_ID_CHARACTERS);
    forall i | 0 <= i < |text|
      ensures text[i] in TEAM_ID_CHARACTERS
              <==> 'a' <= text[i] <= 'z' || '0' <= text[i] <= '9' || text[i] == '-' || text[i] == '_'
    {
      IdCharacter(text[i]);
    }
  }

  lemma HashSpelled(text: string)
    ensures IsSha256(text) <==> |text| == 64 && Over(text, HEX_DIGITS)
  {
    OverByPlace(text, HEX_DIGITS);
    forall i | 0 <= i < |text|
      ensures text[i] in HEX_DIGITS
              <==> '0' <= text[i] <= '9' || 'a' <= text[i] <= 'f' || 'A' <= text[i] <= 'F'
    {
      HexDigit(text[i]);
    }
  }

  /** The bindings a team may have: its names, and one to four lanes, one a member. */
  predicate SoundBinding(b: Binding) {
    && 1 <= |b.teamId| <= 64 && Over(b.teamId, TEAM_ID_CHARACTERS)
    && |b.manifestHash| == 64 && Over(b.manifestHash, HEX_DIGITS)
    && |b.parentArtifactHash| == 64 && Over(b.parentArtifactHash, HEX_DIGITS)
    && |b.projectId| > 0 && |b.sessionId| > 0 && b.parentRevision > 0 && b.createdAt > 0
    && |b.parentWorkflowId| >= 9 && b.parentWorkflowId[..9] == "workflow-"
    && b.requestedLanes in {1, 2, 3, 4} && b.memberCount == b.requestedLanes
  }

  /** The lanes and the mode that go with a stage: none before the dispatch, some while there is work. */
  predicate SoundAdmission(r: Record) {
    match r.stage
    case Plan => r.admittedLanes == 0 && r.executionMode == Pending
    case Complete | Failed | Cancelled => r.admittedLanes <= r.binding.requestedLanes
    case _ => 1 <= r.admittedLanes <= r.binding.requestedLanes && r.executionMode in {Parallel, Sequential}
  }

  lemma BindingExactly(b: Binding)
    ensures ValidBinding(b) <==> SoundBinding(b)
  {
    TeamIdSpelled(b.teamId);
    HashSpelled(b.manifestHash);
    HashSpelled(b.parentArtifactHash);
    hide IsTeamId, IsSha256;
  }

  /** What is asked of a record read from disk. */
  lemma RecordExactly(r: Record)
    ensures ValidRecord(r) <==>
            && 1 <= r.revision <= 64 && SoundBinding(r.binding) && SoundAdmission(r)
            && r.binding.createdAt <= r.updatedAt && r.artifactHash == r.Sealed()
  {
    BindingExactly(r.binding);
    hide ValidBinding, SoundBinding;
  }

  /** A team can be created exactly on an empty store from a sound binding; the record it starts with. */
  lemma CreateExactly(disk: Disk, b: Binding)
    ensures PrepareCheckpoint(disk, NewRecord(b), 0).Success? <==> disk.current.None? && SoundBinding(b)
    ensures PrepareCheckpoint(disk, NewRecord(b), 0).Success? ==>
              var r := PrepareCheckpoint(disk, NewRecord(b), 0).value;
              r == Record(1, NoPrevious, r.Sealed(), b, Plan, 0, Pending, b.createdAt)
  {
    BindingExactly(b);
    hide ValidBinding, SoundBinding;
  }

  function NewRecord(binding: Binding): Record {
    Record(0, Unset, Unset, binding, Plan, 0, Pending, binding.createdAt)
  }

  /** The in-memory stage change that precedes a checkpoint. */
  function TransitionTo(r: Record, next: Stage, lanes: Option<nat>, mode: Option<Mode>, now: nat)
    : Result<Record, Error>
  {
    if !r.stage.Permits(next) then Failure(StageForbidden)
    else if next == Dispatch then
      if lanes.None? then Failure(AdmissionMissing)
      else if lanes.value == 0 || lanes.value > r.binding.requestedLanes then Failure(AdmissionOutOfRange)
      else if mode.None? || mode.value == Pending then Failure(BadMode)
      else Success(r.(admittedLanes := lanes.value, executionMode := mode.value, stage := next, updatedAt := now))
    else if lanes.Some? || mode.Some? then Failure(AdmissionOutsideDispatch)
    else Success(r.(stage := next, updatedAt := now))
  }

  /** The files of one team. */
  datatype Disk = Disk(current: Option<Record>, snapshots: map<nat, Record>, marker: Option<Marker>)

  datatype Marker = Marker(teamId: string, manifestHash: string, parentWorkflowId: string)

  function MarkerFor(r: Record): Marker {
    Marker(r.binding.teamId, r.binding.manifestHash, r.binding.parentWorkflowId)
  }

  function CurrentRevision(disk: Disk): nat {
    if disk.current.None? then 0 else disk.current.value.revision
  }

  /** The checks of a checkpoint, made under the state lock, and the record it will install. */
  function PrepareCheckpoint(disk: Disk, next: Record, expected: nat): Result<Record, Error> {
    if expected == 0 then
      if disk.current.Some? then Failure(CreateConflict)
      else if next.revision != 0 || next.artifactHash != Unset then Failure(BadInitialRecord)
      else Seal(next.(revision := 1, previousHash := NoPrevious))
    else if disk.current.None? then Failure(Missing)
    else
      var current := disk.current.value;
      if current.revision != expected || next.revision != current.revision
         || next.artifactHash != current.artifactHash then Failure(StaleRevision)
      else if !current.stage.Permits(next.stage) then Failure(StageForbidden)
      else if next.binding != current.binding then Failure(BindingChanged)
      else Seal(next.(revision := current.revision + 1, previousHash := current.artifactHash))
  }

  function Seal(next: Record): Result<Record, Error> {
    if next.revision > MAX_STATE_REVISIONS then Failure(RevisionLimit)
    else
      var sealed := next.(artifactHash := next.Sealed());
      if ValidRecord(sealed) then Success(sealed) else Failure(Invalid)
  }

  /** A snapshot path is written once; writing the same bytes again is accepted. */
  function InstallSnapshot(disk: Disk, record: Record): Result<Disk, Error> {
    if record.revision in disk.snapshots && disk.snapshots[record.revision] != record then Failure(SnapshotConflict)
    else Success(disk.(snapshots := disk.snapshots[record.revision := record]))
  }

  function ReplaceCurrent(disk: Disk, record: Record): Disk {
    disk.(current := Some(record))
  }

  /** One link of the chain that load_state re-verifies on every read. */
  predicate Link(snapshots: map<nat, Record>, head: Record, revision: nat)
    requires 1 <= revision
  {
    && revision in snapshots
    && ValidRecord(snapshots[revision])
    && snapshots[revision].revision == revision
    && (revision == 1 ==> snapshots[revision].previousHash == NoPrevious)
    && (revision > 1 ==> revision - 1 in snapshots
                         && snapshots[revision].previousHash == snapshots[revision - 1].artifactHash)
    && snapshots[revision].binding == head.binding
    && (revision == head.revision ==> snapshots[revision] == head)
  }

  predicate VerifyChain(snapshots: map<nat, Record>, head: Record) {
    && 0 < head.revision <= MAX_STATE_REVISIONS
    && forall revision | 1 <= revision <= head.revision :: Link(snapshots, head, revision)
  }

  /** load_state: the current record, provided its whole chain checks out. */
  function LoadState(disk: Disk): Result<Record, Error> {
    if disk.current.None? then Failure(Missing)
    else if !ValidRecord(disk.current.value) || !VerifyChain(disk.snapshots, disk.current.value) then Failure(Invalid)
    else Success(disk.current.value)
  }

  /**
   Tamper evidence: two stores whose heads carry the same artifact hash and both
   pass verification hold the same head and the same snapshot at every revision.
   */
  lemma {:induction false} HashDeterminesHistory(
    a: map<nat, Record>, b: map<nat, Record>, headA: Record, headB: Record, revision: nat)
    requires ValidRecord(headA) && ValidRecord(headB)
    requires VerifyChain(a, headA) && VerifyChain(b, headB)
    requires headA.artifactHash == headB.artifactHash
    requires 1 <= revision <= headA.revision
    ensures headA == headB
    ensures revision in a && revision in b && a[revision] == b[revision]
    decreases headA.revision - revision
  {
    assert Link(a, headA, revision) && Link(b, headB, revision);
    if revision < headA.revision {
      HashDeterminesHistory(a, b, headA, headB, revision + 1);
      assert Link(a, headA, revision + 1) && Link(b, headB, revision + 1);
    }
  }

  /** The record a checkpoint installs extends the one on disk by exactly one revision. */
  predicate Extends(disk: Disk, record: Record) {
    && ValidRecord(record)
    && record.revision == CurrentRevision(disk) + 1
    && match disk.current
       case None => record.previousHash == NoPrevious
       case Some(current) =>
         && record.previousHash == current.artifactHash
         && current.stage.Permits(record.stage)
         && record.binding == current.binding
  }

  /** Chain, path and bounds: what the files satisfy at every instant. */
  ghost predicate ChainOk(disk: Disk) {
    && (forall r | r in disk.snapshots :: 1 <= r <= CurrentRevision(disk) + 1)
    && (CurrentRevision(disk) + 1 in disk.snapshots ==> Extends(disk, disk.snapshots[CurrentRevision(disk) + 1]))
    && (disk.current.Some? ==>
          && ValidRecord(disk.current.value)
          && VerifyChain(disk.snapshots, disk.current.value)
          && Link(disk.snapshots, disk.current.value, 1)
          && disk.snapshots[1].stage == Plan
          && forall r | 1 <= r < disk.current.value.revision :: PathStep(disk.snapshots, r))
    && (disk.marker.Some? ==> disk.current.Some? && disk.marker.value == MarkerFor(disk.current.value))
  }

  predicate PathStep(snapshots: map<nat, Record>, r: nat) {
    r in snapshots && r + 1 in snapshots && snapshots[r].stage.Permits(snapshots[r + 1].stage)
  }

  /** How far a stage is on the way from Plan to Complete. */
  function Place(stage: Stage): nat {
    match stage
    case Plan => 0
    case Dispatch => 1
    case Execute => 2
    case Review => 3
    case Verify => 4
    case Merge => 5
    case Report => 6
    case Complete => 7
    case Failed => 8
    case Cancelled => 9
  }

  /** The stage right behind the other one. */
  predicate Successive(from: Stage, to: Stage) {
    Place(to) == Place(from) + 1 <= 7
  }

  lemma PermittedExactly(from: Stage, to: Stage)
    ensures from.Permits(to) <==>
            Successive(from, to) || (from !in {Complete, Failed, Cancelled} && to in {Failed, Cancelled})
  {}

  /** Which stage changes are made at all: the next stage or an end, with an admission for a dispatch and without one otherwise. */
  lemma TransitionExactly(r: Record, next: Stage, lanes: Option<nat>, mode: Option<Mode>, now: nat)
    ensures TransitionTo(r, next, lanes, mode, now).Success? <==>
            && (Successive(r.stage, next) || (r.stage !in {Complete, Failed, Cancelled} && next in {Failed, Cancelled}))
            && (if next == Dispatch
                then lanes.Some? && 1 <= lanes.value <= r.binding.requestedLanes && mode.Some? && mode.value in {Parallel, Sequential}
                else lanes.None? && mode.None?)
  {
    PermittedExactly(r.stage, next);
    hide Successive, Stage.Permits;
  }

  lemma StepOfStages(from: Stage, to: Stage, r: nat)
    requires 1 <= r <= 8 && Place(from) == r - 1 && from.Permits(to)
    ensures r < 8 && (Place(to) == r || to in {Failed, Cancelled})
  {}

  lemma EndsStay(from: Stage, to: Stage)
    requires from.Permits(to)
    ensures from !in {Complete, Failed, Cancelled}
  {}

  lemma PathOf(disk: Disk, r: nat)
    requires ChainOk(disk) && disk.current.Some? && 1 <= r <= disk.current.value.revision
    ensures r in disk.snapshots && 1 in disk.snapshots && disk.snapshots[1].stage == Plan
    ensures r < disk.current.value.revision ==> PathStep(disk.snapshots, r)
    ensures r == disk.current.value.revision ==> disk.snapshots[r] == disk.current.value
  {
    assert Link(disk.snapshots, disk.current.value, r);
  }

  /** Snapshot r holds the r-th stage of the path, except that the last one may be Failed or Cancelled. */
  lemma {:induction false} RevisionIsStage(disk: Disk, r: nat)
    requires ChainOk(disk) && disk.current.Some? && 1 <= r <= disk.current.value.revision
    ensures r <= 8 && r in disk.snapshots
    ensures Place(disk.snapshots[r].stage) == r - 1
            || (r == disk.current.value.revision && disk.snapshots[r].stage in {Failed, Cancelled})
  {
    hide Stage.Permits, ChainOk;
    PathOf(disk, r);
    if r > 1 {
      PathOf(disk, r - 1);
      RevisionIsStage(disk, r - 1);
      assert PathStep(disk.snapshots, r - 1);
      EndsStay(disk.snapshots[r - 1].stage, disk.snapshots[r].stage);
      StepOfStages(disk.snapshots[r - 1].stage, disk.snapshots[r].stage, r - 1);
      if r < disk.current.value.revision {
        EndsStay(disk.snapshots[r].stage, disk.snapshots[r + 1].stage);
      }
    }
  }

  /** So a team that has not ended has always room for another revision. */
  lemma RoomForMore(disk: Disk)
    requires ChainOk(disk) && disk.current.Some? && !disk.current.value.stage.IsTerminal()
    ensures disk.current.value.revision <= 7
  {
    hide ChainOk;
    var r := disk.current.value.revision;
    HeadIsPositive(disk);
    RevisionIsStage(disk, r);
    PathOf(disk, r);
  }

  lemma HeadIsPositive(disk: Disk)
    requires ChainOk(disk) && disk.current.Some?
    ensures disk.current.value.revision >= 1
  {}

  lemma PreparedExtends(disk: Disk, next: Record, expected: nat)
    requires ChainOk(disk)
    requires PrepareCheckpoint(disk, next, expected).Success?
    requires expected == 0 ==> next.stage == Plan
    ensures var record := PrepareCheckpoint(disk, next, expected).value;
            Extends(disk, record) && record.stage == next.stage && expected == CurrentRevision(disk)
  {}

  /** Installing the prepared snapshot keeps the chain, even if the writer stops right there. */
  lemma SnapshotKeepsChain(disk: Disk, record: Record)
    requires ChainOk(disk) && Extends(disk, record)
    requires InstallSnapshot(disk, record).Success?
    ensures var disk' := InstallSnapshot(disk, record).value;
            && ChainOk(disk')
            && record.revision in disk'.snapshots && disk'.snapshots[record.revision] == record
            && (forall r | r in disk.snapshots :: r in disk'.snapshots && disk'.snapshots[r] == disk.snapshots[r])
  {
    hide ValidRecord;
    var disk' := InstallSnapshot(disk, record).value;
    if disk.current.Some? {
      var head := disk.current.value;
      forall revision | 1 <= revision <= head.revision ensures Link(disk'.snapshots, head, revision) {
        assert Link(disk.snapshots, head, revision);
      }
      assert Link(disk.snapshots, head, 1);
      forall r | 1 <= r < head.revision ensures PathStep(disk'.snapshots, r) {
        assert PathStep(disk.snapshots, r);
      }
    }
  }

  lemma HeadInBounds(disk: Disk, record: Record)
    requires Extends(disk, record)
    ensures 0 < record.revision <= MAX_STATE_REVISIONS
  {}

  /** Moving the current pointer onto an installed snapshot keeps the chain. */
  lemma ReplaceKeepsChain(disk: Disk, record: Record)
    requires ChainOk(disk) && Extends(disk, record)
    requires record.revision in disk.snapshots && disk.snapshots[record.revision] == record
    requires disk.current.None? ==> record.stage == Plan
    ensures ChainOk(ReplaceCurrent(disk, record))
  {
    HeadInBounds(disk, record);
    hide ValidRecord;
    if disk.current.Some? {
      var head := disk.current.value;
      assert Link(disk.snapshots, head, head.revision);
      forall revision | 1 <= revision <= record.revision ensures Link(disk.snapshots, record, revision) {
        if revision <= head.revision {
          assert Link(disk.snapshots, head, revision);
        }
      }
      forall r | 1 <= r < record.revision ensures PathStep(disk.snapshots, r) {
        if r < head.revision {
          assert PathStep(disk.snapshots, r);
        }
      }
    } else {
      assert Link(disk.snapshots, record, 1);
    }
  }

  /**
   A writer that stops between snapshot and pointer leaves an orphan at current + 1. From
   then on a checkpoint gets past its snapshot exactly when it rebuilds the orphan: same
   stage, lanes, mode and clock reading (and, for the first revision, the same binding).
   */
  lemma OrphanAdmitsOnlyItself(disk: Disk, next: Record, expected: nat)
    requires ChainOk(disk) && CurrentRevision(disk) + 1 in disk.snapshots
    requires PrepareCheckpoint(disk, next, expected).Success?
    ensures var orphan := disk.snapshots[CurrentRevision(disk) + 1];
            InstallSnapshot(disk, PrepareCheckpoint(disk, next, expected).value).Success?
            <==> && next.binding == orphan.binding && next.stage == orphan.stage
                 && next.admittedLanes == orphan.admittedLanes
                 && next.executionMode == orphan.executionMode && next.updatedAt == orphan.updatedAt
  {
    var orphan := disk.snapshots[CurrentRevision(disk) + 1];
    var record := PrepareCheckpoint(disk, next, expected).value;
    assert record.revision == orphan.revision && record.previousHash == orphan.previousHash;
    assert record == orphan <==> (record.Sealed() == orphan.Sealed());
  }
}
