/**
 The team store as the code runs it: files reassigned one durable operation at a time,
 any of which may fail. One command runs at a time here; TeamProtocol has the interleavings.

 Models src/app/collaboration_adapter/team_state.rs:154-292, team_state/persistence.rs:126-179
 and src/app/collaboration_adapter/team_reconciliation.rs:20-157.
 */
module TeamStore {
  import opened Wrappers
  import opened TeamState
  import opened TeamProtocol
  import opened TeamInvariant

  datatype Outcome = Done(record: Record) | Refused

  /** The guard of a checkpoint: the checks pass and the next snapshot path is free or already right. */
  predicate Installable(disk: Disk, next: Record, expected: nat) {
    var prepared := PrepareCheckpoint(disk, next, expected);
    prepared.Success? && InstallSnapshot(disk, prepared.value).Success?
  }

  /** The guard of a stage change, as a caller could check it beforehand. */
  predicate Advanceable(disk: Disk, target: Stage, lanes: Option<nat>, mode: Option<Mode>, now: nat) {
    && disk.current.Some?
    && var current := disk.current.value;
       if current.stage == target
       then target == Dispatch ==> lanes == Some(current.admittedLanes) && mode == Some(current.executionMode)
       else && TransitionTo(current, target, lanes, mode, now).Success?
            && Installable(disk, TransitionTo(current, target, lanes, mode, now).value, current.revision)
  }

  /** No snapshot is lost or changed. */
  predicate Kept(before: map<nat, Record>, after: map<nat, Record>) {
    forall n | n in before :: n in after && after[n] == before[n]
  }

  /** The current record is the old one, or its permitted successor at the target, installed as a snapshot. */
  predicate AtMostMoved(before: Disk, after: Disk, target: Stage) {
    || after.current == before.current
    || (&& before.current.Some? && before.current.value.stage != target
        && after.current.Some? && after.current.value.stage == target && Extends(before, after.current.value)
        && after.snapshots == before.snapshots[after.current.value.revision := after.current.value])
  }

  /** At most the current record was announced, and only at the target. */
  predicate AtMostAnnounced(before: seq<Event>, after: seq<Event>, disk: Disk, target: Stage) {
    || after == before
    || (disk.current.Some? && disk.current.value.stage == target
        && after == before + [StageEvent(disk.current.value.revision, target)])
  }

  predicate SameAdmission(a: Record, b: Record) {
    a.admittedLanes == b.admittedLanes && a.executionMode == b.executionMode && a.updatedAt == b.updatedAt
  }

  /** What a stage change writes about lanes, mode and time. */
  predicate Admitted(before: Record, after: Record, target: Stage, lanes: Option<nat>, mode: Option<Mode>, now: nat) {
    && after.updatedAt == now
    && (if target == Dispatch
        then lanes == Some(after.admittedLanes) && mode == Some(after.executionMode)
        else after.admittedLanes == before.admittedLanes && after.executionMode == before.executionMode)
  }

  /** Where advance_state leaves a team: at the target, unchanged or freshly written. */
  predicate Reached(before: Record, after: Record, target: Stage, lanes: Option<nat>, mode: Option<Mode>, now: nat) {
    if before.stage == target
    then after == before && (target == Dispatch ==> lanes == Some(after.admittedLanes) && mode == Some(after.executionMode))
    else after.stage == target && Admitted(before, after, target, lanes, mode, now)
  }

  predicate HasStageEvent(ledger: seq<Event>, stage: Stage) {
    exists e | e in ledger :: e.StageEvent? && e.stage == stage
  }

  class Store {
    var current: Option<Record>
    var snapshots: map<nat, Record>
    var marker: Option<Marker>
    var ledger: seq<Event>
    var artifact: Option<Body>
    var parent: Parent
    var merges: seq<Body>

    ghost function Files(): Disk
      reads this
    {
      Disk(current, snapshots, marker)
    }

    /** The store between commands, seen as a protocol state without processes. */
    ghost function AtRest(): State
      reads this
    {
      State(Files(), ledger, artifact, parent, merges, None, None, map[])
    }

    /** An operation that the environment may fail; a reliable environment never does. */
    method Fails(reliable: bool) returns (failed: bool)
      ensures reliable ==> !failed
    {
      failed := *;
      failed := failed && !reliable;
    }

    method VerifySnapshotChain(record: Record) returns (ok: bool)
      ensures ok == VerifyChain(snapshots, record)
    {
      if record.revision == 0 || record.revision > MAX_STATE_REVISIONS {
        return false;
      }
      var previous := NoPrevious;
      for revision := 1 to record.revision + 1
        invariant forall r | 1 <= r < revision :: Link(snapshots, record, r)
        invariant revision > 1 ==> Link(snapshots, record, revision - 1)
        invariant previous == if revision == 1 then NoPrevious else snapshots[revision - 1].artifactHash
      {
        if revision !in snapshots || !ValidRecord(snapshots[revision]) {
          assert !Link(snapshots, record, revision);
          return false;
        }
        var snapshot := snapshots[revision];
        if snapshot.revision != revision || snapshot.previousHash != previous || snapshot.binding != record.binding {
          assert !Link(snapshots, record, revision);
          return false;
        }
        previous := snapshot.artifactHash;
        if revision == record.revision && snapshot != record {
          assert !Link(snapshots, record, revision);
          return false;
        }
        assert Link(snapshots, record, revision);
      }
      return true;
    }

    method LoadState() returns (r: Result<Record, Error>)
      ensures r.Success? <==> TeamState.LoadState(Files()).Success?
      ensures r.Success? ==> current == Some(r.value)
    {
      if current.None? {
        return Failure(Missing);
      }
      if !ValidRecord(current.value) {
        return Failure(Invalid);
      }
      var ok := VerifySnapshotChain(current.value);
      return if ok then Success(current.value) else Failure(Invalid);
    }

    /**
     The compare-and-swap write. It either installs exactly the prepared record, or leaves
     the current record alone, with at most that record orphaned beside it.
     */
    method CheckpointState(next: Record, expected: nat, reliable: bool) returns (r: Outcome)
      requires ChainOk(Files())
      requires expected == 0 ==> next.stage == Plan
      modifies this`current, this`snapshots
      ensures ChainOk(Files())
      ensures r.Done? ==> PrepareCheckpoint(old(Files()), next, expected) == Success(r.record)
      ensures r.Done? ==> current == Some(r.record) && snapshots == old(snapshots)[r.record.revision := r.record]
      ensures r.Refused? ==> current == old(current)
      ensures r.Refused? ==> || snapshots == old(snapshots)
                             || (var prepared := PrepareCheckpoint(old(Files()), next, expected);
                                 prepared.Success? && snapshots == old(snapshots)[prepared.value.revision := prepared.value])
      ensures Kept(old(snapshots), snapshots)
      ensures r.Done? ==> Installable(old(Files()), next, expected)
      ensures reliable && Installable(old(Files()), next, expected) ==> r.Done?
    {
      var prepared: Result<Record, Error>;
      hide ChainOk, ValidRecord;
      if expected == 0 {
        if current.Some? || next.revision != 0 || next.artifactHash != Unset {
          return Refused;
        }
        prepared := Seal(next.(revision := 1, previousHash := NoPrevious));
      } else {
        if current.None? || current.value.revision != expected || next.revision != current.value.revision
           || next.artifactHash != current.value.artifactHash || !current.value.stage.Permits(next.stage)
           || next.binding != current.value.binding {
          return Refused;
        }
        prepared := Seal(next.(revision := current.value.revision + 1, previousHash := current.value.artifactHash));
      }
      if prepared.Failure? {
        return Refused;
      }
      var record := prepared.value;
      PreparedExtends(Files(), next, expected);
      assert prepared == PrepareCheckpoint(Files(), next, expected);
      hide ChainOk, ValidRecord, PrepareCheckpoint, Seal, Extends;
      if record.revision in snapshots && snapshots[record.revision] != record {
        return Refused;
      }
      var stopped := Fails(reliable);
      if stopped {
        return Refused;
      }
      SnapshotKeepsChain(Files(), record);
      snapshots := snapshots[record.revision := record];
      stopped := Fails(reliable);
      if stopped {
        return Refused;
      }
      ExtendsIgnoresMarker(old(Files()), Files(), record);
      ReplaceKeepsChain(Files(), record);
      current := Some(record);
      return Done(record);
    }

    /** append_stage_event_if_missing: a stage is announced once, whatever its revision. */
    method AnnounceStage(record: Record, reliable: bool) returns (ok: bool)
      modifies this`ledger
      ensures ledger == old(ledger)
              || (ledger == old(ledger) + [StageEvent(record.revision, record.stage)] && !HasStageEvent(old(ledger), record.stage))
      ensures ok ==> HasStageEvent(ledger, record.stage)
      ensures reliable ==> ok
    {
      var stopped := Fails(reliable);
      if stopped {
        return false;
      }
      if !HasStageEvent(ledger, record.stage) {
        ledger := ledger + [StageEvent(record.revision, record.stage)];
        assert ledger[|ledger| - 1] in ledger;
      }
      return true;
    }

    /** The stage change proper: the record in memory, then its checkpoint. */
    method MoveState(record: Record, target: Stage, lanes: Option<nat>, mode: Option<Mode>, now: nat, reliable: bool)
      returns (r: Outcome)
      requires ChainOk(Files()) && current == Some(record) && record.stage != target
      modifies this`current, this`snapshots
      ensures ChainOk(Files())
      ensures r.Done? ==> current == Some(r.record) && r.record.stage == target && Extends(old(Files()), r.record)
      ensures r.Done? ==> Admitted(record, r.record, target, lanes, mode, now)
      ensures r.Done? ==> snapshots == old(snapshots)[r.record.revision := r.record]
      ensures r.Refused? ==> current == old(current)
      ensures Kept(old(snapshots), snapshots)
      ensures r.Done? ==> Advanceable(old(Files()), target, lanes, mode, now)
      ensures reliable && Advanceable(old(Files()), target, lanes, mode, now) ==> r.Done?
    {
      LoadNeverRefuses(Files());
      MoveNeeded(Files(), target, lanes, mode, now);
      hide ChainOk, ValidRecord, PrepareCheckpoint, Extends, TeamState.LoadState, TransitionTo, Installable, Advanceable, Kept;
      var moved := TransitionTo(record, target, lanes, mode, now);
      if moved.Failure? {
        return Refused;
      }
      TransitionReaches(record, target, lanes, mode, now);
      hide Admitted;
      r := CheckpointState(moved.value, record.revision, reliable);
      if r.Done? {
        DoneExtends(old(Files()), moved.value, record.revision, r.record);
        SealKeepsAdmission(record, moved.value, r.record, target, lanes, mode, now);
      }
    }

    /** advance_state up to the stage event: the team is at the target already, or it is moved there. */
    method ReachStage(target: Stage, lanes: Option<nat>, mode: Option<Mode>, now: nat, reliable: bool)
      returns (r: Outcome)
      requires ChainOk(Files())
      modifies this`current, this`snapshots
      ensures ChainOk(Files())
      ensures r.Done? ==> old(current).Some? && current == Some(r.record) && r.record.stage == target
      ensures r.Done? ==> Reached(old(current).value, r.record, target, lanes, mode, now)
      ensures r.Refused? ==> current == old(current)
      ensures AtMostMoved(old(Files()), Files(), target)
      ensures Kept(old(snapshots), snapshots)
      ensures r.Done? ==> Advanceable(old(Files()), target, lanes, mode, now)
      ensures reliable && Advanceable(old(Files()), target, lanes, mode, now) ==> r.Done?
    {
      hide ChainOk, Extends, ValidRecord, TeamState.LoadState, Advanceable, Kept, Admitted;
      var loaded := LoadState();
      if current.Some? {
        LoadNeverRefuses(Files());
      }
      if loaded.Failure? {
        NothingToAdvance(Files(), target, lanes, mode, now);
        KeptAll(snapshots);
        return Refused;
      }
      var record := loaded.value;
      if record.stage == target {
        NoMoveNeeded(Files(), target, lanes, mode, now);
        KeptAll(snapshots);
        if target == Dispatch && (lanes != Some(record.admittedLanes) || mode != Some(record.executionMode)) {
          return Refused;
        }
        return Done(record);
      }
      r := MoveState(record, target, lanes, mode, now, reliable);
    }

    method AdvanceState(target: Stage, lanes: Option<nat>, mode: Option<Mode>, now: nat, reliable: bool)
      returns (r: Outcome)
      requires ChainOk(Files())
      modifies this`current, this`snapshots, this`ledger
      ensures ChainOk(Files())
      ensures r.Done? ==> current == Some(r.record) && r.record.stage == target && HasStageEvent(ledger, target)
      ensures AtMostMoved(old(Files()), Files(), target)
      ensures Kept(old(snapshots), snapshots)
      ensures AtMostAnnounced(old(ledger), ledger, Files(), target)
      ensures r.Done? ==> Advanceable(old(Files()), target, lanes, mode, now)
      ensures reliable && Advanceable(old(Files()), target, lanes, mode, now) ==> r.Done?
      ensures r.Done? && old(current).value.stage != target ==> current != old(current)
      // What the admission said is what the record says, and nothing but a dispatch changes it.
      ensures r.Done? && target == Dispatch ==> lanes == Some(r.record.admittedLanes) && mode == Some(r.record.executionMode)
      ensures r.Done? && target != Dispatch ==>
                && r.record.admittedLanes == old(current).value.admittedLanes
                && r.record.executionMode == old(current).value.executionMode
      ensures r.Done? && current != old(current) ==> r.record.updatedAt == now
    {
      hide ChainOk, Extends, Advanceable, HasStageEvent, Kept, AtMostMoved;
      r := ReachStage(target, lanes, mode, now, reliable);
      if r.Refused? {
        return;
      }
      var ok := AnnounceStage(r.record, reliable);
      if !ok {
        r := Refused;
      }
    }

    /** ledger scan and append of one receipt */
    method AppendOnce(kind: Receipt, body: Body, reliable: bool) returns (ok: bool)
      modifies this`ledger
      ensures ok ==> ReceiptEvent(kind, body) in ledger
      ensures ledger == old(ledger)
              || (ReceiptEvent(kind, body) !in old(ledger) && ledger == old(ledger) + [ReceiptEvent(kind, body)])
      ensures reliable ==> ok
    {
      if ReceiptEvent(kind, body) in ledger {
        return true;
      }
      var stopped := Fails(reliable);
      if stopped {
        return false;
      }
      ledger := ledger + [ReceiptEvent(kind, body)];
      return true;
    }

    /** merge_parent: one compare-and-swap on the parent workflow, recognised when it is repeated */
    method MergeParent(body: Body, reliable: bool) returns (ok: bool)
      modifies this`parent, this`merges
      ensures ok ==> parent == Merged(body)
      ensures || (parent == old(parent) && merges == old(merges))
              || (old(parent).Planned? && parent == Merged(body) && merges == old(merges) + [body])
      ensures ok ==> old(parent) in {Planned, Merged(body)}
      ensures reliable && old(parent) in {Planned, Merged(body)} ==> ok
    {
      var stopped := Fails(reliable);
      if stopped {
        return false;
      }
      if parent.Planned? {
        parent := Merged(body);
        merges := merges + [body];
        return true;
      }
      return parent == Merged(body);
    }

    /** `if team.stage == from { advance }`, keeping everything the store promises. */
    method StageStep(team: Record, from: Stage, target: Stage, body: Body, now: nat, reliable: bool)
      returns (r: Outcome)
      requires SharedOk(AtRest()) && current == Some(team)
      requires OnTheWay(from) && target == NextStage(from)
      requires artifact == Some(body) && HasReceipts(ledger, Needs(target), body)
      modifies this`current, this`snapshots, this`ledger
      ensures SharedOk(AtRest())
      ensures forall e | e in old(ledger) :: e in ledger
      ensures r.Done? ==> current == Some(r.record) && r.record.stage == (if team.stage == from then target else team.stage)
      ensures r.Done? ==> CanFinish(Files(), now) == old(CanFinish(Files(), now))
      ensures reliable && r.Refused? ==> !old(CanFinish(Files(), now))
    {
      hide CanFinish, Advanceable, SharedOk, ChainOk, Needs, HasReceipts, Kept, HasStageEvent;
      if team.stage != from {
        return Done(team);
      }
      ChainOfShared(AtRest());
      r := AdvanceState(target, None, None, now, reliable);
      AdvancedShared(old(AtRest()), AtRest(), target, body);
      if r.Done? {
        StepLeavesRoom(old(Files()), Files(), target, now);
      } else if reliable {
        FinishNeedsStep(old(Files()), target, now);
      }
    }

    method Receive(kind: Receipt, body: Body, reliable: bool) returns (ok: bool)
      requires SharedOk(AtRest()) && artifact == Some(body)
      requires HasReceipts(ledger, Prior(kind), body) && (kind == EvidenceMerged ==> merges == [body])
      modifies this`ledger
      ensures SharedOk(AtRest())
      ensures forall e | e in old(ledger) :: e in ledger
      ensures ok ==> ReceiptEvent(kind, body) in ledger
      ensures reliable ==> ok
    {
      ok := AppendOnce(kind, body, reliable);
      if ledger != old(ledger) {
        ReceiptShared(old(AtRest()), AtRest(), ReceiptEvent(kind, body));
      }
    }

    /**
     The whole reconciliation. Wherever it stops, the store's promises hold; run to the end it
     leaves a complete team with every receipt for this artifact and the parent merged once. It
     reaches the end only from a reconcilable store, and from each of them when nothing external
     fails. A snapshot that a crash left beside the pointer is in the way of every later call,
     unless this call writes the very same record, clock reading included.
     */
    method ReconcileReport(body: Body, now: nat, reliable: bool) returns (r: Outcome)
      requires SharedOk(AtRest())
      modifies this`current, this`snapshots, this`ledger, this`artifact, this`parent, this`merges
      ensures SharedOk(AtRest())
      ensures old(marker).Some? || old(current).None?
              || old(current).value.stage in {Plan, Dispatch, Failed, Cancelled}
              ==> r.Refused? && AtRest() == old(AtRest())
      ensures r.Done? ==> current == Some(r.record) && r.record.stage == Complete
      ensures r.Done? ==> artifact == Some(body) && merges == [body] && HasReceipts(ledger, Needs(Complete), body)
      ensures r.Done? ==> Reconcilable(old(AtRest()), body, now)
      ensures reliable && Reconcilable(old(AtRest()), body, now) ==> r.Done?
    {
      hide ChainOk, ReceiptsOk, ParentOk, StageEventsOk, StageBacked, ValidRecord, TeamState.LoadState;
      var loaded := LoadState();
      if current.Some? {
        LoadNeverRefuses(Files());
      }
      if loaded.Failure? || loaded.value.stage in {Plan, Dispatch, Failed, Cancelled} || marker.Some? {
        return Refused;
      }
      var team := loaded.value;
      if artifact.Some? && artifact != Some(body) {
        return Refused;
      }
      artifact := Some(body);
      ArtifactShared(old(AtRest()), AtRest(), body);
      assert team.stage.Execute? || team.stage in {Review, Verify, Merge, Report, Complete};
      r := ReviewResults(team, body, now, reliable);
      if r.Refused? { return; }
      r := MergeEvidence(r.record, body, now, reliable);
      if r.Refused? { return; }
      r := PassStopGate(r.record, body, now, reliable);
    }

    /** From the installed artifact to Verify. */
    method ReviewResults(team: Record, body: Body, now: nat, reliable: bool) returns (r: Outcome)
      requires SharedOk(AtRest()) && current == Some(team) && artifact == Some(body)
      requires team.stage in {Execute, Review, Verify, Merge, Report, Complete}
      modifies this`current, this`snapshots, this`ledger
      ensures SharedOk(AtRest())
      ensures r.Done? ==> current == Some(r.record) && r.record.stage in {Verify, Merge, Report, Complete}
      ensures r.Done? ==> HasReceipts(ledger, Needs(Verify), body)
      ensures r.Done? ==> CanFinish(Files(), now) == old(CanFinish(Files(), now))
      ensures reliable && r.Refused? ==> !old(CanFinish(Files(), now))
    {
      hide SharedOk, CanFinish;
      var ok := Receive(Reconciled, body, reliable);
      if !ok { return Refused; }
      r := StageStep(team, Execute, Review, body, now, reliable);
      if r.Refused? { return; }
      r := StageStep(r.record, Review, Verify, body, now, reliable);
    }

    /** The parent takes the evidence exactly once, then the team moves to Merge. */
    method MergeEvidence(team: Record, body: Body, now: nat, reliable: bool) returns (r: Outcome)
      requires SharedOk(AtRest()) && current == Some(team) && artifact == Some(body)
      requires team.stage in {Verify, Merge, Report, Complete} && HasReceipts(ledger, Needs(Verify), body)
      modifies this`current, this`snapshots, this`ledger, this`parent, this`merges
      ensures SharedOk(AtRest())
      ensures r.Done? ==> current == Some(r.record) && r.record.stage in {Merge, Report, Complete}
      ensures r.Done? ==> HasReceipts(ledger, Needs(Merge), body) && merges == [body]
      ensures r.Done? ==> CanFinish(Files(), now) == old(CanFinish(Files(), now))
      ensures r.Done? ==> old(parent) in {Planned, Merged(body)}
      ensures reliable && r.Refused? ==> !old(CanFinish(Files(), now)) || old(parent) !in {Planned, Merged(body)}
    {
      hide SharedOk, CanFinish;
      var ok := MergeParent(body, reliable);
      MergeShared(old(AtRest()), AtRest(), body);
      if !ok { return Refused; }
      ok := Receive(EvidenceMerged, body, reliable);
      if !ok { return Refused; }
      r := StageStep(team, Verify, Merge, body, now, reliable);
    }

    /** The stop gate and the report, up to Complete. */
    method PassStopGate(team: Record, body: Body, now: nat, reliable: bool) returns (r: Outcome)
      requires SharedOk(AtRest()) && current == Some(team) && artifact == Some(body)
      requires team.stage in {Merge, Report, Complete} && HasReceipts(ledger, Needs(Merge), body)
      modifies this`current, this`snapshots, this`ledger
      ensures SharedOk(AtRest())
      ensures r.Done? ==> current == Some(r.record) && r.record.stage == Complete
      ensures r.Done? ==> HasReceipts(ledger, Needs(Complete), body)
      ensures r.Done? ==> old(CanFinish(Files(), now))
      ensures reliable && old(CanFinish(Files(), now)) ==> r.Done?
    {
      hide SharedOk, CanFinish;
      var ok := Receive(StopGatePassed, body, reliable);
      if !ok { return Refused; }
      r := StageStep(team, Merge, Report, body, now, reliable);
      if r.Refused? { return; }
      ok := Receive(ReportCompleted, body, reliable);
      if !ok { return Refused; }
      r := StageStep(r.record, Report, Complete, body, now, reliable);
      CompleteCanFinish(Files(), now);
    }

    /** cancel_report: marker first, then the stage; the marker alone already blocks every later command. */
    method CancelReport(now: nat, reliable: bool) returns (r: Outcome)
      requires SharedOk(AtRest())
      modifies this`current, this`snapshots, this`ledger, this`marker
      ensures SharedOk(AtRest())
      ensures old(current).None? || old(current).value.stage in {Complete, Failed} ==> r.Refused? && AtRest() == old(AtRest())
      ensures r.Done? ==> current == Some(r.record) && r.record.stage == Cancelled
      ensures r.Done? && old(current).value.stage != Cancelled ==> var b := r.record.binding;
                marker == Some(Marker(b.teamId, b.manifestHash, b.parentWorkflowId))
      ensures current != old(current) ==> marker.Some? && current.Some? && current.value.stage == Cancelled
      ensures reliable && old(current).Some? && !old(current).value.stage.IsTerminal()
              ==> var b := old(current).value.binding; marker == Some(Marker(b.teamId, b.manifestHash, b.parentWorkflowId))
      ensures r.Done? ==> Cancellable(old(Files()), now)
      ensures reliable && Cancellable(old(Files()), now) ==> r.Done?
    {
      var loaded := LoadState();
      if current.Some? {
        LoadNeverRefuses(Files());
      }
      hide ChainOk, ReceiptsOk, ParentOk, StageEventsOk, ValidRecord, TeamState.LoadState, Extends, Advanceable, SlotOpen, Kept, HasStageEvent;
      if loaded.Failure? {
        return Refused;
      }
      var team := loaded.value;
      if team.stage == Cancelled {
        return Done(team);
      }
      if team.stage.IsTerminal() {
        return Refused;
      }
      if marker.Some? && marker.value != MarkerFor(team) {
        return Refused;
      }
      var stopped := Fails(reliable);
      if stopped {
        return Refused;
      }
      CurrentSeen(Files());
      MarkerChain(Files(), team);
      marker := Some(MarkerFor(team));
      label marked:
      assert SharedOk(AtRest());
      CancelExactly(old(Files()), Files(), now);
      hide SharedOk, Cancellable;
      ChainOfShared(AtRest());
      r := AdvanceState(Cancelled, None, None, now, reliable);
      NothingNeeded(old@marked(AtRest()), AtRest());
      if current != old(current) {
        SameBinding(old@marked(Files()), current.value);
      }
    }
  }

  predicate OnTheWay(stage: Stage) {
    stage in {Execute, Review, Verify, Merge, Report}
  }

  function NextStage(stage: Stage): Stage {
    match stage
    case Execute => Review
    case Review => Verify
    case Verify => Merge
    case Merge => Report
    case _ => Complete
  }

  /** The next snapshot path is free, or holds the very record that moving to the target now would write. */
  predicate SlotOpen(disk: Disk, target: Stage, now: nat) {
    && disk.current.Some?
    && var current := disk.current.value;
       current.revision + 1 in disk.snapshots ==>
         var orphan := disk.snapshots[current.revision + 1];
         && orphan.stage == target && orphan.updatedAt == now
         && orphan.admittedLanes == current.admittedLanes && orphan.executionMode == current.executionMode
  }

  /** What the stages from here to Complete ask of the files: a sane clock and an open slot. */
  predicate CanFinish(disk: Disk, now: nat) {
    && disk.current.Some?
    && var team := disk.current.value;
       || team.stage == Complete
       || (&& OnTheWay(team.stage)
           && team.binding.createdAt <= now
           && SlotOpen(disk, NextStage(team.stage), now))
  }

  predicate Reconcilable(s: State, body: Body, now: nat) {
    && s.disk.marker.None? && CanFinish(s.disk, now)
    && (s.artifact.None? || s.artifact == Some(body))
    && s.parent in {Planned, Merged(body)}
  }

  /** A team that is cancelled already, or is not at its end and finds a sane clock and an open slot. */
  predicate Cancellable(disk: Disk, now: nat) {
    && disk.current.Some?
    && var team := disk.current.value;
       || team.stage == Cancelled
       || (&& !team.stage.IsTerminal()
           && team.binding.createdAt <= now
           && SlotOpen(disk, Cancelled, now))
  }

  lemma ArtifactShared(s: State, s': State, body: Body)
    requires SharedOk(s) && s' == s.(artifact := Some(body)) && (s.artifact.None? || s.artifact == Some(body))
    ensures SharedOk(s')
  {
    hide ChainOk, ValidRecord;
    if s.disk.current.Some? {
      assert StageBacked(s.ledger, s.artifact, s.disk.current.value.stage);
    }
  }

  lemma MergeShared(s: State, s': State, body: Body)
    requires SharedOk(s) && s' == s.(parent := s'.parent, merges := s'.merges)
    requires || (s'.parent == s.parent && s'.merges == s.merges)
             || (s.parent.Planned? && s'.parent == Merged(body) && s'.merges == s.merges + [body])
    ensures SharedOk(s')
    ensures s'.parent == Merged(body) ==> s'.merges == [body]
  {
    hide ChainOk, ReceiptsOk, StageEventsOk, StageBacked;
  }

  /** What advance_state may leave behind keeps the shared invariant, provided the target is backed. */
  lemma AdvancedShared(s: State, s': State, target: Stage, body: Body)
    requires SharedOk(s) && ChainOk(s'.disk)
    requires s' == s.(disk := s'.disk, ledger := s'.ledger)
    requires s.artifact == Some(body) && HasReceipts(s.ledger, Needs(target), body)
    requires AtMostMoved(s.disk, s'.disk, target)
    requires Kept(s.disk.snapshots, s'.disk.snapshots)
    requires AtMostAnnounced(s.ledger, s'.ledger, s'.disk, target)
    ensures SharedOk(s')
  {
    if s'.disk.current.Some? {
      CurrentSeen(s'.disk);
    }
    hide ChainOk, ValidRecord;
    if s'.ledger != s.ledger {
      ReceiptsGrow(s, s', StageEvent(s'.disk.current.value.revision, target));
    }
    hide ReceiptsOk;
    assert StageEventsOk(s'.ledger, s'.disk);
    assert StageBacked(s.ledger, s.artifact, target);
    BackedStays(s, s', target);
    if s.disk.current.Some? {
      BackedStays(s, s', s.disk.current.value.stage);
    }
  }

  /** Cancelled needs no receipt, so reaching it keeps the shared invariant whatever the artifact is. */
  lemma NothingNeeded(s: State, s': State)
    requires SharedOk(s) && ChainOk(s'.disk)
    requires s' == s.(disk := s'.disk, ledger := s'.ledger)
    requires AtMostMoved(s.disk, s'.disk, Cancelled)
    requires Kept(s.disk.snapshots, s'.disk.snapshots)
    requires AtMostAnnounced(s.ledger, s'.ledger, s'.disk, Cancelled)
    ensures SharedOk(s')
  {
    if s'.disk.current.Some? {
      CurrentSeen(s'.disk);
    }
    assert CurrentRevision(s.disk) <= CurrentRevision(s'.disk);
    hide ChainOk, ValidRecord, Extends;
    if s'.ledger != s.ledger {
      ReceiptsGrow(s, s', StageEvent(s'.disk.current.value.revision, Cancelled));
    }
    hide ReceiptsOk;
    assert StageEventsOk(s'.ledger, s'.disk);
    if s.disk.current.Some? {
      BackedStays(s, s', s.disk.current.value.stage);
    }
  }

  lemma SameBinding(disk: Disk, record: Record)
    requires disk.current.Some? && Extends(disk, record)
    ensures MarkerFor(record) == MarkerFor(disk.current.value)
  {}

  lemma ChainOfShared(s: State)
    requires SharedOk(s)
    ensures ChainOk(s.disk)
  {}

  /** The record a stage change without admission prepares. */
  function Successor(current: Record, target: Stage, now: nat): Record {
    var next := current.(stage := target, updatedAt := now, revision := current.revision + 1, previousHash := current.artifactHash);
    next.(artifactHash := next.Sealed())
  }

  lemma SuccessorPrepared(disk: Disk, target: Stage, now: nat)
    requires ChainOk(disk) && disk.current.Some?
    requires disk.current.value.stage.Permits(target) && target != Dispatch
    ensures var current := disk.current.value;
            var moved := TransitionTo(current, target, None, None, now);
            && moved.Success?
            && (PrepareCheckpoint(disk, moved.value, current.revision).Success?
                <==> current.revision < MAX_STATE_REVISIONS && current.binding.createdAt <= now)
            && (PrepareCheckpoint(disk, moved.value, current.revision).Success?
                ==> PrepareCheckpoint(disk, moved.value, current.revision).value == Successor(current, target, now))
  {
    var current := disk.current.value;
    assert ValidRecord(current);
    hide ChainOk, ValidBinding;
  }

  /** A stage change goes through exactly with a sane clock and an open slot; there is always room for the revision. */
  lemma AdvanceExactly(disk: Disk, target: Stage, now: nat)
    requires ChainOk(disk) && disk.current.Some?
    requires disk.current.value.stage.Permits(target) && target != Dispatch
    ensures var current := disk.current.value;
            Advanceable(disk, target, None, None, now)
            <==> current.binding.createdAt <= now && SlotOpen(disk, target, now)
  {
    var current := disk.current.value;
    var moved := TransitionTo(current, target, None, None, now).value;
    SuccessorPrepared(disk, target, now);
    RoomForMore(disk);
    assert current.stage != target;
    if current.revision + 1 in disk.snapshots && PrepareCheckpoint(disk, moved, current.revision).Success? {
      OrphanAdmitsOnlyItself(disk, moved, current.revision);
      OrphanBinding(disk);
    }
    hide ChainOk, PrepareCheckpoint, Successor, Stage.Permits;
  }

  /** A dispatch goes through exactly with one to all requested lanes and a decided mode, besides clock and slot. */
  lemma DispatchExactly(disk: Disk, lanes: Option<nat>, mode: Option<Mode>, now: nat)
    requires ChainOk(disk) && disk.current.Some? && disk.current.value.stage == Plan
    ensures var current := disk.current.value;
            Advanceable(disk, Dispatch, lanes, mode, now) <==>
            && lanes.Some? && 1 <= lanes.value <= current.binding.requestedLanes
            && mode.Some? && mode.value in {Parallel, Sequential}
            && current.binding.createdAt <= now
            && (current.revision + 1 in disk.snapshots ==>
                  var orphan := disk.snapshots[current.revision + 1];
                  && orphan.stage == Dispatch && orphan.updatedAt == now
                  && orphan.admittedLanes == lanes.value && orphan.executionMode == mode.value)
  {
    var current := disk.current.value;
    assert ValidRecord(current);
    hide ChainOk, ValidBinding, InstallSnapshot;
    RoomForMore(disk);
    var moved := TransitionTo(current, Dispatch, lanes, mode, now);
    if moved.Success? && PrepareCheckpoint(disk, moved.value, current.revision).Success? {
      SlotExactly(disk, moved.value, current.revision);
    }
  }

  lemma SlotExactly(disk: Disk, next: Record, expected: nat)
    requires ChainOk(disk) && disk.current.Some? && PrepareCheckpoint(disk, next, expected).Success?
    requires next.binding == disk.current.value.binding && expected == disk.current.value.revision
    ensures Installable(disk, next, expected) <==>
            (expected + 1 in disk.snapshots ==>
               var orphan := disk.snapshots[expected + 1];
               && orphan.stage == next.stage && orphan.updatedAt == next.updatedAt
               && orphan.admittedLanes == next.admittedLanes && orphan.executionMode == next.executionMode)
  {
    SlotNumber(disk, next, expected);
    if expected + 1 in disk.snapshots {
      OrphanAdmitsOnlyItself(disk, next, expected);
      OrphanBinding(disk);
    }
    hide ChainOk, PrepareCheckpoint;
  }

  lemma SlotNumber(disk: Disk, next: Record, expected: nat)
    requires ChainOk(disk) && disk.current.Some? && PrepareCheckpoint(disk, next, expected).Success?
    requires expected == disk.current.value.revision
    ensures PrepareCheckpoint(disk, next, expected).value.revision == expected + 1
  {}

  lemma OrphanBinding(disk: Disk)
    requires ChainOk(disk) && disk.current.Some? && CurrentRevision(disk) + 1 in disk.snapshots
    ensures disk.snapshots[CurrentRevision(disk) + 1].binding == disk.current.value.binding
  {}

  lemma CompleteCanFinish(disk: Disk, now: nat)
    ensures disk.current.Some? && disk.current.value.stage == Complete ==> CanFinish(disk, now)
  {}

  /** The marker is no condition: in a sound store it can only be the one this team would write. */
  lemma CancelExactly(disk: Disk, marked: Disk, now: nat)
    requires ChainOk(marked) && disk.current.Some? && !disk.current.value.stage.IsTerminal()
    requires marked == disk.(marker := Some(MarkerFor(disk.current.value)))
    ensures Advanceable(marked, Cancelled, None, None, now) <==> Cancellable(disk, now)
  {
    AdvanceExactly(marked, Cancelled, now);
    hide Advanceable, ChainOk;
  }

  /** From a stage on the way to Complete, no step means no finish. */
  lemma FinishNeedsStep(disk: Disk, target: Stage, now: nat)
    requires ChainOk(disk) && disk.current.Some? && !Advanceable(disk, target, None, None, now)
    requires OnTheWay(disk.current.value.stage) && target == NextStage(disk.current.value.stage)
    ensures !CanFinish(disk, now)
  {
    AdvanceExactly(disk, target, now);
    hide Advanceable, ChainOk, SlotOpen;
  }

  /** The slot behind a fresh record is free, so one step neither adds to nor takes from what is needed. */
  lemma StepLeavesRoom(disk: Disk, disk': Disk, target: Stage, now: nat)
    requires ChainOk(disk) && disk.current.Some? && Advanceable(disk, target, None, None, now)
    requires OnTheWay(disk.current.value.stage) && target == NextStage(disk.current.value.stage)
    requires disk'.current.Some? && disk'.current.value.stage == target && Extends(disk, disk'.current.value)
    requires disk'.snapshots == disk.snapshots[disk'.current.value.revision := disk'.current.value]
    ensures CanFinish(disk', now) == CanFinish(disk, now)
  {
    AdvanceExactly(disk, target, now);
    assert disk.current.value.revision + 2 !in disk.snapshots;
    hide Advanceable, ChainOk;
  }

  lemma LoadNeverRefuses(disk: Disk)
    requires ChainOk(disk) && disk.current.Some?
    ensures TeamState.LoadState(disk) == Success(disk.current.value) && 0 < disk.current.value.revision
  {}

  lemma NothingToAdvance(disk: Disk, target: Stage, lanes: Option<nat>, mode: Option<Mode>, now: nat)
    requires disk.current.None?
    ensures !Advanceable(disk, target, lanes, mode, now)
  {}

  lemma KeptAll(snapshots: map<nat, Record>)
    ensures Kept(snapshots, snapshots)
  {}

  lemma NoMoveNeeded(disk: Disk, target: Stage, lanes: Option<nat>, mode: Option<Mode>, now: nat)
    requires disk.current.Some? && disk.current.value.stage == target
    ensures var current := disk.current.value;
            Advanceable(disk, target, lanes, mode, now)
            <==> (target == Dispatch ==> lanes == Some(current.admittedLanes) && mode == Some(current.executionMode))
  {}

  lemma MoveNeeded(disk: Disk, target: Stage, lanes: Option<nat>, mode: Option<Mode>, now: nat)
    requires disk.current.Some? && disk.current.value.stage != target
    ensures var current := disk.current.value;
            var moved := TransitionTo(current, target, lanes, mode, now);
            Advanceable(disk, target, lanes, mode, now) <==> moved.Success? && Installable(disk, moved.value, current.revision)
  {}

  lemma TransitionReaches(record: Record, target: Stage, lanes: Option<nat>, mode: Option<Mode>, now: nat)
    requires TransitionTo(record, target, lanes, mode, now).Success?
    ensures TransitionTo(record, target, lanes, mode, now).value.stage == target
    ensures Admitted(record, TransitionTo(record, target, lanes, mode, now).value, target, lanes, mode, now)
  {}

  lemma SealKeepsAdmission(record: Record, moved: Record, sealed: Record, target: Stage, lanes: Option<nat>, mode: Option<Mode>, now: nat)
    requires Admitted(record, moved, target, lanes, mode, now) && SameAdmission(moved, sealed)
    ensures Admitted(record, sealed, target, lanes, mode, now)
  {}

  lemma DoneExtends(disk: Disk, next: Record, expected: nat, record: Record)
    requires ChainOk(disk) && PrepareCheckpoint(disk, next, expected) == Success(record) && expected != 0
    ensures Extends(disk, record) && record.stage == next.stage && SameAdmission(next, record)
  {
    PreparedExtends(disk, next, expected);
  }
}
