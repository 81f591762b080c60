/**
 What the team protocol guarantees over whole runs: any number of planners, executors,
 cancellers and reconcilers, interleaved step by step, each free to stop anywhere.
 */
module TeamSafety {
  import opened Wrappers
  import opened TeamState
  import opened TeamProtocol
  import opened TeamInvariant

  ghost predicate Run(states: seq<State>, steps: seq<Step>) {
    && |states| == |steps| + 1
    && Init(states[0])
    && forall i | 0 <= i < |steps| :: Next(states[i], steps[i]) == Some(states[i + 1])
  }

  lemma {:induction false} RunInv(states: seq<State>, steps: seq<Step>, i: nat)
    requires Run(states, steps) && i < |states|
    ensures Inv(states[i])
    decreases i
  {
    if i == 0 {
      InitInv(states[0]);
    } else {
      RunInv(states, steps, i - 1);
      assert Next(states[i - 1], steps[i - 1]) == Some(states[i]);
      StepKeepsInv(states[i - 1], steps[i - 1]);
    }
  }

  lemma RunStep(states: seq<State>, steps: seq<Step>, i: nat)
    requires Run(states, steps) && i + 1 < |states|
    ensures i < |steps| && Next(states[i], steps[i]) == Some(states[i + 1])
  {}

  /** The process whose step moves the current pointer, and the record it installs. */
  predicate MovesPointer(s: State, step: Step) {
    step.Move? && step.p in s.procs && s.procs[step.p].phase.Snapshotted?
  }

  function Installed(s: State, step: Step): Record
    requires MovesPointer(s, step)
  {
    s.procs[step.p].phase.record
  }

  /**
   One step: the durable record changes only by a pointer move that extends it by one
   revision along a permitted edge; snapshots are only added, never above current + 1
   and never over an existing one; a cancel marker once written stays.
   */
  lemma StepEffect(s: State, step: Step)
    requires Inv(s) && Next(s, step).Some?
    ensures var s' := Next(s, step).value;
            && (if MovesPointer(s, step)
                then && s'.disk.current == Some(Installed(s, step)) && Extends(s.disk, Installed(s, step))
                     && Installed(s, step).revision == CurrentRevision(s.disk) + 1
                else s'.disk.current == s.disk.current)
            && (forall r | r in s.disk.snapshots :: r in s'.disk.snapshots && s'.disk.snapshots[r] == s.disk.snapshots[r])
            && (forall r | r in s'.disk.snapshots && r !in s.disk.snapshots :: r == CurrentRevision(s.disk) + 1)
            && (s.disk.marker.Some? ==> s'.disk.marker == s.disk.marker)
            && s.ledger <= s'.ledger
  {
    match step
    case Move(p, c) =>
      var pr := s.procs[p];
      hide ChainOk, Extends, ValidRecord;
      if pr.phase.Prepared? || pr.phase.Snapshotted? {
        WriterExtends(s, p, pr);
        hide Inv;
        WriterMove(s, p, pr);
      } else {
        hide Inv;
        QuietMove(s, p, pr, c);
      }
    case _ => hide Inv, Extends, ValidRecord;
  }

  lemma WriterExtends(s: State, p: Pid, pr: Process)
    requires Inv(s) && p in s.procs && pr == s.procs[p] && (pr.phase.Prepared? || pr.phase.Snapshotted?)
    ensures Extends(s.disk, pr.phase.record) && pr.phase.record.revision == CurrentRevision(s.disk) + 1
  {
    assert ProcessOk(s, p, pr);
  }

  lemma WriterMove(s: State, p: Pid, pr: Process)
    requires (pr.phase.Prepared? || pr.phase.Snapshotted?) && Checkpoint(s, p, pr).Some?
    requires pr.phase.record.revision == CurrentRevision(s.disk) + 1
    ensures var s' := Checkpoint(s, p, pr).value;
            && s'.disk.current == (if pr.phase.Snapshotted? then Some(pr.phase.record) else s.disk.current)
            && (forall r | r in s.disk.snapshots :: r in s'.disk.snapshots && s'.disk.snapshots[r] == s.disk.snapshots[r])
            && (forall r | r in s'.disk.snapshots && r !in s.disk.snapshots :: r == CurrentRevision(s.disk) + 1)
            && s'.disk.marker == s.disk.marker && s'.ledger == s.ledger
  {}

  /** What a step outside the two writing phases leaves as it is. */
  predicate Quiet(s: State, s': State) {
    && s'.disk.current == s.disk.current && s'.disk.snapshots == s.disk.snapshots
    && (s.disk.marker.Some? ==> s'.disk.marker == s.disk.marker)
    && s.ledger <= s'.ledger
  }

  lemma BeginIsQuiet(s: State, p: Pid, pr: Process, c: Choice)
    requires pr.phase.Ready? && Begin(s, p, pr, c).Some?
    ensures Quiet(s, Begin(s, p, pr, c).value)
  {
    hide Code;
  }

  lemma CheckpointIsQuiet(s: State, p: Pid, pr: Process)
    requires !pr.phase.Ready? && !pr.phase.Loading? && !pr.phase.ReceiptMissing?
    requires !pr.phase.Prepared? && !pr.phase.Snapshotted? && Checkpoint(s, p, pr).Some?
    ensures Quiet(s, Checkpoint(s, p, pr).value)
  {
    hide Code, PrepareCheckpoint;
  }

  /** Outside the two writing phases only marker, artifact, parent, ledger and locks can change. */
  lemma QuietMove(s: State, p: Pid, pr: Process, c: Choice)
    requires !pr.phase.Prepared? && !pr.phase.Snapshotted? && MoveOne(s, p, pr, c).Some?
    ensures Quiet(s, MoveOne(s, p, pr, c).value)
  {
    hide Code, LoadState, TransitionTo, Begin, Checkpoint;
    if pr.phase.Ready? {
      BeginIsQuiet(s, p, pr, c);
    } else if !pr.phase.Loading? && !pr.phase.ReceiptMissing? {
      CheckpointIsQuiet(s, p, pr);
    }
  }

  predicate Grown(a: Disk, b: Disk) {
    && CurrentRevision(a) <= CurrentRevision(b)
    && forall r | r in a.snapshots :: r in b.snapshots && b.snapshots[r] == a.snapshots[r]
  }

  lemma GrownTransitive(a: Disk, b: Disk, c: Disk)
    requires Grown(a, b) && Grown(b, c)
    ensures Grown(a, c)
  {}

  lemma StepGrows(s: State, step: Step)
    requires Inv(s) && Next(s, step).Some?
    ensures Grown(s.disk, Next(s, step).value.disk)
  {
    StepEffect(s, step);
    hide Run, Inv, ValidRecord, Next, Extends;
  }

  /** No step ever rewrites or removes a snapshot, and the revision on disk never goes back. */
  lemma {:induction false} SnapshotsAreImmutable(states: seq<State>, steps: seq<Step>, i: nat, j: nat)
    requires Run(states, steps) && i <= j < |states|
    ensures Grown(states[i].disk, states[j].disk)
    decreases j
  {
    hide Inv, Next, Grown, Run;
    if i == j {
      GrownReflexive(states[i].disk);
    } else {
      var k := j - 1;
      SnapshotsAreImmutable(states, steps, i, k);
      RunInv(states, steps, k);
      RunStep(states, steps, k);
      StepGrows(states[k], steps[k]);
      GrownTransitive(states[i].disk, states[k].disk, states[j].disk);
    }
  }

  lemma GrownReflexive(disk: Disk)
    ensures Grown(disk, disk)
  {}

  /** From Plan to the head: permitted edges, linked hashes, one binding. */
  predicate ChainedPath(snapshots: map<nat, Record>, head: Record) {
    && (forall r | 1 <= r <= head.revision :: r in snapshots && snapshots[r].revision == r)
    && 1 <= head.revision && snapshots[head.revision] == head
    && snapshots[1].stage == Plan && snapshots[1].previousHash == NoPrevious
    && forall r, next | 1 <= r < head.revision && next == r + 1 ::
         && snapshots[r].stage.Permits(snapshots[next].stage)
         && snapshots[next].previousHash == snapshots[r].artifactHash
         && snapshots[next].binding == snapshots[r].binding
  }

  /**
   In every reachable state snapshots 1..current verify as a hash chain with one binding,
   their stages form a path of the stage graph from Plan to the current stage, load_state
   never refuses, and nothing but an orphan at current + 1 lies beyond.
   */
  lemma DurableHistoryIsAPath(states: seq<State>, steps: seq<Step>, i: nat)
    requires Run(states, steps) && i < |states|
    ensures var disk := states[i].disk;
            && (forall r | r in disk.snapshots :: 1 <= r <= CurrentRevision(disk) + 1)
            && (disk.current.Some? ==>
                  && LoadState(disk) == Success(disk.current.value)
                  && ChainedPath(disk.snapshots, disk.current.value))
  {
    RunInv(states, steps, i);
    VerifiedPath(states[i].disk);
  }

  lemma VerifiedPath(disk: Disk)
    requires ChainOk(disk)
    ensures disk.current.Some? ==> LoadState(disk) == Success(disk.current.value) && ChainedPath(disk.snapshots, disk.current.value)
  {
    if disk.current.Some? {
      var head := disk.current.value;
      assert 0 < head.revision;
      hide ValidRecord, Extends;
      assert Link(disk.snapshots, head, 1) && Link(disk.snapshots, head, head.revision);
      forall r | 1 <= r <= head.revision ensures r in disk.snapshots && disk.snapshots[r].revision == r {
        assert Link(disk.snapshots, head, r);
      }
      forall r, next | 1 <= r < head.revision && next == r + 1
        ensures disk.snapshots[r].stage.Permits(disk.snapshots[next].stage)
        ensures disk.snapshots[next].previousHash == disk.snapshots[r].artifactHash
        ensures disk.snapshots[next].binding == disk.snapshots[r].binding
      {
        assert PathStep(disk.snapshots, r) && Link(disk.snapshots, head, r) && Link(disk.snapshots, head, next);
      }
    }
  }

  lemma TerminalStep(s: State, step: Step)
    requires Inv(s) && Next(s, step).Some?
    requires s.disk.current.Some? && s.disk.current.value.stage.IsTerminal()
    ensures Next(s, step).value.disk.current == s.disk.current
  {
    hide Inv, ValidRecord, Next, Extends;
    StepEffect(s, step);
    if MovesPointer(s, step) {
      ExtendsPermits(s.disk, Installed(s, step));
    }
  }

  /**
   The revision is the stage: in every reachable state snapshot r holds the r-th stage of the one path
   from Plan to Complete, except that the last one may be Failed or Cancelled. So no team ever has
   more than eight revisions, and the limit of 64 never stops one.
   */
  lemma StageOfRevision(states: seq<State>, steps: seq<Step>, i: nat, r: nat)
    requires Run(states, steps) && i < |states| && states[i].disk.current.Some?
    requires 1 <= r <= CurrentRevision(states[i].disk)
    ensures states[i].disk.current.value.revision <= 8
    ensures r in states[i].disk.snapshots
    ensures var stage := states[i].disk.snapshots[r].stage;
            Place(stage) == r - 1 || (r == states[i].disk.current.value.revision && stage in {Failed, Cancelled})
  {
    hide Run, Inv, ChainOk;
    RunInv(states, steps, i);
    ChainOfInv(states[i]);
    RevisionIsStage(states[i].disk, r);
    RevisionIsStage(states[i].disk, states[i].disk.current.value.revision);
  }

  // ---- What a dispatch records -------------------------------------------------------------------

  predicate Admits(pr: Process, r: Record) {
    r.stage == Dispatch ==> r.admittedLanes == pr.lanes && r.executionMode == pr.mode
  }

  /** A dispatch on its way to the disk carries the lanes and the mode of its executor's admission. */
  predicate CarriesAdmission(pr: Process) {
    match pr.phase
    case AwaitingLock(next, _) => Admits(pr, next)
    case Locked(next, _) => Admits(pr, next)
    case Prepared(record) => Admits(pr, record)
    case Snapshotted(record) => Admits(pr, record)
    case _ => true
  }

  lemma BeginTouchesOne(s: State, p: Pid, pr: Process, c: Choice)
    requires pr.phase.Ready? && Begin(s, p, pr, c).Some?
    ensures var s' := Begin(s, p, pr, c).value; p in s'.procs && s'.procs == s.procs[p := s'.procs[p]]
  {
    hide Code, Process.Then, Process.Jump, Process.Instruction, NewRecord, MarkerFor;
  }

  lemma PhaseAfterBegin(s: State, p: Pid, pr: Process, c: Choice)
    requires pr.phase.Ready? && Begin(s, p, pr, c).Some? && p in Begin(s, p, pr, c).value.procs
    ensures var phase := Begin(s, p, pr, c).value.procs[p].phase;
            || phase.Ready? || phase.Loading? || phase.Announcing? || phase.ReceiptMissing?
            || phase == AwaitingLock(NewRecord(pr.binding), 0)
  {
    hide Code, Process.Instruction, MarkerFor, NewRecord;
  }

  lemma BeginCarries(s: State, p: Pid, pr: Process, c: Choice)
    requires pr.phase.Ready? && Begin(s, p, pr, c).Some?
    ensures var s' := Begin(s, p, pr, c).value; p in s'.procs && s'.procs == s.procs[p := s'.procs[p]] && CarriesAdmission(s'.procs[p])
  {
    hide Begin;
    BeginTouchesOne(s, p, pr, c);
    PhaseAfterBegin(s, p, pr, c);
  }

  lemma LoadCarries(s: State, p: Pid, pr: Process, before: Record, c: Choice)
    requires FinishLoad(s, p, pr, before, c).Some?
    ensures var s' := FinishLoad(s, p, pr, before, c).value;
            p in s'.procs && s'.procs == s.procs[p := s'.procs[p]] && CarriesAdmission(s'.procs[p])
  {
    hide Code, LoadState, Stage.Permits;
  }

  lemma PreparedAdmits(disk: Disk, next: Record, expected: nat)
    requires PrepareCheckpoint(disk, next, expected).Success?
    ensures var record := PrepareCheckpoint(disk, next, expected).value;
            && record.stage == next.stage && record.admittedLanes == next.admittedLanes
            && record.executionMode == next.executionMode
  {
    hide ValidRecord, Stage.Permits;
  }

  lemma CheckpointCarries(s: State, p: Pid, pr: Process)
    requires !pr.phase.Ready? && !pr.phase.Loading? && !pr.phase.ReceiptMissing?
    requires CarriesAdmission(pr) && Checkpoint(s, p, pr).Some?
    ensures var s' := Checkpoint(s, p, pr).value;
            p in s'.procs && s'.procs == s.procs[p := s'.procs[p]] && CarriesAdmission(s'.procs[p])
  {
    if pr.phase.Locked? {
      PreparedAdmits(s.disk, pr.phase.next, pr.phase.expected);
    }
    hide Code, PrepareCheckpoint;
  }

  lemma MoveCarries(s: State, p: Pid, pr: Process, c: Choice)
    requires CarriesAdmission(pr) && MoveOne(s, p, pr, c).Some?
    ensures var s' := MoveOne(s, p, pr, c).value;
            p in s'.procs && s'.procs == s.procs[p := s'.procs[p]] && CarriesAdmission(s'.procs[p])
  {
    hide Code, Begin, FinishLoad, Checkpoint, Admits;
    match pr.phase
    case Ready => BeginCarries(s, p, pr, c);
    case Loading(before) => LoadCarries(s, p, pr, before, c);
    case ReceiptMissing =>
    case _ => CheckpointCarries(s, p, pr);
  }

  lemma {:induction false} RunCarries(states: seq<State>, steps: seq<Step>, i: nat, p: Pid)
    requires Run(states, steps) && i < |states| && p in states[i].procs
    ensures CarriesAdmission(states[i].procs[p])
  {
    hide CarriesAdmission, MoveOne;
    if i > 0 {
      var k := i - 1;
      RunStep(states, steps, k);
      match steps[k]
      case Start(q, role, binding) =>
        if q == p {
          FreshCarries(role, binding);
        } else {
          RunCarries(states, steps, k, p);
        }
      case Move(q, c) =>
        RunCarries(states, steps, k, q);
        MoveCarries(states[k], q, states[k].procs[q], c);
        if q != p {
          RunCarries(states, steps, k, p);
        }
      case _ => RunCarries(states, steps, k, p);
    }
  }

  lemma FreshCarries(role: Role, binding: Binding)
    ensures CarriesAdmission(Fresh(role, binding))
  {}

  /** In every run, whoever interferes: the record of a dispatch shows the lanes and the mode its executor was admitted with. */
  lemma DispatchRecordsAdmission(states: seq<State>, steps: seq<Step>, i: nat)
    requires Run(states, steps) && i + 1 < |states| && i < |steps|
    requires states[i + 1].disk.current != states[i].disk.current
    requires states[i + 1].disk.current.Some? && states[i + 1].disk.current.value.stage == Dispatch
    ensures steps[i].Move? && steps[i].p in states[i].procs
    ensures var pr, record := states[i].procs[steps[i].p], states[i + 1].disk.current.value;
            pr.role == Executor && record.admittedLanes == pr.lanes && record.executionMode == pr.mode
  {
    RunInv(states, steps, i);
    RunStep(states, steps, i);
    StepEffect(states[i], steps[i]);
    RunCarries(states, steps, i, steps[i].p);
    DispatcherIsExecutor(states[i], steps[i].p);
  }

  lemma DispatcherIsExecutor(s: State, p: Pid)
    requires Inv(s) && p in s.procs && s.procs[p].phase.Snapshotted? && s.procs[p].phase.record.stage == Dispatch
    ensures s.procs[p].role == Executor
  {
    assert ProcessOk(s, p, s.procs[p]);
    hide SharedOk, Extends;
  }

  /** Whatever stands on disk, at whatever instant, is a sound record: bindings, lanes, mode and times. */
  lemma RecordsAreSound(states: seq<State>, steps: seq<Step>, i: nat, r: nat)
    requires Run(states, steps) && i < |states| && r in states[i].disk.snapshots
    ensures var record := states[i].disk.snapshots[r];
            && record.revision == r && SoundBinding(record.binding) && SoundAdmission(record)
            && record.binding.createdAt <= record.updatedAt && record.artifactHash == record.Sealed()
  {
    RunInv(states, steps, i);
    ChainOfInv(states[i]);
    SnapshotIsValid(states[i].disk, r);
    RecordExactly(states[i].disk.snapshots[r]);
    hide Inv, Run, ValidRecord, SoundBinding, SoundAdmission;
  }

  lemma SnapshotIsValid(disk: Disk, r: nat)
    requires ChainOk(disk) && r in disk.snapshots
    ensures ValidRecord(disk.snapshots[r]) && disk.snapshots[r].revision == r
  {
    hide ValidRecord;
    if disk.current.Some? && r <= disk.current.value.revision {
      assert Link(disk.snapshots, disk.current.value, r);
    } else {
      OrphanIsValid(disk, r);
    }
  }

  lemma OrphanIsValid(disk: Disk, r: nat)
    requires ChainOk(disk) && r in disk.snapshots && r > CurrentRevision(disk)
    ensures ValidRecord(disk.snapshots[r]) && disk.snapshots[r].revision == r
  {}

  /** Complete, Failed and Cancelled are final, also against the failure path that runs without the operation lock. */
  lemma {:induction false} TerminalIsFinal(states: seq<State>, steps: seq<Step>, i: nat, j: nat)
    requires Run(states, steps) && i <= j < |states|
    requires states[i].disk.current.Some? && states[i].disk.current.value.stage.IsTerminal()
    ensures states[j].disk.current == states[i].disk.current
    decreases j
  {
    hide Run, Inv, Next, Stage.IsTerminal;
    if i < j {
      var k := j - 1;
      TerminalIsFinal(states, steps, i, k);
      RunInv(states, steps, k);
      RunStep(states, steps, k);
      TerminalStep(states[k], steps[k]);
    }
  }

  lemma ExtendsPermits(disk: Disk, record: Record)
    requires Extends(disk, record) && disk.current.Some?
    ensures disk.current.value.stage.Permits(record.stage) && !disk.current.value.stage.IsTerminal()
  {}

  /** Two pointer moves never install the same revision: of the writers that loaded one revision, one succeeds. */
  lemma WritersOfOneRevisionNeverBothSucceed(states: seq<State>, steps: seq<Step>, i: nat, j: nat)
    requires Run(states, steps) && i < j < |steps|
    requires MovesPointer(states[i], steps[i]) && MovesPointer(states[j], steps[j])
    ensures Installed(states[i], steps[i]).revision == CurrentRevision(states[i].disk) + 1
    ensures Installed(states[i], steps[i]).revision < Installed(states[j], steps[j]).revision
  {
    RunInv(states, steps, i);
    RunInv(states, steps, j);
    hide Inv, ValidRecord;
    assert Next(states[i], steps[i]) == Some(states[i + 1]);
    assert Next(states[j], steps[j]) == Some(states[j + 1]);
    StepEffect(states[i], steps[i]);
    StepEffect(states[j], steps[j]);
    SnapshotsAreImmutable(states, steps, i + 1, j);
  }

  /** With the marker on disk, the only records anyone can still install are Failed and Cancelled. */
  lemma MarkerBlocksProgress(s: State, step: Step)
    requires Inv(s) && s.disk.marker.Some? && MovesPointer(s, step)
    ensures Installed(s, step).stage in {Failed, Cancelled}
  {
    hide ValidRecord, VerifyChain, Link, ReceiptsOk, ParentOk, StageEventsOk, StageBacked, HasReceipts;
    var pr := s.procs[step.p];
    assert ProcessOk(s, step.p, pr);
  }

  /** A marker is only ever beside a current record. */
  lemma MarkerHasTeam(s: State)
    requires Inv(s) && s.disk.marker.Some?
    ensures s.disk.current.Some?
  {}

  /** One step under the marker: it stays, and the record stays or becomes Failed or Cancelled. */
  lemma MarkedStep(s: State, step: Step)
    requires Inv(s) && s.disk.marker.Some? && Next(s, step).Some?
    ensures var s' := Next(s, step).value;
            && s'.disk.marker == s.disk.marker
            && (s'.disk.current == s.disk.current
                || (s'.disk.current.Some? && s'.disk.current.value.stage in {Failed, Cancelled}))
  {
    hide Run, Inv, ValidRecord, Next, Extends;
    StepEffect(s, step);
    if MovesPointer(s, step) {
      MarkerBlocksProgress(s, step);
    }
  }

  /** After the cancel marker, no interleaving, crash or restart moves the team forward again. */
  lemma {:induction false} CancellationHolds(states: seq<State>, steps: seq<Step>, i: nat, j: nat)
    requires Run(states, steps) && i <= j < |states|
    requires states[i].disk.marker.Some?
    ensures states[j].disk.marker == states[i].disk.marker
    ensures states[i].disk.current.Some? && states[j].disk.current.Some?
    ensures || states[j].disk.current == states[i].disk.current
            || states[j].disk.current.value.stage in {Failed, Cancelled}
    decreases j
  {
    hide Run, Inv, ValidRecord, Next, Extends;
    RunInv(states, steps, i);
    MarkerHasTeam(states[i]);
    if i < j {
      var k := j - 1;
      CancellationHolds(states, steps, i, k);
      RunInv(states, steps, k);
      RunStep(states, steps, k);
      MarkedStep(states[k], steps[k]);
    }
  }

  lemma HeadIsItsSnapshot(disk: Disk)
    requires ChainOk(disk) && disk.current.Some?
    ensures 0 < CurrentRevision(disk) && CurrentRevision(disk) in disk.snapshots
    ensures disk.snapshots[CurrentRevision(disk)] == disk.current.value
  {
    assert Link(disk.snapshots, disk.current.value, disk.current.value.revision);
  }

  /**
   An orphan decides the next record: whatever any process does from then on, the record installed
   at that revision, if there ever is one, is the snapshot that stands there.
   */
  lemma OrphanIsNext(states: seq<State>, steps: seq<Step>, i: nat, j: nat)
    requires Run(states, steps) && i <= j < |states|
    requires CurrentRevision(states[i].disk) + 1 in states[i].disk.snapshots
    ensures var next := CurrentRevision(states[i].disk) + 1;
            && (CurrentRevision(states[j].disk) + 1 >= next)
            && next in states[j].disk.snapshots && states[j].disk.snapshots[next] == states[i].disk.snapshots[next]
            && (CurrentRevision(states[j].disk) == next ==> states[j].disk.current == Some(states[i].disk.snapshots[next]))
  {
    hide Run, Inv, ValidRecord, Next, Extends;
    SnapshotsAreImmutable(states, steps, i, j);
    if CurrentRevision(states[j].disk) == CurrentRevision(states[i].disk) + 1 {
      RunInv(states, steps, j);
      ChainOfInv(states[j]);
      HeadIsItsSnapshot(states[j].disk);
    }
  }

  lemma ChainOfInv(s: State)
    requires Inv(s)
    ensures ChainOk(s.disk)
  {}

  /**
   A cancel that finds such an orphan of another stage leaves its marker and is stuck: from then on
   the marker lets only Failed and Cancelled through and the orphan only itself, so the current
   record never changes again, in no continuation of the run.
   */
  lemma {:induction false} CancelBehindOrphanIsStuck(states: seq<State>, steps: seq<Step>, i: nat, j: nat)
    requires Run(states, steps) && i <= j < |states|
    requires states[i].disk.marker.Some?
    requires CurrentRevision(states[i].disk) + 1 in states[i].disk.snapshots
    requires states[i].disk.snapshots[CurrentRevision(states[i].disk) + 1].stage !in {Failed, Cancelled}
    ensures states[j].disk.current == states[i].disk.current
    decreases j
  {
    hide Run, Inv, ValidRecord, Next, Extends;
    if i < j {
      var k := j - 1;
      CancelBehindOrphanIsStuck(states, steps, i, k);
      CancellationHolds(states, steps, i, k);
      RunInv(states, steps, k);
      RunStep(states, steps, k);
      StepEffect(states[k], steps[k]);
      if MovesPointer(states[k], steps[k]) {
        MarkerBlocksProgress(states[k], steps[k]);
        OrphanIsNext(states, steps, i, j);
        assert false;
      }
    }
  }

  /** The stage implies its evidence, across any number of interrupted and repeated reconciliations. */
  lemma StageImpliesEvidence(states: seq<State>, steps: seq<Step>, i: nat)
    requires Run(states, steps) && i < |states| && states[i].disk.current.Some?
    requires Needs(states[i].disk.current.value.stage) != {}
    ensures states[i].artifact.Some?
    ensures forall kind | kind in Needs(states[i].disk.current.value.stage) ::
              ReceiptEvent(kind, states[i].artifact.value) in states[i].ledger
    ensures states[i].disk.current.value.stage in {Merge, Report, Complete}
            ==> states[i].merges == [states[i].artifact.value]
  {
    RunInv(states, steps, i);
    var s := states[i];
    var stage := s.disk.current.value.stage;
    assert StageBacked(s.ledger, s.artifact, stage);
    if stage in {Merge, Report, Complete} {
      assert ReceiptEvent(EvidenceMerged, s.artifact.value) in s.ledger;
    }
  }

  /** Each receipt is on the ledger at most once, all of them for the one artifact, each after its predecessors. */
  lemma ReceiptsAreWrittenOnce(states: seq<State>, steps: seq<Step>, i: nat, a: nat, b: nat)
    requires Run(states, steps) && i < |states|
    requires a < |states[i].ledger| && b < |states[i].ledger|
    requires states[i].ledger[a].ReceiptEvent? && states[i].ledger[b].ReceiptEvent?
    ensures states[i].ledger[a].body == states[i].ledger[b].body
    ensures states[i].ledger[a].kind == states[i].ledger[b].kind ==> a == b
    ensures states[i].artifact == Some(states[i].ledger[a].body)
    ensures forall kind | kind in Prior(states[i].ledger[a].kind) ::
              ReceiptEvent(kind, states[i].ledger[a].body) in states[i].ledger
    ensures |states[i].merges| <= 1
  {
    RunInv(states, steps, i);
    var ledger := states[i].ledger;
    assert ReceiptsOk(ledger, states[i].artifact);
    assert ledger[a] in ledger && ledger[b] in ledger;
  }

  /** A stage event is never ahead of the disk: the stage it announces has its snapshot. */
  lemma AnnouncedStagesAreDurable(states: seq<State>, steps: seq<Step>, i: nat, e: Event)
    requires Run(states, steps) && i < |states| && e in states[i].ledger && e.StageEvent?
    ensures 1 <= e.revision <= CurrentRevision(states[i].disk)
    ensures e.revision in states[i].disk.snapshots && states[i].disk.snapshots[e.revision].stage == e.stage
  {
    RunInv(states, steps, i);
  }

  /** At most one process is inside the operation section and at most one inside a checkpoint. */
  lemma LocksExclude(states: seq<State>, steps: seq<Step>, i: nat, p: Pid, q: Pid)
    requires Run(states, steps) && i < |states| && p in states[i].procs && q in states[i].procs
    ensures HoldsOperation(states[i].procs[p]) && HoldsOperation(states[i].procs[q]) ==> p == q
    ensures HoldsState(states[i].procs[p].phase) && HoldsState(states[i].procs[q].phase) ==> p == q
  {
    RunInv(states, steps, i);
    assert ProcessOk(states[i], p, states[i].procs[p]) && ProcessOk(states[i], q, states[i].procs[q]);
  }
}
