/**
 Progress of the team protocol: what one process achieves when it runs alone from start to end, from
 any state that any interleaving, crash or restart has left behind.
 */
module TeamProgress {
  import opened Wrappers
  import opened TeamState
  import opened TeamProtocol
  import opened TeamInvariant
  import opened TeamStore

  // ---- A process on its own ------------------------------------------------------------------

  /** The state after n moves of p, under the same decisions of the environment each time. */
  function Drive(s: State, p: Pid, c: Choice, n: nat): Option<State> {
    if n == 0 then Some(s)
    else match Drive(s, p, c, n - 1)
      case None => None
      case Some(t) => Next(t, Move(p, c))
  }

  ghost predicate Reaches(s: State, p: Pid, c: Choice, t: State) {
    exists n: nat :: Drive(s, p, c, n) == Some(t)
  }

  lemma {:induction false} DriveOn(s: State, p: Pid, c: Choice, m: nat, n: nat)
    requires Drive(s, p, c, m).Some?
    ensures Drive(s, p, c, m + n) == Drive(Drive(s, p, c, m).value, p, c, n)
  {
    hide Next;
    if n > 0 {
      DriveOn(s, p, c, m, n - 1);
    }
  }

  lemma ReachesOn(s: State, p: Pid, c: Choice, t: State, u: State)
    requires Reaches(s, p, c, t) && Reaches(t, p, c, u)
    ensures Reaches(s, p, c, u)
  {
    hide Next, Drive;
    var m: nat :| Drive(s, p, c, m) == Some(t);
    var n: nat :| Drive(t, p, c, n) == Some(u);
    DriveOn(s, p, c, m, n);
  }

  lemma ReachesNext(s: State, p: Pid, c: Choice, t: State, u: State)
    requires Reaches(s, p, c, t) && Next(t, Move(p, c)) == Some(u)
    ensures Reaches(s, p, c, u)
  {
    hide Next;
    var m: nat :| Drive(s, p, c, m) == Some(t);
    assert Drive(s, p, c, m + 1) == Some(u);
  }

  lemma ReachesItself(s: State, p: Pid, c: Choice)
    ensures Reaches(s, p, c, s)
  {
    assert Drive(s, p, c, 0) == Some(s);
  }

  lemma {:induction false} DriveKeepsInv(s: State, p: Pid, c: Choice, n: nat)
    requires Inv(s) && Drive(s, p, c, n).Some?
    ensures Inv(Drive(s, p, c, n).value)
  {
    hide Inv, Next;
    if n > 0 {
      DriveKeepsInv(s, p, c, n - 1);
      StepKeepsInv(Drive(s, p, c, n - 1).value, Move(p, c));
    }
  }

  lemma ReachedInv(s: State, p: Pid, c: Choice, t: State)
    requires Inv(s) && Reaches(s, p, c, t)
    ensures Inv(t)
  {
    hide Inv, Drive;
    var n: nat :| Drive(s, p, c, n) == Some(t);
    DriveKeepsInv(s, p, c, n);
  }

  // ---- One stage change, move by move ------------------------------------------------------------

  lemma PutTwice(s: State, p: Pid, a: Process, b: Process)
    ensures Put(Put(s, p, a), p, b) == Put(s, p, b) && Put(s, p, a).procs[p] == a
  {
    assert s.procs[p := a][p := b] == s.procs[p := b];
  }

  lemma MoveFrom(s: State, p: Pid, pr: Process, c: Choice)
    ensures Next(Put(s, p, pr), Move(p, c)) == MoveOne(Put(s, p, pr), p, pr, c)
  {
    hide MoveOne;
  }

  /** The checkpoint of a prepared change, from the lock to its release. */
  lemma CheckpointAlone(s: State, p: Pid, pr: Process, next: Record, c: Choice) returns (t: State)
    requires pr.phase == AwaitingLock(next, CurrentRevision(s.disk)) && s.stateLock.None?
    requires Installable(s.disk, next, CurrentRevision(s.disk))
    ensures var record := PrepareCheckpoint(s.disk, next, CurrentRevision(s.disk)).value;
            && t == Put(s.(disk := s.disk.(snapshots := s.disk.snapshots[record.revision := record], current := Some(record))),
                        p, pr.(phase := Announcing(record)))
            && Reaches(Put(s, p, pr), p, c, t)
  {
    hide Code, PrepareCheckpoint, Reaches;
    var expected := CurrentRevision(s.disk);
    var record := PrepareCheckpoint(s.disk, next, expected).value;
    ReachesItself(Put(s, p, pr), p, c);
    var s1, pr1 := s.(stateLock := Some(p)), pr.(phase := Locked(next, expected));
    MoveFrom(s, p, pr, c);
    PutTwice(s, p, pr, pr1);
    ReachesNext(Put(s, p, pr), p, c, Put(s, p, pr), Put(s1, p, pr1));
    var pr2 := pr.(phase := Prepared(record));
    MoveFrom(s1, p, pr1, c);
    PutTwice(s1, p, pr1, pr2);
    ReachesNext(Put(s, p, pr), p, c, Put(s1, p, pr1), Put(s1, p, pr2));
    var s3, pr3 := s1.(disk := s.disk.(snapshots := s.disk.snapshots[record.revision := record])), pr.(phase := Snapshotted(record));
    MoveFrom(s1, p, pr2, c);
    PutTwice(s1, p, pr2, pr3);
    ReachesNext(Put(s, p, pr), p, c, Put(s1, p, pr2), Put(s3, p, pr3));
    var s4, pr4 := s3.(disk := s3.disk.(current := Some(record))), pr.(phase := Replaced(record));
    MoveFrom(s3, p, pr3, c);
    PutTwice(s3, p, pr3, pr4);
    ReachesNext(Put(s, p, pr), p, c, Put(s3, p, pr3), Put(s4, p, pr4));
    var s5, pr5 := s4.(stateLock := None), pr.(phase := Announcing(record));
    MoveFrom(s4, p, pr4, c);
    PutTwice(s4, p, pr4, pr5);
    ReachesNext(Put(s, p, pr), p, c, Put(s4, p, pr4), Put(s5, p, pr5));
    t := Put(s5, p, pr5);
  }

  /** The stage event behind a change: found on the ledger, or appended. */
  lemma AnnounceAlone(s: State, p: Pid, pr: Process, record: Record, c: Choice) returns (ledger: seq<Event>)
    requires pr.phase == Announcing(record)
    ensures s.ledger <= ledger && HasStageEvent(ledger, record.stage)
    ensures var next := if pr.Instruction().CreateTeam? then pr.Jump(PLANNED) else pr.Then();
            Reaches(Put(s, p, pr), p, c, Put(s.(ledger := ledger), p, next.(team := Some(record))))
  {
    hide Code, Reaches;
    var next := if pr.Instruction().CreateTeam? then pr.Jump(PLANNED) else pr.Then();
    var done := next.(team := Some(record));
    ReachesItself(Put(s, p, pr), p, c);
    MoveFrom(s, p, pr, c);
    ledger := s.ledger;
    if exists e | e in s.ledger :: e.StageEvent? && e.stage == record.stage {
      PutTwice(s, p, pr, done);
      ReachesNext(Put(s, p, pr), p, c, Put(s, p, pr), Put(s, p, done));
    } else {
      var pr1 := pr.(phase := AnnounceMissing(record));
      PutTwice(s, p, pr, pr1);
      ReachesNext(Put(s, p, pr), p, c, Put(s, p, pr), Put(s, p, pr1));
      ledger := s.ledger + [StageEvent(record.revision, record.stage)];
      MoveFrom(s, p, pr1, c);
      PutTwice(s, p, pr1, done);
      ReachesNext(Put(s, p, pr), p, c, Put(s, p, pr1), Put(s.(ledger := ledger), p, done));
      assert StageEvent(record.revision, record.stage) in ledger;
    }
  }

  /** Both reads of the team, nobody writing in between. */
  lemma LoadAlone(s: State, p: Pid, pr: Process, c: Choice)
    requires ChainOk(s.disk) && s.disk.current.Some? && pr.phase.Ready? && pr.Instruction().LoadTeam?
    ensures Reaches(Put(s, p, pr), p, c, Put(s, p, pr.Then().(team := s.disk.current)))
  {
    LoadNeverRefuses(s.disk);
    hide Code, Reaches, ChainOk, LoadState;
    ReachesItself(Put(s, p, pr), p, c);
    var pr1 := pr.(phase := Loading(s.disk.current.value));
    MoveFrom(s, p, pr, c);
    PutTwice(s, p, pr, pr1);
    ReachesNext(Put(s, p, pr), p, c, Put(s, p, pr), Put(s, p, pr1));
    MoveFrom(s, p, pr1, c);
    PutTwice(s, p, pr1, pr.Then().(team := s.disk.current));
    ReachesNext(Put(s, p, pr), p, c, Put(s, p, pr1), Put(s, p, pr.Then().(team := s.disk.current)));
  }

  function LanesFor(pr: Process, target: Stage): Option<nat> { if target == Dispatch then Some(pr.lanes) else None }

  function ModeFor(pr: Process, target: Stage): Option<Mode> { if target == Dispatch then Some(pr.mode) else None }

  /** The first moves of a stage change, up to its wait for the state lock. */
  lemma ChangeAlone(s: State, p: Pid, pr: Process, target: Stage, c: Choice)
    requires ChainOk(s.disk) && s.disk.current.Some? && pr.phase.Ready? && pr.team.Some?
    requires pr.Instruction().AdvanceFrom? && pr.Instruction().target == target
    requires pr.team.value.stage in pr.Instruction().from && s.disk.current.value.stage != target
    requires TransitionTo(s.disk.current.value, target, LanesFor(pr, target), ModeFor(pr, target), c.now).Success?
    ensures var next := TransitionTo(s.disk.current.value, target, LanesFor(pr, target), ModeFor(pr, target), c.now).value;
            Reaches(Put(s, p, pr), p, c, Put(s, p, pr.(phase := AwaitingLock(next, CurrentRevision(s.disk)))))
  {
    LoadNeverRefuses(s.disk);
    hide Code, Reaches, ChainOk, LoadState, TransitionTo;
    var before := s.disk.current.value;
    var next := TransitionTo(before, target, LanesFor(pr, target), ModeFor(pr, target), c.now).value;
    ReachesItself(Put(s, p, pr), p, c);
    var pr1 := pr.(phase := Loading(before));
    MoveFrom(s, p, pr, c);
    PutTwice(s, p, pr, pr1);
    ReachesNext(Put(s, p, pr), p, c, Put(s, p, pr), Put(s, p, pr1));
    var pr2 := pr.(phase := AwaitingLock(next, before.revision));
    PutTwice(s, p, pr1, pr2);
    FinishesChange(s, p, pr1, target, c);
    ReachesNext(Put(s, p, pr), p, c, Put(s, p, pr1), Put(s, p, pr2));
  }

  lemma FinishesChange(s: State, p: Pid, pr: Process, target: Stage, c: Choice)
    requires ChainOk(s.disk) && s.disk.current.Some? && pr.phase == Loading(s.disk.current.value)
    requires pr.Instruction().AdvanceFrom? && pr.Instruction().target == target && s.disk.current.value.stage != target
    requires TransitionTo(s.disk.current.value, target, LanesFor(pr, target), ModeFor(pr, target), c.now).Success?
    ensures var next := TransitionTo(s.disk.current.value, target, LanesFor(pr, target), ModeFor(pr, target), c.now).value;
            Next(Put(s, p, pr), Move(p, c))
            == Some(Put(Put(s, p, pr), p, pr.(phase := AwaitingLock(next, CurrentRevision(s.disk)))))
  {
    LoadNeverRefuses(s.disk);
    hide Next, Code, ChainOk, LoadState, TransitionTo, FinishLoad, LanesFor, ModeFor, Process.Instruction;
    FinishMove(s, p, pr, s.disk.current.value, c);
    LoadTurns(Put(s, p, pr), p, pr, s.disk.current.value, target, c);
  }

  lemma LoadTurns(s: State, p: Pid, pr: Process, before: Record, target: Stage, c: Choice)
    requires LoadState(s.disk) == Success(before) && before.stage != target
    requires pr.Instruction().AdvanceFrom? && pr.Instruction().target == target
    requires TransitionTo(before, target, LanesFor(pr, target), ModeFor(pr, target), c.now).Success?
    ensures FinishLoad(s, p, pr, before, c)
            == Some(Put(s, p, pr.(phase := AwaitingLock(TransitionTo(before, target, LanesFor(pr, target), ModeFor(pr, target), c.now).value,
                                                        before.revision))))
  {
    hide Code, LoadState, TransitionTo, Put, Process.Instruction;
  }

  lemma FinishMove(s: State, p: Pid, pr: Process, before: Record, c: Choice)
    requires pr.phase == Loading(before)
    ensures Next(Put(s, p, pr), Move(p, c)) == FinishLoad(Put(s, p, pr), p, pr, before, c)
  {
    hide FinishLoad, Begin, Checkpoint;
    MoveFrom(s, p, pr, c);
  }

  /** What a stage change of a lone process leaves: the record, its snapshot, and its event. */
  ghost predicate Moved(s: State, t: State, target: Stage) {
    && t == s.(disk := t.disk, ledger := t.ledger) && s.ledger <= t.ledger && HasStageEvent(t.ledger, target)
    && t.disk.current.Some? && t.disk.current.value.stage == target && Extends(s.disk, t.disk.current.value)
    && t.disk == Disk(t.disk.current, s.disk.snapshots[t.disk.current.value.revision := t.disk.current.value], s.disk.marker)
    && ChainOk(t.disk)
  }

  lemma AdvanceAlone(s: State, p: Pid, pr: Process, target: Stage, c: Choice) returns (t: State)
    requires ChainOk(s.disk) && s.stateLock.None? && s.disk.current.Some? && pr.phase.Ready? && pr.team.Some?
    requires pr.Instruction().AdvanceFrom? && pr.Instruction().target == target
    requires pr.team.value.stage in pr.Instruction().from && s.disk.current.value.stage != target
    requires Advanceable(s.disk, target, LanesFor(pr, target), ModeFor(pr, target), c.now)
    ensures Moved(s, t, target) && Reaches(Put(s, p, pr), p, c, Put(t, p, pr.Then().(team := t.disk.current)))
    ensures Admitted(s.disk.current.value, t.disk.current.value, target, LanesFor(pr, target), ModeFor(pr, target), c.now)
  {
    hide Admitted, ChainOk, Extends, Advanceable;
    hide Code, Reaches, Installable, TransitionTo, PrepareCheckpoint, Drive;
    var before := s.disk.current.value;
    LoadNeverRefuses(s.disk);
    MoveNeeded(s.disk, target, LanesFor(pr, target), ModeFor(pr, target), c.now);
    var next := TransitionTo(before, target, LanesFor(pr, target), ModeFor(pr, target), c.now).value;
    InstalledChain(s.disk, next, target, LanesFor(pr, target), ModeFor(pr, target), c.now);
    ChangeAlone(s, p, pr, target, c);
    var pr1 := pr.(phase := AwaitingLock(next, before.revision));
    var u := CheckpointAlone(s, p, pr1, next, c);
    ReachesOn(Put(s, p, pr), p, c, Put(s, p, pr1), u);
    var record := PrepareCheckpoint(s.disk, next, before.revision).value;
    var s2, pr2 := s.(disk := s.disk.(snapshots := s.disk.snapshots[record.revision := record], current := Some(record))),
                   pr1.(phase := Announcing(record));
    var ledger := AnnounceAlone(s2, p, pr2, record, c);
    t := s2.(ledger := ledger);
    NoCreation(pr);
    ReachesOn(Put(s, p, pr), p, c, Put(s2, p, pr2), Put(t, p, pr.Then().(team := Some(record))));
  }

  lemma NoCreation(pr: Process)
    requires pr.Instruction().AdvanceFrom?
    ensures !pr.Instruction().CreateTeam?
  {}

  lemma InstalledChain(disk: Disk, next: Record, target: Stage, lanes: Option<nat>, mode: Option<Mode>, now: nat)
    requires ChainOk(disk) && disk.current.Some? && TransitionTo(disk.current.value, target, lanes, mode, now) == Success(next)
    requires Installable(disk, next, disk.current.value.revision)
    ensures PrepareCheckpoint(disk, next, disk.current.value.revision).Success?
    ensures var record := PrepareCheckpoint(disk, next, disk.current.value.revision).value;
            && Extends(disk, record) && record.stage == target && Admitted(disk.current.value, record, target, lanes, mode, now)
            && ChainOk(Disk(Some(record), disk.snapshots[record.revision := record], disk.marker))
  {
    var expected := disk.current.value.revision;
    LoadNeverRefuses(disk);
    TransitionReaches(disk.current.value, target, lanes, mode, now);
    DoneExtends(disk, next, expected, PrepareCheckpoint(disk, next, expected).value);
    SealKeepsAdmission(disk.current.value, next, PrepareCheckpoint(disk, next, expected).value, target, lanes, mode, now);
    var record := PrepareCheckpoint(disk, next, expected).value;
    SnapshotKeepsChain(disk, record);
    var disk' := disk.(snapshots := disk.snapshots[record.revision := record]);
    ExtendsIgnoresMarker(disk, disk', record);
    hide ChainOk, PrepareCheckpoint, TransitionTo, Extends;
    ReplaceKeepsChain(disk', record);
  }

  /** A receipt is found, or appended in a second move. */
  lemma ReceiptAlone(s: State, p: Pid, pr: Process, kind: Receipt, c: Choice) returns (ledger: seq<Event>)
    requires pr.phase.Ready? && pr.Instruction() == AppendReceipt(kind) && pr.body.Some?
    ensures s.ledger <= ledger
    ensures Reaches(Put(s, p, pr), p, c, Put(s.(ledger := ledger), p, pr.Then()))
  {
    hide Code, Reaches;
    ReachesItself(Put(s, p, pr), p, c);
    MoveFrom(s, p, pr, c);
    ledger := s.ledger;
    var receipt := ReceiptEvent(kind, pr.body.value);
    if receipt in s.ledger {
      PutTwice(s, p, pr, pr.Then());
      ReachesNext(Put(s, p, pr), p, c, Put(s, p, pr), Put(s, p, pr.Then()));
    } else {
      var pr1 := pr.(phase := ReceiptMissing);
      PutTwice(s, p, pr, pr1);
      ReachesNext(Put(s, p, pr), p, c, Put(s, p, pr), Put(s, p, pr1));
      ledger := s.ledger + [receipt];
      MoveFrom(s, p, pr1, c);
      PutTwice(s, p, pr1, pr.Then());
      ReachesNext(Put(s, p, pr), p, c, Put(s, p, pr1), Put(s.(ledger := ledger), p, pr.Then()));
    }
  }

  /** An instruction of one move. */
  lemma OneMove(s: State, p: Pid, pr: Process, c: Choice, t: State, next: Process)
    requires pr.phase.Ready? && Begin(Put(s, p, pr), p, pr, c) == Some(Put(t, p, next))
    ensures Reaches(Put(s, p, pr), p, c, Put(t, p, next))
  {
    hide Code, Reaches, Begin;
    ReachesItself(Put(s, p, pr), p, c);
    MoveFrom(s, p, pr, c);
    ReachesNext(Put(s, p, pr), p, c, Put(s, p, pr), Put(t, p, next));
  }

  // ---- The reconciler ------------------------------------------------------------------------------------

  /** How far the team must be when the reconciler reaches an instruction. */
  function Reconciling(ip: nat): set<Stage> {
    if ip <= 7 then {Execute, Review, Verify, Merge, Report, Complete}
    else if ip <= 9 then {Review, Verify, Merge, Report, Complete}
    else if ip <= 12 then {Verify, Merge, Report, Complete}
    else if ip <= 15 then {Merge, Report, Complete}
    else if ip <= 17 then {Report, Complete}
    else {Complete}
  }

  /** A reconciler at an instruction, with nothing in its way. */
  ghost predicate ReconcilerAt(s: State, pr: Process, c: Choice, ip: nat) {
    && pr.role == Reconciler && pr.phase.Ready? && pr.ip == ip
    && ChainOk(s.disk) && s.stateLock.None? && (ip == 0 ==> s.operationLock.None?)
    && s.disk.marker.None? && CanFinish(s.disk, c.now) && s.disk.current.value.stage in Reconciling(ip)
    && (ip >= 2 ==> pr.team == s.disk.current)
    && (ip >= 5 ==> pr.body == Some(c.body))
    && (if ip >= 6 then s.artifact == Some(c.body) else s.artifact.None? || s.artifact == Some(c.body))
    && s.parent in {Planned, Merged(c.body)}
  }

  /** The instructions of one move. */
  lemma ReconcilerMoves(s: State, p: Pid, pr: Process, c: Choice, ip: nat) returns (t: State, next: Process)
    requires ReconcilerAt(s, pr, c, ip) && ip in {0, 2, 3, 4, 5, 8, 10, 13, 18}
    ensures ReconcilerAt(t, next, c, ip + 1) && Reaches(Put(s, p, pr), p, c, Put(t, p, next))
  {
    hide CanFinish, ChainOk, Reaches;
    CurrentOf(s.disk, c.now);
    t, next := s, pr.Then();
    if ip == 0 {
      t := s.(operationLock := Some(p));
    } else if ip == 4 {
      next := pr.Then().(body := Some(c.body));
    } else if ip == 5 {
      t := s.(artifact := pr.body);
    } else if ip == 10 && s.parent.Planned? {
      t := s.(parent := Merged(c.body), merges := s.merges + [c.body]);
    }
    PutTwice(s, p, pr, next);
    OneMove(s, p, pr, c, t, next);
  }

  lemma ReconcilerReads(s: State, p: Pid, pr: Process, c: Choice) returns (t: State, next: Process)
    requires ReconcilerAt(s, pr, c, 1)
    ensures ReconcilerAt(t, next, c, 2) && Reaches(Put(s, p, pr), p, c, Put(t, p, next))
  {
    hide CanFinish, ChainOk, Reaches;
    t, next := s, pr.Then().(team := s.disk.current);
    CurrentOf(s.disk, c.now);
    LoadAlone(s, p, pr, c);
  }

  lemma CurrentOf(disk: Disk, now: nat)
    requires CanFinish(disk, now)
    ensures disk.current.Some?
  {}

  lemma ReconcilerReceives(s: State, p: Pid, pr: Process, c: Choice, ip: nat) returns (t: State, next: Process)
    requires ReconcilerAt(s, pr, c, ip) && ip in {6, 11, 14, 16}
    ensures ReconcilerAt(t, next, c, ip + 1) && Reaches(Put(s, p, pr), p, c, Put(t, p, next))
  {
    hide CanFinish, ChainOk, Reaches;
    next := pr.Then();
    var ledger := ReceiptAlone(s, p, pr, pr.Instruction().kind, c);
    t := s.(ledger := ledger);
  }

  lemma ReconcilerAdvances(s: State, p: Pid, pr: Process, c: Choice, ip: nat) returns (t: State, next: Process)
    requires ReconcilerAt(s, pr, c, ip) && ip in {7, 9, 12, 15, 17}
    ensures ReconcilerAt(t, next, c, ip + 1) && Reaches(Put(s, p, pr), p, c, Put(t, p, next))
  {
    var from, target := AdvanceAt(pr);
    hide Code, CanFinish, ChainOk, Reaches, Moved, Extends, Advanceable, Process.Instruction;
    CurrentOf(s.disk, c.now);
    if s.disk.current.value.stage == from {
      FinishAdvances(s.disk, from, target, c.now);
      t := AdvanceAlone(s, p, pr, target, c);
      MovedOn(s, t, target, c.now);
      next := pr.Then().(team := t.disk.current);
    } else {
      t, next := s, pr.Then();
      SkipAlone(s, p, pr, c);
    }
  }

  lemma AdvanceAt(pr: Process) returns (from: Stage, target: Stage)
    requires pr.role == Reconciler && pr.ip in {7, 9, 12, 15, 17}
    ensures pr.Instruction() == AdvanceFrom({from}, target) && OnTheWay(from) && target == NextStage(from)
    ensures Reconciling(pr.ip) == Reconciling(pr.ip + 1) + {from} && from !in Reconciling(pr.ip + 1)
    ensures target in Reconciling(pr.ip + 1)
  {
    match pr.ip {
      case 7 => from, target := Execute, Review;
      case 9 => from, target := Review, Verify;
      case 12 => from, target := Verify, Merge;
      case 15 => from, target := Merge, Report;
      case _ => from, target := Report, Complete;
    }
  }

  lemma FinishAdvances(disk: Disk, from: Stage, target: Stage, now: nat)
    requires ChainOk(disk) && CanFinish(disk, now) && disk.current.value.stage == from && OnTheWay(from) && target == NextStage(from)
    ensures Advanceable(disk, target, None, None, now) && from != target && target != Dispatch
  {
    AdvanceExactly(disk, target, now);
    hide Advanceable, ChainOk;
  }

  lemma MovedOn(s: State, t: State, target: Stage, now: nat)
    requires ChainOk(s.disk) && Moved(s, t, target) && CanFinish(s.disk, now)
    requires OnTheWay(s.disk.current.value.stage) && target == NextStage(s.disk.current.value.stage)
    ensures CanFinish(t.disk, now) && ChainOk(t.disk) && t.disk.current.Some? && t.disk.current.value.stage == target
    ensures t == s.(disk := t.disk, ledger := t.ledger) && t.disk.marker == s.disk.marker
  {
    FinishAdvances(s.disk, s.disk.current.value.stage, target, now);
    hide Advanceable, ChainOk, CanFinish, Extends;
    StepLeavesRoom(s.disk, t.disk, target, now);
  }

  lemma SkipAlone(s: State, p: Pid, pr: Process, c: Choice)
    requires pr.phase.Ready? && pr.Instruction().AdvanceFrom? && pr.team.Some? && pr.team.value.stage !in pr.Instruction().from
    ensures Reaches(Put(s, p, pr), p, c, Put(s, p, pr.Then()))
  {
    hide Code, Reaches;
    PutTwice(s, p, pr, pr.Then());
    OneMove(s, p, pr, c, s, pr.Then());
  }

  lemma {:induction false} ReconcilerRuns(s: State, p: Pid, pr: Process, c: Choice, ip: nat) returns (t: State, last: Process)
    requires ReconcilerAt(s, pr, c, ip) && ip <= 19
    ensures ReconcilerAt(t, last, c, 19) && Reaches(Put(s, p, pr), p, c, Put(t, p, last))
    decreases 19 - ip
  {
    hide ReconcilerAt, Reaches, Put;
    if ip == 19 {
      t, last := s, pr;
      ReachesItself(Put(s, p, pr), p, c);
    } else {
      var s1, pr1;
      if ip == 1 {
        s1, pr1 := ReconcilerReads(s, p, pr, c);
      } else if ip in {6, 11, 14, 16} {
        s1, pr1 := ReconcilerReceives(s, p, pr, c, ip);
      } else if ip in {7, 9, 12, 15, 17} {
        s1, pr1 := ReconcilerAdvances(s, p, pr, c, ip);
      } else {
        s1, pr1 := ReconcilerMoves(s, p, pr, c, ip);
      }
      t, last := ReconcilerRuns(s1, p, pr1, c, ip + 1);
      ReachesOn(Put(s, p, pr), p, c, Put(s1, p, pr1), Put(t, p, last));
    }
  }

  /**
   Whatever was interrupted, and however often: a reconciler that runs alone on a reconcilable team
   completes it, with the artifact installed, every receipt written and the parent merged once.
   */
  lemma LoneReconcilerCompletes(s: State, p: Pid, binding: Binding, c: Choice) returns (t: State)
    requires Inv(Put(s, p, Fresh(Reconciler, binding))) && s.operationLock.None? && s.stateLock.None?
    requires Reconcilable(s, c.body, c.now)
    ensures Reaches(Put(s, p, Fresh(Reconciler, binding)), p, c, t) && Inv(t)
    ensures t.disk.current.Some? && t.disk.current.value.stage == Complete
    ensures t.artifact == Some(c.body) && t.merges == [c.body] && HasReceipts(t.ledger, Needs(Complete), c.body)
  {
    var start := Put(s, p, Fresh(Reconciler, binding));
    StartsReconciling(s, p, binding, c);
    hide Inv, Reaches, Reconcilable, ReconcilerAt, Put;
    var u, last := ReconcilerRuns(s, p, Fresh(Reconciler, binding), c, 0);
    t := Put(u, p, last);
    ReachedInv(start, p, c, t);
    EndsComplete(u, p, last, c);
  }

  lemma StartsReconciling(s: State, p: Pid, binding: Binding, c: Choice)
    requires Inv(Put(s, p, Fresh(Reconciler, binding))) && s.operationLock.None? && s.stateLock.None?
    requires Reconcilable(s, c.body, c.now)
    ensures ReconcilerAt(s, Fresh(Reconciler, binding), c, 0)
  {
    ChainOfShared(Put(s, p, Fresh(Reconciler, binding)));
    hide ChainOk, SharedOk, ProcessOk;
  }

  lemma EndsComplete(u: State, p: Pid, last: Process, c: Choice)
    requires Inv(Put(u, p, last)) && ReconcilerAt(u, last, c, 19)
    ensures u.disk.current.Some? && u.disk.current.value.stage == Complete
    ensures u.artifact == Some(c.body) && u.merges == [c.body] && HasReceipts(u.ledger, Needs(Complete), c.body)
  {
    hide ChainOk, ProcessOk, ReceiptsOk, StageEventsOk;
    assert StageBacked(u.ledger, u.artifact, Complete);
    assert ReceiptEvent(EvidenceMerged, c.body) in u.ledger;
  }

  // ---- The canceller -------------------------------------------------------------------------------------

  lemma LocksAndLoads(s: State, p: Pid, pr: Process, c: Choice)
    requires pr.role in {Canceller, Executor} && pr.ip == 0 && pr.phase.Ready? && s.operationLock.None?
    requires ChainOk(s.disk) && s.disk.current.Some?
    ensures Reaches(Put(s, p, pr), p, c, Put(s.(operationLock := Some(p)), p, pr.(ip := 2, team := s.disk.current)))
  {
    hide Reaches, ChainOk;
    var s1, pr1 := s.(operationLock := Some(p)), pr.(ip := 1);
    PutTwice(s, p, pr, pr1);
    OneMove(s, p, pr, c, s1, pr1);
    LoadAlone(s1, p, pr1, c);
    ReachesOn(Put(s, p, pr), p, c, Put(s1, p, pr1), Put(s1, p, pr.(ip := 2, team := s.disk.current)));
  }

  lemma CancellerStarts(s: State, p: Pid, pr: Process, c: Choice)
    requires pr.role == Canceller && pr.ip == 0 && pr.phase.Ready? && s.operationLock.None?
    requires ChainOk(s.disk) && s.disk.current.Some? && !s.disk.current.value.stage.IsTerminal()
    ensures var team := s.disk.current.value;
            Reaches(Put(s, p, pr), p, c,
                    Put(s.(operationLock := Some(p), disk := s.disk.(marker := Some(MarkerFor(team)))), p, pr.(ip := 4, team := Some(team))))
  {
    hide Reaches, ChainOk, MarkerFor;
    var team := s.disk.current.value;
    LocksAndLoads(s, p, pr, c);
    var s1, pr2 := s.(operationLock := Some(p)), pr.(ip := 2, team := Some(team));
    if s.disk.marker.Some? {
      MarkerIsOurs(s.disk);
    }
    CancellerMarks(s1, p, pr2, team, c);
    ReachesOn(Put(s, p, pr), p, c, Put(s1, p, pr2),
              Put(s1.(disk := s.disk.(marker := Some(MarkerFor(team)))), p, pr2.(ip := 4)));
  }

  lemma OpenIsActive(stage: Stage)
    requires !stage.IsTerminal()
    ensures stage in ACTIVE
  {
    match stage {
      case Plan =>
      case Dispatch =>
      case Execute =>
      case Review =>
      case Verify =>
      case Merge =>
      case Report =>
    }
  }

  lemma CancellerMarks(s: State, p: Pid, pr: Process, team: Record, c: Choice)
    requires pr.role == Canceller && pr.ip == 2 && pr.phase.Ready? && pr.team == Some(team) && !team.stage.IsTerminal()
    requires s.disk.marker.Some? ==> s.disk.marker.value == MarkerFor(team)
    ensures Reaches(Put(s, p, pr), p, c, Put(s.(disk := s.disk.(marker := Some(MarkerFor(team)))), p, pr.(ip := 4)))
  {
    hide Reaches;
    OpenIsActive(team.stage);
    assert pr.Instruction() == RequireStage(ACTIVE);
    var pr3 := pr.Then();
    PutTwice(s, p, pr, pr3);
    OneMove(s, p, pr, c, s, pr3);
    var s4, pr4 := s.(disk := s.disk.(marker := Some(MarkerFor(team)))), pr.(ip := 4);
    PutTwice(s, p, pr3, pr4);
    OneMove(s, p, pr3, c, s4, pr4);
    ReachesOn(Put(s, p, pr), p, c, Put(s, p, pr3), Put(s4, p, pr4));
  }

  lemma MarkerIsOurs(disk: Disk)
    requires ChainOk(disk) && disk.marker.Some?
    ensures disk.current.Some? && disk.marker.value == MarkerFor(disk.current.value)
  {}

  /** A canceller that runs alone on a cancellable team leaves its marker and cancels it. */
  lemma LoneCancellerCancels(s: State, p: Pid, binding: Binding, c: Choice) returns (t: State)
    requires ChainOk(s.disk) && s.operationLock.None? && s.stateLock.None?
    requires Cancellable(s.disk, c.now) && s.disk.current.value.stage != Cancelled
    ensures Reaches(Put(s, p, Fresh(Canceller, binding)), p, c, t)
    ensures t.disk.current.Some? && t.disk.current.value.stage == Cancelled && HasStageEvent(t.ledger, Cancelled)
    ensures var b := s.disk.current.value.binding; t.disk.marker == Some(Marker(b.teamId, b.manifestHash, b.parentWorkflowId))
  {
    var pr, team := Fresh(Canceller, binding), s.disk.current.value;
    CancellerStarts(s, p, pr, c);
    var s4, pr4 := s.(operationLock := Some(p), disk := s.disk.(marker := Some(MarkerFor(team)))), pr.(ip := 4, team := Some(team));
    MarkerStays(s.disk, team);
    CancelExactly(s.disk, s4.disk, c.now);
    hide Reaches, ChainOk, Cancellable, Advanceable, Moved, Extends;
    var u := AdvanceAlone(s4, p, pr4, Cancelled, c);
    t := Put(u, p, pr4.Then().(team := u.disk.current));
    ReachesOn(Put(s, p, pr), p, c, Put(s4, p, pr4), t);
    MovedReads(s4, u, Cancelled);
  }

  lemma MarkerStays(disk: Disk, team: Record)
    requires ChainOk(disk) && disk.current == Some(team)
    ensures ChainOk(disk.(marker := Some(MarkerFor(team))))
  {
    CurrentSeen(disk);
    MarkerChain(disk, team);
  }

  lemma MovedReads(s: State, t: State, target: Stage)
    requires Moved(s, t, target)
    ensures t.disk.current.Some? && t.disk.current.value.stage == target && t.disk.marker == s.disk.marker && ChainOk(t.disk)
    ensures t == s.(disk := t.disk, ledger := t.ledger) && HasStageEvent(t.ledger, target)
  {
    hide Extends, ChainOk;
  }

  // ---- The executor --------------------------------------------------------------------------------------

  /** What a start asks of the files: a planned team to dispatch, a dispatched one to execute, or one that executes. */
  predicate Startable(disk: Disk, c: Choice) {
    && disk.current.Some? && disk.marker.None?
    && match disk.current.value.stage
       case Plan => Advanceable(disk, Dispatch, Some(c.lanes), Some(c.mode), c.now)
       case Dispatch => Advanceable(disk, Execute, None, None, c.now)
       case Execute => true
       case _ => false
  }

  lemma ExecutorEnters(s: State, p: Pid, pr: Process, c: Choice)
    requires pr == Fresh(Executor, pr.binding) && s.operationLock.None? && ChainOk(s.disk) && Startable(s.disk, c)
    ensures Reaches(Put(s, p, pr), p, c,
                    Put(s.(operationLock := Some(p)), p, pr.(ip := 5, team := s.disk.current, lanes := c.lanes, mode := c.mode)))
  {
    hide Reaches, ChainOk, Advanceable;
    LocksAndLoads(s, p, pr, c);
    var s1, pr2 := s.(operationLock := Some(p)), pr.(ip := 2, team := s.disk.current);
    var pr3 := pr2.(ip := 3);
    PutTwice(s1, p, pr2, pr3);
    OneMove(s1, p, pr2, c, s1, pr3);
    ReachesOn(Put(s, p, pr), p, c, Put(s1, p, pr2), Put(s1, p, pr3));
    var pr4 := pr2.(ip := 4);
    PutTwice(s1, p, pr3, pr4);
    OneMove(s1, p, pr3, c, s1, pr4);
    ReachesOn(Put(s, p, pr), p, c, Put(s1, p, pr3), Put(s1, p, pr4));
    var pr5 := pr2.(ip := 5, lanes := c.lanes, mode := c.mode);
    PutTwice(s1, p, pr4, pr5);
    OneMove(s1, p, pr4, c, s1, pr5);
    ReachesOn(Put(s, p, pr), p, c, Put(s1, p, pr4), Put(s1, p, pr5));
  }

  /** The dispatch, where it has not happened: the lanes and the mode of the admission are what is recorded. */
  lemma ExecutorDispatches(s: State, p: Pid, pr: Process, c: Choice) returns (t: State)
    requires pr.role == Executor && pr.ip == 5 && pr.phase.Ready? && pr.team == s.disk.current
    requires pr.lanes == c.lanes && pr.mode == c.mode
    requires s.stateLock.None? && ChainOk(s.disk) && Startable(s.disk, c)
    ensures Reaches(Put(s, p, pr), p, c, Put(t, p, pr.(ip := 6, team := t.disk.current)))
    ensures t == s.(disk := t.disk, ledger := t.ledger) && ChainOk(t.disk) && Startable(t.disk, c)
    ensures t.disk.current.value.stage in {Dispatch, Execute}
    ensures s.disk.current.value.stage == Plan ==>
              t.disk.current.value.admittedLanes == c.lanes && t.disk.current.value.executionMode == c.mode
  {
    if s.disk.current.value.stage == Plan {
      hide Reaches, ChainOk, Advanceable, Moved, Extends;
      t := AdvanceAlone(s, p, pr, Dispatch, c);
      assert pr.Then().(team := t.disk.current) == pr.(ip := 6, team := t.disk.current);
      MovedReads(s, t, Dispatch);
      DispatchRecorded(s, t, c);
    } else {
      t := s;
      SkipAlone(s, p, pr, c);
    }
  }

  lemma DispatchRecorded(s: State, t: State, c: Choice)
    requires ChainOk(s.disk) && s.disk.current.Some? && s.disk.current.value.stage == Plan
    requires Moved(s, t, Dispatch) && t.disk.marker.None?
    requires Advanceable(s.disk, Dispatch, Some(c.lanes), Some(c.mode), c.now)
    ensures Startable(t.disk, c)
  {
    DispatchExactly(s.disk, Some(c.lanes), Some(c.mode), c.now);
    assert s.disk.current.value.revision + 2 !in s.disk.snapshots;
    hide Advanceable, ChainOk;
    AdvanceExactly(t.disk, Execute, c.now);
  }

  lemma ExecutorExecutes(s: State, p: Pid, pr: Process, c: Choice) returns (t: State)
    requires pr.role == Executor && pr.ip == 6 && pr.phase.Ready? && pr.team == s.disk.current && c.proceed
    requires s.operationLock == Some(p) && s.stateLock.None? && ChainOk(s.disk) && Startable(s.disk, c)
    requires s.disk.current.value.stage in {Dispatch, Execute}
    ensures Reaches(Put(s, p, pr), p, c, Put(t, p, pr.(ip := 12, team := t.disk.current)))
    ensures t.disk.current.Some? && t.disk.current.value.stage == Execute && t.operationLock.None? && t.disk.marker.None?
    ensures t.disk.current.value.admittedLanes == s.disk.current.value.admittedLanes
    ensures t.disk.current.value.executionMode == s.disk.current.value.executionMode
  {
    hide Reaches, ChainOk, Advanceable, Moved, Extends;
    var pr7 := pr.(ip := 7);
    PutTwice(s, p, pr, pr7);
    OneMove(s, p, pr, c, s, pr7);
    var u;
    if s.disk.current.value.stage == Dispatch {
      u := AdvanceAlone(s, p, pr7, Execute, c);
      MovedReads(s, u, Execute);
    } else {
      u := s;
      SkipAlone(s, p, pr7, c);
    }
    var pr8 := pr.(ip := 8, team := u.disk.current);
    ReachesOn(Put(s, p, pr), p, c, Put(s, p, pr7), Put(u, p, pr8));
    t := u.(operationLock := None);
    ExecutorWorks(u, p, pr8, c);
    ReachesOn(Put(s, p, pr), p, c, Put(u, p, pr8), Put(t, p, pr.(ip := 12, team := u.disk.current)));
  }

  lemma ExecutorWorks(u: State, p: Pid, pr: Process, c: Choice)
    requires pr.role == Executor && pr.ip == 8 && pr.phase.Ready? && u.operationLock == Some(p) && c.proceed
    ensures Reaches(Put(u, p, pr), p, c, Put(u.(operationLock := None), p, pr.(ip := 12)))
  {
    hide Reaches;
    var t, pr9, pr12 := u.(operationLock := None), pr.(ip := 9), pr.(ip := 12);
    PutTwice(u, p, pr, pr9);
    OneMove(u, p, pr, c, t, pr9);
    PutTwice(t, p, pr9, pr12);
    OneMove(t, p, pr9, c, t, pr12);
    ReachesOn(Put(u, p, pr), p, c, Put(t, p, pr9), Put(t, p, pr12));
  }

  /**
   An executor that runs alone on a startable team, with workers that succeed, brings it to Execute and
   lets the operation go; a team it dispatches itself carries the lanes and the mode of its admission.
   */
  lemma LoneExecutorExecutes(s: State, p: Pid, binding: Binding, c: Choice) returns (t: State)
    requires ChainOk(s.disk) && s.operationLock.None? && s.stateLock.None? && Startable(s.disk, c) && c.proceed
    ensures Reaches(Put(s, p, Fresh(Executor, binding)), p, c, t)
    ensures t.disk.current.Some? && t.disk.current.value.stage == Execute && t.operationLock.None?
    ensures s.disk.current.value.stage == Plan ==>
              t.disk.current.value.admittedLanes == c.lanes && t.disk.current.value.executionMode == c.mode
  {
    hide Reaches, ChainOk, Startable;
    var pr := Fresh(Executor, binding);
    StartableHasTeam(s.disk, c);
    ExecutorEnters(s, p, pr, c);
    var s5, pr5 := s.(operationLock := Some(p)), pr.(ip := 5, team := s.disk.current, lanes := c.lanes, mode := c.mode);
    var s6 := ExecutorDispatches(s5, p, pr5, c);
    var pr6 := pr5.(ip := 6, team := s6.disk.current);
    ReachesOn(Put(s, p, pr), p, c, Put(s5, p, pr5), Put(s6, p, pr6));
    var u := ExecutorExecutes(s6, p, pr6, c);
    t := Put(u, p, pr6.(ip := 12, team := u.disk.current));
    ReachesOn(Put(s, p, pr), p, c, Put(s6, p, pr6), t);
  }

  lemma StartableHasTeam(disk: Disk, c: Choice)
    requires Startable(disk, c)
    ensures disk.current.Some?
  {}

  /** Both ways in which an executor fails a team: read it again, and advance it to Failed. */
  lemma ExecutorFails(s: State, p: Pid, pr: Process, c: Choice) returns (t: State)
    requires pr.role == Executor && pr.ip in {10, 13} && pr.phase.Ready?
    requires s.stateLock.None? && ChainOk(s.disk) && s.disk.current.Some? && s.disk.current.value.stage in ACTIVE
    requires Advanceable(s.disk, Failed, None, None, c.now)
    ensures Reaches(Put(s, p, pr), p, c, t) && t.disk.current.Some? && t.disk.current.value.stage == Failed
    ensures HasStageEvent(t.ledger, Failed)
  {
    hide Reaches, ChainOk, Advanceable, Moved, Extends;
    var next := pr.(ip := pr.ip + 1, team := s.disk.current);
    LoadAlone(s, p, pr, c);
    var u := AdvanceAlone(s, p, next, Failed, c);
    t := Put(u, p, next.Then().(team := u.disk.current));
    ReachesOn(Put(s, p, pr), p, c, Put(s, p, next), t);
    MovedReads(s, u, Failed);
  }

  /** When recovery refuses, the team fails. */
  lemma InterruptedExecutorFails(s: State, p: Pid, pr: Process, c: Choice) returns (t: State)
    requires pr.role == Executor && pr.ip == 6 && pr.phase.Ready? && !c.proceed
    requires s.stateLock.None? && ChainOk(s.disk) && s.disk.current.Some? && s.disk.current.value.stage in ACTIVE
    requires Advanceable(s.disk, Failed, None, None, c.now)
    ensures Reaches(Put(s, p, pr), p, c, t) && t.disk.current.Some? && t.disk.current.value.stage == Failed
    ensures HasStageEvent(t.ledger, Failed)
  {
    hide Reaches, ChainOk, Advanceable, HasStageEvent;
    var next := pr.(ip := 13);
    PutTwice(s, p, pr, next);
    OneMove(s, p, pr, c, s, next);
    t := ExecutorFails(s, p, next, c);
    ReachesOn(Put(s, p, pr), p, c, Put(s, p, next), t);
  }

  /** When a worker fails, after the operation lock was given back, the team fails as well. */
  lemma FailedWorkersFail(s: State, p: Pid, pr: Process, c: Choice) returns (t: State)
    requires pr.role == Executor && pr.ip == 9 && pr.phase.Ready? && !c.proceed
    requires s.stateLock.None? && ChainOk(s.disk) && s.disk.current.Some? && s.disk.current.value.stage in ACTIVE
    requires Advanceable(s.disk, Failed, None, None, c.now)
    ensures Reaches(Put(s, p, pr), p, c, t) && t.disk.current.Some? && t.disk.current.value.stage == Failed
    ensures HasStageEvent(t.ledger, Failed)
  {
    hide Reaches, ChainOk, Advanceable, HasStageEvent;
    var next := pr.(ip := 10);
    PutTwice(s, p, pr, next);
    OneMove(s, p, pr, c, s, next);
    t := ExecutorFails(s, p, next, c);
    ReachesOn(Put(s, p, pr), p, c, Put(s, p, next), t);
  }

  // ---- The planner ---------------------------------------------------------------------------------------

  /** A planner that runs alone on an empty store creates the team of its binding, and announces it. */
  lemma LonePlannerPlans(s: State, p: Pid, binding: Binding, c: Choice) returns (t: State)
    requires s.disk == Disk(None, map[], None) && s.stateLock.None? && SoundBinding(binding)
    ensures Reaches(Put(s, p, Fresh(Planner, binding)), p, c, t)
    ensures t.disk.current.Some? && t.disk.current.value.stage == Plan && t.disk.current.value.binding == binding
    ensures s.ledger <= t.ledger && HasStageEvent(t.ledger, Plan) && LoadState(t.disk) == Success(t.disk.current.value)
  {
    var pr, next := Fresh(Planner, binding), NewRecord(binding);
    CreateExactly(s.disk, binding);
    CreatedLoads(s.disk, binding);
    hide Reaches, PrepareCheckpoint, SoundBinding, LoadState;
    var pr1 := pr.(phase := AwaitingLock(next, 0));
    PutTwice(s, p, pr, pr1);
    OneMove(s, p, pr, c, s, pr1);
    var u := CheckpointAlone(s, p, pr1, next, c);
    ReachesOn(Put(s, p, pr), p, c, Put(s, p, pr1), u);
    var record := PrepareCheckpoint(s.disk, next, 0).value;
    var s2, pr2 := s.(disk := s.disk.(snapshots := s.disk.snapshots[1 := record], current := Some(record))),
                   pr1.(phase := Announcing(record));
    var ledger := AnnounceAlone(s2, p, pr2, record, c);
    t := Put(s2.(ledger := ledger), p, pr2.Jump(PLANNED).(team := Some(record)));
    ReachesOn(Put(s, p, pr), p, c, Put(s2, p, pr2), t);
  }

  /** On a planned team it changes nothing but announces it, if nobody has. */
  lemma LonePlannerResumes(s: State, p: Pid, binding: Binding, c: Choice) returns (t: State)
    requires ChainOk(s.disk) && s.disk.current.Some? && s.disk.current.value.stage == Plan
    ensures Reaches(Put(s, p, Fresh(Planner, binding)), p, c, t)
    ensures t.disk == s.disk && s.ledger <= t.ledger && HasStageEvent(t.ledger, Plan)
    ensures p in t.procs && t.procs[p].Instruction() == Return
  {
    hide Reaches, ChainOk, HasStageEvent;
    var pr, team := Fresh(Planner, binding), s.disk.current.value;
    var pr1, pr2 := pr.(ip := 1), pr.(ip := 2, team := Some(team));
    PutTwice(s, p, pr, pr1);
    OneMove(s, p, pr, c, s, pr1);
    LoadAlone(s, p, pr1, c);
    ReachesOn(Put(s, p, pr), p, c, Put(s, p, pr1), Put(s, p, pr2));
    var pr4 := PlannerTells(s, p, pr2, team, c);
    ReachesOn(Put(s, p, pr), p, c, Put(s, p, pr2), Put(s, p, pr4));
    var ledger := AnnounceAlone(s, p, pr4, team, c);
    t := Put(s.(ledger := ledger), p, pr.(ip := 4, team := Some(team)));
    ReachesOn(Put(s, p, pr), p, c, Put(s, p, pr4), t);
  }

  lemma PlannerTells(s: State, p: Pid, pr: Process, team: Record, c: Choice) returns (next: Process)
    requires pr.role == Planner && pr.ip == 2 && pr.phase.Ready? && pr.team == Some(team) && team.stage == Plan
    ensures next == pr.(ip := 3, phase := Announcing(team)) && Reaches(Put(s, p, pr), p, c, Put(s, p, next))
  {
    hide Reaches;
    var pr3 := pr.(ip := 3);
    next := pr3.(phase := Announcing(team));
    PutTwice(s, p, pr, pr3);
    OneMove(s, p, pr, c, s, pr3);
    PutTwice(s, p, pr3, next);
    OneMove(s, p, pr3, c, s, next);
    ReachesOn(Put(s, p, pr), p, c, Put(s, p, pr3), Put(s, p, next));
  }

  lemma CreatedLoads(disk: Disk, binding: Binding)
    requires disk == Disk(None, map[], None) && PrepareCheckpoint(disk, NewRecord(binding), 0).Success?
    ensures var record := PrepareCheckpoint(disk, NewRecord(binding), 0).value;
            && record.revision == 1 && Installable(disk, NewRecord(binding), 0)
            && LoadState(Disk(Some(record), disk.snapshots[1 := record], None)) == Success(record)
  {
    var record := PrepareCheckpoint(disk, NewRecord(binding), 0).value;
    PreparedExtends(disk, NewRecord(binding), 0);
    hide ValidRecord;
    assert Link(map[1 := record], record, 1);
  }
}
