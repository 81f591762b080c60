/** The inductive invariant of the team protocol: it holds initially and every step keeps it. */
module TeamInvariant {
  import opened Wrappers
  import opened TeamState
  import opened TeamProtocol

  predicate HoldsOperation(pr: Process) {
    match pr.role
    case Planner => false
    case Executor => 1 <= pr.ip <= 8 || INTERRUPTED <= pr.ip
    case Canceller => 1 <= pr.ip
    case Reconciler => 1 <= pr.ip
  }

  predicate HoldsState(phase: Phase) {
    phase.Locked? || phase.Prepared? || phase.Snapshotted? || phase.Replaced?
  }

  /** The process looked for the cancel marker under the operation lock it still holds. */
  predicate PastMarkerCheck(pr: Process) {
    match pr.role
    case Executor => 4 <= pr.ip <= 8 || INTERRUPTED <= pr.ip
    case Reconciler => 4 <= pr.ip
    case _ => false
  }

  /** The receipts a stage cannot be reached without. */
  function Needs(stage: Stage): set<Receipt> {
    match stage
    case Review | Verify => {Reconciled}
    case Merge => {Reconciled, EvidenceMerged}
    case Report => {Reconciled, EvidenceMerged, StopGatePassed}
    case Complete => {Reconciled, EvidenceMerged, StopGatePassed, ReportCompleted}
    case _ => {}
  }

  /** The receipts a reconciler has put on the ledger before it reaches an instruction. */
  function Written(ip: nat): set<Receipt> {
    (if ip > 6 then {Reconciled} else {}) + (if ip > 11 then {EvidenceMerged} else {})
    + (if ip > 14 then {StopGatePassed} else {}) + (if ip > 16 then {ReportCompleted} else {})
  }

  /** The receipt that must already be on the ledger before this one is written. */
  function Prior(kind: Receipt): set<Receipt> {
    match kind
    case Reconciled => {}
    case EvidenceMerged => {Reconciled}
    case StopGatePassed => {Reconciled, EvidenceMerged}
    case ReportCompleted => {Reconciled, EvidenceMerged, StopGatePassed}
  }

  ghost predicate HasReceipts(ledger: seq<Event>, kinds: set<Receipt>, body: Body) {
    forall kind | kind in kinds :: ReceiptEvent(kind, body) in ledger
  }

  /** A record that was current once: snapshots never forget it. */
  predicate Seen(disk: Disk, r: Record) {
    && disk.current.Some? && r.revision <= disk.current.value.revision
    && r.revision in disk.snapshots && disk.snapshots[r.revision] == r
    && r.binding == disk.current.value.binding
  }

  predicate Advancing(pr: Process, stage: Stage) {
    match pr.Instruction()
      case AdvanceFrom(_, target) => stage == target
      case CreateTeam => stage == Plan
      case _ => false
  }

  ghost predicate PhaseOk(disk: Disk, ledger: seq<Event>, pr: Process) {
    match pr.phase
    case Ready => true
    case Loading(before) => (pr.Instruction().LoadTeam? || pr.Instruction().AdvanceFrom?)
    case AwaitingLock(next, expected) => Advancing(pr, next.stage) && (expected == 0 ==> next.stage == Plan)
    case Locked(next, expected) => Advancing(pr, next.stage) && (expected == 0 ==> next.stage == Plan)
    case Prepared(record) =>
      Advancing(pr, record.stage) && Extends(disk, record) && (disk.current.None? ==> record.stage == Plan)
    case Snapshotted(record) =>
      && Advancing(pr, record.stage) && Extends(disk, record) && (disk.current.None? ==> record.stage == Plan)
      && record.revision in disk.snapshots && disk.snapshots[record.revision] == record
    case Replaced(record) => Advancing(pr, record.stage) && disk.current == Some(record)
    case Announcing(record) => Announceable(pr) && Seen(disk, record)
    case AnnounceMissing(record) => Announceable(pr) && Seen(disk, record)
    case ReceiptMissing =>
      && pr.role == Reconciler && pr.Instruction().AppendReceipt?
      && pr.body.Some? && ReceiptEvent(pr.Instruction().kind, pr.body.value) !in ledger
  }

  predicate Announceable(pr: Process) {
    (pr.Instruction().AdvanceFrom? || pr.Instruction().CreateTeam? || pr.Instruction().AnnounceTeam?)
  }

  ghost predicate ProcessOk(s: State, p: Pid, pr: Process) {
    && (HoldsOperation(pr) <==> s.operationLock == Some(p))
    && (HoldsState(pr.phase) <==> s.stateLock == Some(p))
    && (PastMarkerCheck(pr) ==> s.disk.marker.None?)
    && (pr.team.Some? ==> Seen(s.disk, pr.team.value))
    && (pr.role == Reconciler && pr.ip > 4 ==> pr.body.Some?)
    && (pr.role == Reconciler && pr.ip > 5 ==> s.artifact == pr.body && HasReceipts(s.ledger, Written(pr.ip), pr.body.value))
    && (pr.role == Reconciler && pr.ip > 10 ==> s.merges == [pr.body.value])
    && PhaseOk(s.disk, s.ledger, pr)
  }

  ghost predicate SharedOk(s: State) {
    && ChainOk(s.disk)
    && (s.operationLock.Some? ==> s.operationLock.value in s.procs)
    && (s.stateLock.Some? ==> s.stateLock.value in s.procs)
    && ReceiptsOk(s.ledger, s.artifact)
    && ParentOk(s.parent, s.merges, s.ledger)
    && StageEventsOk(s.ledger, s.disk)
    && (s.disk.current.Some? ==> StageBacked(s.ledger, s.artifact, s.disk.current.value.stage))
  }

  ghost predicate StageBacked(ledger: seq<Event>, artifact: Option<Body>, stage: Stage) {
    Needs(stage) != {} ==> artifact.Some? && HasReceipts(ledger, Needs(stage), artifact.value)
  }

  /** Every receipt names the one installed artifact, follows its predecessors and occurs once. */
  ghost predicate ReceiptsOk(ledger: seq<Event>, artifact: Option<Body>) {
    && (forall e | e in ledger :: e.ReceiptEvent? ==>
          artifact == Some(e.body) && HasReceipts(ledger, Prior(e.kind), e.body))
    && (forall i, j | 0 <= i < j < |ledger| :: ledger[i].ReceiptEvent? ==> ledger[i] != ledger[j])
  }

  /** The parent receives the evidence of one artifact at most once, before any receipt says so. */
  ghost predicate ParentOk(parent: Parent, merges: seq<Body>, ledger: seq<Event>) {
    && (parent.Planned? ==> merges == [])
    && (parent.Merged? ==> merges == [parent.body])
    && |merges| <= 1
    && (forall e | e in ledger :: e.ReceiptEvent? && e.kind == EvidenceMerged ==> merges == [e.body])
  }

  ghost predicate StageEventsOk(ledger: seq<Event>, disk: Disk) {
    forall e | e in ledger :: e.StageEvent? ==>
      && 1 <= e.revision <= CurrentRevision(disk)
      && e.revision in disk.snapshots && disk.snapshots[e.revision].stage == e.stage
  }

  ghost predicate Inv(s: State) {
    && SharedOk(s)
    && forall p | p in s.procs :: ProcessOk(s, p, s.procs[p])
  }

  lemma InitInv(s: State)
    requires Init(s)
    ensures Inv(s)
  {}

  /** What one process may do to the shared state under another process's nose. */
  ghost predicate Unnoticed(s: State, s': State, q: Pid) {
    && (s.operationLock == Some(q) <==> s'.operationLock == Some(q))
    && (s.stateLock == Some(q) <==> s'.stateLock == Some(q))
    && s.ledger <= s'.ledger
    && (s.disk.current.Some? ==> (
          && s'.disk.current.Some?
          && s.disk.current.value.revision <= s'.disk.current.value.revision
          && s.disk.current.value.binding == s'.disk.current.value.binding))
    && (forall r | r in s.disk.snapshots :: r in s'.disk.snapshots && s'.disk.snapshots[r] == s.disk.snapshots[r])
    && (s.stateLock == Some(q) ==> s.disk.current == s'.disk.current && s.disk.snapshots == s'.disk.snapshots)
    && (s.operationLock == Some(q) ==>
          && s.disk.marker == s'.disk.marker && s.artifact == s'.artifact && s.merges == s'.merges
          && forall e | e in s'.ledger :: e.ReceiptEvent? ==> e in s.ledger)
  }

  lemma UnnoticedKeeps(s: State, s': State, q: Pid, pr: Process)
    requires ProcessOk(s, q, pr) && Unnoticed(s, s', q)
    ensures ProcessOk(s', q, pr)
  {
    if pr.role == Reconciler && pr.ip > 5 {
      forall kind | kind in Written(pr.ip) ensures ReceiptEvent(kind, pr.body.value) in s'.ledger {
        assert ReceiptEvent(kind, pr.body.value) in s.ledger;
      }
    }
  }

  /** A step of p that keeps the shared invariant, leaves p in order and disturbs no one. */
  ghost predicate Clean(s: State, s': State, p: Pid) {
    && p in s'.procs && s'.procs == s.procs[p := s'.procs[p]]
    && SharedOk(s') && ProcessOk(s', p, s'.procs[p])
    && forall q | q in s.procs && q != p :: Unnoticed(s, s', q)
  }

  lemma CleanKeepsInv(s: State, s': State, p: Pid)
    requires Inv(s) && Clean(s, s', p)
    ensures Inv(s')
  {
    forall q | q in s'.procs ensures ProcessOk(s', q, s'.procs[q]) {
      if q != p {
        UnnoticedKeeps(s, s', q, s.procs[q]);
      }
    }
  }

  lemma StartKeeps(s: State, p: Pid, role: Role, binding: Binding)
    requires Inv(s) && Next(s, Start(p, role, binding)).Some?
    ensures Inv(Next(s, Start(p, role, binding)).value)
  {
    hide ChainOk, ReceiptsOk, ParentOk, StageEventsOk, StageBacked, HasReceipts, Extends;
    var s' := Next(s, Start(p, role, binding)).value;
    assert Clean(s, s', p);
    CleanKeepsInv(s, s', p);
  }

  lemma StopKeeps(s: State, p: Pid)
    requires Inv(s) && p in s.procs
    ensures Inv(Released(s, p))
  {
    hide ChainOk, ReceiptsOk, ParentOk, StageEventsOk, StageBacked, HasReceipts, PhaseOk, Seen;
    var s' := Released(s, p);
    forall q | q in s'.procs ensures ProcessOk(s', q, s'.procs[q]) {
      assert Unnoticed(s, s', q);
      UnnoticedKeeps(s, s', q, s.procs[q]);
    }
  }

  lemma ParentMovesOnKeeps(s: State)
    requires Inv(s)
    ensures Inv(s.(parent := Foreign))
  {
    var s' := s.(parent := Foreign);
    forall q | q in s'.procs ensures ProcessOk(s', q, s'.procs[q]) {
      UnnoticedKeeps(s, s', q, s.procs[q]);
    }
  }

  /** A step that only changes the process itself. */
  lemma LocalMove(s: State, p: Pid, pr: Process)
    requires Inv(s) && p in s.procs && ProcessOk(s, p, pr)
    ensures Clean(s, Put(s, p, pr), p)
  {
    hide ChainOk, ReceiptsOk, ParentOk, StageEventsOk, StageBacked, HasReceipts, PhaseOk, Seen;
  }

  /** The operation lock changes hands only while no one else holds it. */
  lemma LockMove(s: State, p: Pid, c: Choice)
    requires Inv(s) && p in s.procs && s.procs[p].phase.Ready?
    requires s.procs[p].Instruction().LockOperation? || s.procs[p].Instruction().UnlockOperation?
    requires Begin(s, p, s.procs[p], c).Some?
    ensures Clean(s, Begin(s, p, s.procs[p], c).value, p)
  {
    hide ChainOk, ValidRecord, Extends, ReceiptsOk, ParentOk, StageEventsOk, StageBacked, Seen;
    var pr := s.procs[p];
    assert pr.Instruction().LockOperation? ==> pr.ip == 0;
    assert pr.Instruction().UnlockOperation? ==> pr.role == Executor && pr.ip == 8;
    var s' := Begin(s, p, pr, c).value;
    assert SharedOk(s');
    assert ProcessOk(s', p, pr.Then());
  }

  /** Going on to the next instruction costs nothing where the two share their obligations. */
  lemma ThenOk(s: State, p: Pid, pr: Process)
    requires ProcessOk(s, p, pr)
    requires var i := pr.Instruction();
             || i.LoadTeam? || i.RequireStage? || i.AdmitLanes? || i.RecoverWorkers? || i.RunWorkers?
             || i.AdvanceFrom? || i.VerifyArtifact? || i.AnnounceTeam? || i.CreateTeam?
             || (i.RequireNoMarker? && s.disk.marker.None?)
    requires !HoldsState(pr.phase)
    ensures ProcessOk(s, p, pr.Then())
  {
    hide ChainOk, ValidRecord, VerifyChain, Extends, Link;
    var pr' := pr.Then();
    assert HoldsOperation(pr') == HoldsOperation(pr);
    assert PastMarkerCheck(pr') ==> PastMarkerCheck(pr) || pr.Instruction().RequireNoMarker?;
    assert pr.role == Reconciler ==> pr.ip <= 18 && Written(pr'.ip) == Written(pr.ip);
  }

  /** Entering a phase of the same instruction changes only what the phase promises. */
  lemma EnterOk(s: State, p: Pid, pr: Process, phase: Phase)
    requires ProcessOk(s, p, pr) && HoldsState(pr.phase) == HoldsState(phase)
    requires PhaseOk(s.disk, s.ledger, pr.(phase := phase))
    ensures ProcessOk(s, p, pr.(phase := phase))
  {
    hide PhaseOk, Seen, HasReceipts;
  }

  lemma ReconcilerThen(s: State, p: Pid, pr: Process, body: Body)
    requires ProcessOk(s, p, pr) && pr.phase.Ready?
    requires pr.Instruction().CollectMembers? || (pr.Instruction().AppendReceipt? && pr.body == Some(body)
               && ReceiptEvent(pr.Instruction().kind, body) in s.ledger)
    ensures ProcessOk(s, p, pr.Then().(body := Some(body)))
  {
    hide ChainOk, ValidRecord, VerifyChain, Extends, Link;
    assert pr.role == Reconciler && pr.ip in {4, 6, 11, 14, 16};
    if pr.Instruction().AppendReceipt? {
      assert Written(pr.ip + 1) == Written(pr.ip) + {pr.Instruction().kind};
    }
  }

  lemma JumpOk(s: State, p: Pid, pr: Process, target: nat)
    requires ProcessOk(s, p, pr) && !HoldsState(pr.phase)
    requires || (pr.Instruction().RecoverWorkers? && target == INTERRUPTED)
             || (pr.Instruction().RunWorkers? && target == WORKERS_DONE)
    ensures ProcessOk(s, p, pr.Jump(target))
  {
    assert pr.role == Executor && pr.ip in {6, 9};
  }

  lemma LocalBegin(s: State, p: Pid, pr: Process, c: Choice)
    requires ProcessOk(s, p, pr) && pr.phase.Ready?
    requires var i := pr.Instruction();
             !i.LockOperation? && !i.UnlockOperation? && !i.WriteMarker? && !i.InstallArtifact? && !i.MergeParent?
    requires Begin(s, p, pr, c).Some?
    ensures p in Begin(s, p, pr, c).value.procs
    ensures var pr' := Begin(s, p, pr, c).value.procs[p];
            Begin(s, p, pr, c).value == Put(s, p, pr') && ProcessOk(s, p, pr')
  {
    hide ProcessOk, Seen, HasReceipts, HoldsOperation, PastMarkerCheck, Code, Extends;
    var s' := Begin(s, p, pr, c).value;
    match pr.Instruction()
    case CollectMembers => ReconcilerThen(s, p, pr, c.body);
    case AppendReceipt(kind) =>
      if ReceiptEvent(kind, pr.body.value) in s.ledger {
        ReconcilerThen(s, p, pr, pr.body.value);
        assert pr.Then().(body := Some(pr.body.value)) == pr.Then();
      } else {
        ReceiptIsReconciler(pr);
        EnterOk(s, p, pr, ReceiptMissing);
      }
    case LoadTeam => EnterOk(s, p, pr, Loading(s.disk.current.value));
    case AdvanceFrom(from, _) =>
      if pr.team.value.stage in from {
        EnterOk(s, p, pr, Loading(s.disk.current.value));
      } else {
        ThenOk(s, p, pr);
      }
    case CreateTeam =>
      if s.disk.current.Some? {
        ThenOk(s, p, pr);
      } else {
        EnterOk(s, p, pr, AwaitingLock(NewRecord(pr.binding), 0));
      }
    case AnnounceTeam =>
      TeamSeen(s, p, pr);
      EnterOk(s, p, pr, Announcing(pr.team.value));
    case AdmitLanes => AdmitOk(s, p, pr, c);
    case RecoverWorkers => if c.proceed { ThenOk(s, p, pr); } else { JumpOk(s, p, pr, INTERRUPTED); }
    case RunWorkers => if c.proceed { JumpOk(s, p, pr, WORKERS_DONE); } else { ThenOk(s, p, pr); }
    case _ => ThenOk(s, p, pr);
  }

  lemma ReceiptIsReconciler(pr: Process)
    requires pr.Instruction().AppendReceipt?
    ensures pr.role == Reconciler
  {}

  lemma TeamSeen(s: State, p: Pid, pr: Process)
    requires ProcessOk(s, p, pr) && pr.team.Some?
    ensures Seen(s.disk, pr.team.value)
  {}

  lemma AdmitOk(s: State, p: Pid, pr: Process, c: Choice)
    requires ProcessOk(s, p, pr) && pr.phase.Ready? && pr.Instruction().AdmitLanes?
    ensures ProcessOk(s, p, pr.Then().(lanes := c.lanes, mode := c.mode))
  {
    ThenOk(s, p, pr);
    hide Seen, HasReceipts;
  }

  lemma CurrentSeen(disk: Disk)
    requires ChainOk(disk) && disk.current.Some?
    ensures Seen(disk, disk.current.value) && 0 < disk.current.value.revision
  {
    assert Link(disk.snapshots, disk.current.value, disk.current.value.revision);
  }

  /** Whatever the operation holder does to marker, artifact, receipts and parent, no one else relied on it. */
  lemma UnderOperation(s: State, s': State, p: Pid)
    requires s.operationLock == Some(p) == s'.operationLock && s'.stateLock == s.stateLock
    requires s'.disk.current == s.disk.current && s'.disk.snapshots == s.disk.snapshots
    requires s.ledger <= s'.ledger
    ensures forall q | q in s.procs && q != p :: Unnoticed(s, s', q)
  {}

  /** The cancel marker is written under the operation lock and names the current team. */
  lemma MarkerMove(s: State, p: Pid, c: Choice)
    requires Inv(s) && p in s.procs && s.procs[p].phase.Ready? && s.procs[p].Instruction().WriteMarker?
    requires Begin(s, p, s.procs[p], c).Some?
    ensures Clean(s, Begin(s, p, s.procs[p], c).value, p)
  {
    hide ChainOk, ValidRecord, Extends, ReceiptsOk, ParentOk, StageEventsOk, StageBacked, HasReceipts, PhaseOk;
    var pr := s.procs[p];
    assert pr.role == Canceller && pr.ip == 3;
    var s' := Begin(s, p, pr, c).value;
    MarkerShared(s, p, pr, c);
    MarkerOwn(s, p, pr, c);
    assert s.operationLock == Some(p);
    hide SharedOk, ProcessOk, Inv, Unnoticed;
    UnderOperation(s, s', p);
  }

  lemma MarkerShared(s: State, p: Pid, pr: Process, c: Choice)
    requires SharedOk(s) && ProcessOk(s, p, pr) && p in s.procs && pr.phase.Ready? && pr.Instruction().WriteMarker?
    requires Begin(s, p, pr, c).Some?
    ensures SharedOk(Begin(s, p, pr, c).value)
  {
    hide ChainOk, ValidRecord, Extends, ReceiptsOk, ParentOk, StageBacked, HasReceipts, PhaseOk;
    MarkerChain(s.disk, pr.team.value);
    assert s.disk.current.Some?;
    hide ChainOk, ValidRecord, Extends, ReceiptsOk, ParentOk, StageBacked, HasReceipts, ProcessOk;
  }

  lemma MarkerOwn(s: State, p: Pid, pr: Process, c: Choice)
    requires ProcessOk(s, p, pr) && pr.phase.Ready? && pr.Instruction().WriteMarker?
    requires Begin(s, p, pr, c).Some?
    ensures var s' := Begin(s, p, pr, c).value; p in s'.procs && ProcessOk(s', p, s'.procs[p])
  {}

  lemma MarkerChain(disk: Disk, team: Record)
    requires ChainOk(disk) && Seen(disk, team)
    ensures ChainOk(disk.(marker := Some(MarkerFor(team))))
  {
    hide ValidRecord, Extends, Link, PathStep;
    if CurrentRevision(disk) + 1 in disk.snapshots {
      ExtendsIgnoresMarker(disk, disk.(marker := Some(MarkerFor(team))), disk.snapshots[CurrentRevision(disk) + 1]);
    }
  }

  lemma ExtendsIgnoresMarker(disk: Disk, disk': Disk, r: Record)
    requires Extends(disk, r) && disk'.current == disk.current
    ensures Extends(disk', r)
  {}

  /** The reconciliation artifact is written once, so every receipt keeps naming it. */
  lemma ArtifactMove(s: State, p: Pid, c: Choice)
    requires Inv(s) && p in s.procs && s.procs[p].phase.Ready? && s.procs[p].Instruction().InstallArtifact?
    requires Begin(s, p, s.procs[p], c).Some?
    ensures Clean(s, Begin(s, p, s.procs[p], c).value, p)
  {
    hide ChainOk, ValidRecord, Extends, ParentOk, StageEventsOk, HasReceipts, Seen;
    var pr := s.procs[p];
    assert pr.role == Reconciler && pr.ip == 5 && Written(6) == {};
    var s' := Begin(s, p, pr, c).value;
    assert SharedOk(s') by { hide ProcessOk; }
    assert HasReceipts(s'.ledger, Written(6), pr.body.value) by { NoReceipts(s'.ledger, pr.body.value); }
    assert ProcessOk(s', p, s'.procs[p]) by { hide SharedOk; }
    hide Unnoticed;
    UnderOperation(s, s', p);
  }

  lemma NoReceipts(ledger: seq<Event>, body: Body)
    ensures HasReceipts(ledger, {}, body)
  {}

  lemma MergeMove(s: State, p: Pid, c: Choice)
    requires Inv(s) && p in s.procs && s.procs[p].phase.Ready? && s.procs[p].Instruction().MergeParent?
    requires Begin(s, p, s.procs[p], c).Some?
    ensures Clean(s, Begin(s, p, s.procs[p], c).value, p)
  {
    hide SharedOk, ProcessOk, Unnoticed, Code;
    var pr := s.procs[p];
    MergeOwn(s, p, pr, c);
    MergedShared(s, p, pr, c);
    UnderOperation(s, Begin(s, p, pr, c).value, p);
  }

  lemma MergedShared(s: State, p: Pid, pr: Process, c: Choice)
    requires SharedOk(s) && p in s.procs && pr.phase.Ready? && pr.Instruction().MergeParent?
    requires Begin(s, p, pr, c).Some?
    ensures SharedOk(Begin(s, p, pr, c).value)
  {
    hide ChainOk, ValidRecord, Extends, ReceiptsOk, StageEventsOk, StageBacked, HasReceipts, Code;
  }

  lemma MergeOwn(s: State, p: Pid, pr: Process, c: Choice)
    requires SharedOk(s) && ProcessOk(s, p, pr) && pr.phase.Ready? && pr.Instruction().MergeParent?
    requires Begin(s, p, pr, c).Some?
    ensures s.operationLock == Some(p)
    ensures var s' := Begin(s, p, pr, c).value; p in s'.procs && ProcessOk(s', p, s'.procs[p])
  {
    hide ChainOk, ValidRecord, Extends, ReceiptsOk, StageEventsOk, StageBacked, HasReceipts, Seen;
    assert pr.role == Reconciler && pr.ip == 10 && Written(11) == Written(10);
    assert Begin(s, p, pr, c).value.merges == [pr.body.value];
    hide SharedOk;
  }

  lemma BeginKeeps(s: State, p: Pid, c: Choice)
    requires Inv(s) && p in s.procs && s.procs[p].phase.Ready?
    requires Begin(s, p, s.procs[p], c).Some?
    ensures Clean(s, Begin(s, p, s.procs[p], c).value, p)
  {
    hide Clean, SharedOk;
    match s.procs[p].Instruction()
    case LockOperation => LockMove(s, p, c);
    case UnlockOperation => LockMove(s, p, c);
    case WriteMarker => MarkerMove(s, p, c);
    case InstallArtifact => ArtifactMove(s, p, c);
    case MergeParent => MergeMove(s, p, c);
    case _ =>
      LocalBegin(s, p, s.procs[p], c);
      LocalMove(s, p, Begin(s, p, s.procs[p], c).value.procs[p]);
  }

  lemma FinishLoadKeeps(s: State, p: Pid, c: Choice)
    requires Inv(s) && p in s.procs && s.procs[p].phase.Loading?
    requires FinishLoad(s, p, s.procs[p], s.procs[p].phase.before, c).Some?
    ensures Clean(s, FinishLoad(s, p, s.procs[p], s.procs[p].phase.before, c).value, p)
  {
    hide ProcessOk, ValidRecord, VerifyChain, Extends, Link, PathStep;
    CurrentSeen(s.disk);
    LoadedMove(s, p, s.procs[p], s.procs[p].phase.before, c);
    LocalMove(s, p, FinishLoad(s, p, s.procs[p], s.procs[p].phase.before, c).value.procs[p]);
  }

  lemma LoadedMove(s: State, p: Pid, pr: Process, before: Record, c: Choice)
    requires ProcessOk(s, p, pr) && pr.phase == Loading(before)
    requires s.disk.current == Some(before) && Seen(s.disk, before) && before.revision > 0
    requires FinishLoad(s, p, pr, before, c).Some?
    ensures var s' := FinishLoad(s, p, pr, before, c).value;
            p in s'.procs && s' == Put(s, p, s'.procs[p]) && ProcessOk(s, p, s'.procs[p])
  {
    hide ValidRecord, VerifyChain, Extends, Link, LoadState;
    match pr.Instruction()
    case LoadTeam => LoadedOk(s, p, pr, before);
    case AdvanceFrom(_, _) =>
      hide ProcessOk, Seen;
      EnterOk(s, p, pr, FinishLoad(s, p, pr, before, c).value.procs[p].phase);
  }

  lemma LoadedOk(s: State, p: Pid, pr: Process, record: Record)
    requires ProcessOk(s, p, pr) && !HoldsState(pr.phase) && pr.Instruction().LoadTeam? && Seen(s.disk, record)
    ensures ProcessOk(s, p, pr.Then().(team := Some(record)))
  {
    ThenOk(s, p, pr);
    hide Seen, HasReceipts;
  }

  /** A receipt is appended only by the operation holder, who has just seen that it is missing. */
  lemma ReceiptKeeps(s: State, p: Pid, c: Choice)
    requires Inv(s) && p in s.procs && s.procs[p].phase.ReceiptMissing?
    requires MoveOne(s, p, s.procs[p], c).Some?
    ensures Clean(s, MoveOne(s, p, s.procs[p], c).value, p)
  {
    hide ChainOk, ValidRecord, Extends;
    var pr := s.procs[p];
    var s' := MoveOne(s, p, pr, c).value;
    ReceiptOwn(s, p, pr, c);
    assert s.artifact == pr.body && HasReceipts(s.ledger, Prior(pr.Instruction().kind), pr.body.value);
    assert pr.Instruction().kind == EvidenceMerged ==> s.merges == [pr.body.value];
    ReceiptShared(s, s', ReceiptEvent(pr.Instruction().kind, pr.body.value));
    hide SharedOk, HasReceipts, Unnoticed;
    UnderOperation(s, s', p);
  }

  lemma ReceiptAhead(s: State, p: Pid, pr: Process)
    requires ProcessOk(s, p, pr) && pr.phase.ReceiptMissing?
    ensures pr.role == Reconciler && pr.Instruction().AppendReceipt?
    ensures pr.body.Some? && ReceiptEvent(pr.Instruction().kind, pr.body.value) !in s.ledger
    ensures forall disk, ledger :: PhaseOk(disk, ledger, pr.Then())
  {
    hide Code;
  }

  lemma ReceiptOwn(s: State, p: Pid, pr: Process, c: Choice)
    requires ProcessOk(s, p, pr) && pr.phase.ReceiptMissing?
    ensures s.artifact == pr.body && HasReceipts(s.ledger, Prior(pr.Instruction().kind), pr.body.value)
    ensures pr.Instruction().kind == EvidenceMerged ==> s.merges == [pr.body.value]
    ensures ReceiptEvent(pr.Instruction().kind, pr.body.value) !in s.ledger && HoldsOperation(pr)
    ensures MoveOne(s, p, pr, c).Some?
    ensures var s' := MoveOne(s, p, pr, c).value; p in s'.procs && ProcessOk(s', p, s'.procs[p])
  {
    hide ChainOk, ValidRecord, Extends, Seen, PhaseOk;
    ReceiptAhead(s, p, pr);
    var s' := MoveOne(s, p, pr, c).value;
    var kind := pr.Instruction().kind;
    assert pr.ip in {6, 11, 14, 16};
    assert Prior(kind) == Written(pr.ip) && Written(pr.ip + 1) == Written(pr.ip) + {kind};
    assert s'.ledger == s.ledger + [ReceiptEvent(kind, pr.body.value)];
  }

  lemma ReceiptShared(s: State, s': State, e: Event)
    requires SharedOk(s) && e.ReceiptEvent? && e !in s.ledger
    requires s'.procs.Keys == s.procs.Keys && s' == s.(ledger := s.ledger + [e], procs := s'.procs)
    requires s.artifact == Some(e.body) && HasReceipts(s.ledger, Prior(e.kind), e.body)
    requires e.kind == EvidenceMerged ==> s.merges == [e.body]
    ensures SharedOk(s')
  {
    hide ChainOk;
    ReceiptsGrow(s, s', e);
    hide HasReceipts;
    if s.disk.current.Some? {
      BackedStays(s, s', s.disk.current.value.stage);
    }
    hide ReceiptsOk, StageBacked;
  }

  lemma BackedStays(s: State, s': State, stage: Stage)
    requires StageBacked(s.ledger, s.artifact, stage) && s.ledger <= s'.ledger && s'.artifact == s.artifact
    ensures StageBacked(s'.ledger, s'.artifact, stage)
  {
    if Needs(stage) != {} {
      forall kind | kind in Needs(stage) ensures ReceiptEvent(kind, s.artifact.value) in s'.ledger {
        assert ReceiptEvent(kind, s.artifact.value) in s.ledger;
      }
    }
  }

  lemma ReceiptsGrow(s: State, s': State, e: Event)
    requires ReceiptsOk(s.ledger, s.artifact) && s'.artifact == s.artifact && s'.ledger == s.ledger + [e]
    requires e.ReceiptEvent? ==> e !in s.ledger && s.artifact == Some(e.body) && HasReceipts(s.ledger, Prior(e.kind), e.body)
    ensures ReceiptsOk(s'.ledger, s'.artifact)
  {
    forall f | f in s'.ledger && f.ReceiptEvent?
      ensures s'.artifact == Some(f.body) && HasReceipts(s'.ledger, Prior(f.kind), f.body)
    {
      assert HasReceipts(s.ledger, Prior(f.kind), f.body);
      forall kind | kind in Prior(f.kind) ensures ReceiptEvent(kind, f.body) in s'.ledger {
        assert ReceiptEvent(kind, f.body) in s.ledger;
      }
    }
  }

  lemma TakeLock(s: State, p: Pid)
    requires Inv(s) && p in s.procs && s.procs[p].phase.AwaitingLock?
    requires Checkpoint(s, p, s.procs[p]).Some?
    ensures Clean(s, Checkpoint(s, p, s.procs[p]).value, p)
  {
    hide ChainOk, ValidRecord, Extends, ReceiptsOk, ParentOk, StageEventsOk, StageBacked, HasReceipts, Seen;
  }

  lemma Prepare(s: State, p: Pid)
    requires Inv(s) && p in s.procs && s.procs[p].phase.Locked?
    requires Checkpoint(s, p, s.procs[p]).Some?
    ensures Clean(s, Checkpoint(s, p, s.procs[p]).value, p)
  {
    var pr := s.procs[p];
    LockedTarget(s, p, pr);
    PreparedExtends(s.disk, pr.phase.next, pr.phase.expected);
    var record := PrepareCheckpoint(s.disk, pr.phase.next, pr.phase.expected).value;
    hide ProcessOk, SharedOk, ChainOk, ValidRecord, Extends, PrepareCheckpoint;
    EnterOk(s, p, pr, Prepared(record));
    LocalMove(s, p, pr.(phase := Prepared(record)));
  }

  lemma LockedTarget(s: State, p: Pid, pr: Process)
    requires ProcessOk(s, p, pr) && pr.phase.Locked?
    ensures Advancing(pr, pr.phase.next.stage) && (pr.phase.expected == 0 ==> pr.phase.next.stage == Plan)
  {}

  lemma WriteSnapshot(s: State, p: Pid)
    requires Inv(s) && p in s.procs && s.procs[p].phase.Prepared?
    requires Checkpoint(s, p, s.procs[p]).Some?
    ensures Clean(s, Checkpoint(s, p, s.procs[p]).value, p)
  {
    var pr := s.procs[p];
    SnapshotOwn(s, p, pr);
    SnapshotShared(s, p, pr);
    HoldsItsLock(s, p, pr);
    hide SharedOk, ProcessOk, Inv, ValidRecord, Extends, Unnoticed;
    UnderState(s, Checkpoint(s, p, pr).value, p);
  }

  lemma HoldsItsLock(s: State, p: Pid, pr: Process)
    requires ProcessOk(s, p, pr) && HoldsState(pr.phase)
    ensures s.stateLock == Some(p)
  {}

  /** More snapshots, written under the state lock, disturb no one. */
  lemma UnderState(s: State, s': State, p: Pid)
    requires s.stateLock == Some(p) == s'.stateLock && s'.operationLock == s.operationLock
    requires s'.disk == s.disk.(snapshots := s'.disk.snapshots)
    requires s'.ledger == s.ledger && s'.artifact == s.artifact && s'.merges == s.merges
    requires forall r | r in s.disk.snapshots :: r in s'.disk.snapshots && s'.disk.snapshots[r] == s.disk.snapshots[r]
    ensures forall q | q in s.procs && q != p :: Unnoticed(s, s', q)
  {}

  lemma SnapshotShared(s: State, p: Pid, pr: Process)
    requires SharedOk(s) && ProcessOk(s, p, pr) && p in s.procs && pr.phase.Prepared?
    requires Checkpoint(s, p, pr).Some?
    ensures SharedOk(Checkpoint(s, p, pr).value)
    ensures var disk' := Checkpoint(s, p, pr).value.disk;
            forall r | r in s.disk.snapshots :: r in disk'.snapshots && disk'.snapshots[r] == s.disk.snapshots[r]
  {
    SnapshotKeepsChain(s.disk, pr.phase.record);
    hide ChainOk, ValidRecord, Extends, ReceiptsOk, ParentOk, StageBacked, ProcessOk;
  }

  lemma SnapshotOwn(s: State, p: Pid, pr: Process)
    requires SharedOk(s) && ProcessOk(s, p, pr) && pr.phase.Prepared?
    requires Checkpoint(s, p, pr).Some?
    ensures var s' := Checkpoint(s, p, pr).value; p in s'.procs && ProcessOk(s', p, s'.procs[p])
  {
    var s' := Checkpoint(s, p, pr).value;
    var record := pr.phase.record;
    hide ChainOk, Extends, ValidRecord, ReceiptsOk, ParentOk, StageEventsOk, StageBacked, Seen, HasReceipts;
    assert Extends(s.disk, record);
    SnapshotKeepsChain(s.disk, record);
    InstalledOwn(s.disk, s'.disk, s.ledger, pr, record);
    hide SharedOk, PhaseOk, Advancing;
  }

  lemma InstalledOwn(disk: Disk, disk': Disk, ledger: seq<Event>, pr: Process, record: Record)
    requires pr.phase == Prepared(record) && PhaseOk(disk, ledger, pr)
    requires disk'.current == disk.current && record.revision in disk'.snapshots && disk'.snapshots[record.revision] == record
    requires forall r | r in disk.snapshots :: r in disk'.snapshots && disk'.snapshots[r] == disk.snapshots[r]
    ensures PhaseOk(disk', ledger, pr.(phase := Snapshotted(record)))
    ensures pr.team.Some? && Seen(disk, pr.team.value) ==> Seen(disk', pr.team.value)
  {
    ExtendsIgnoresMarker(disk, disk', record);
    hide Extends;
  }

  /** The one step that changes the durable stage: what it installs is backed by its writer's receipts. */
  lemma MovePointer(s: State, p: Pid)
    requires Inv(s) && p in s.procs && s.procs[p].phase.Snapshotted?
    requires Checkpoint(s, p, s.procs[p]).Some?
    ensures Clean(s, Checkpoint(s, p, s.procs[p]).value, p)
  {
    var pr := s.procs[p];
    var s' := Checkpoint(s, p, pr).value;
    PointerAdvances(s.disk, pr.phase.record);
    PointerShared(s, p);
    PointerOwn(s, p, pr);
    hide SharedOk, ChainOk, ValidRecord, VerifyChain, Extends, Link, HasReceipts;
    forall q | q in s.procs && q != p ensures Unnoticed(s, s', q) {
    }
  }

  lemma PointerShared(s: State, p: Pid)
    requires Inv(s) && p in s.procs && s.procs[p].phase.Snapshotted?
    requires Checkpoint(s, p, s.procs[p]).Some?
    ensures SharedOk(Checkpoint(s, p, s.procs[p]).value)
  {
    var pr := s.procs[p];
    var record := pr.phase.record;
    ReplaceKeepsChain(s.disk, record);
    var s' := Checkpoint(s, p, pr).value;
    PointerAdvances(s.disk, record);
    hide ChainOk, ValidRecord, VerifyChain, Extends, Link;
    TargetBacked(s, p, pr, record.stage);
    BackedStays(s, s', record.stage);
    hide ProcessOk;
    assert ReceiptsOk(s'.ledger, s'.artifact) && ParentOk(s'.parent, s'.merges, s'.ledger) && StageEventsOk(s'.ledger, s'.disk);
  }

  lemma PointerOwn(s: State, p: Pid, pr: Process)
    requires ProcessOk(s, p, pr) && pr.phase.Snapshotted?
    ensures var s' := Checkpoint(s, p, pr).value;
            p in s'.procs && ProcessOk(s', p, s'.procs[p])
  {
    PointerAdvances(s.disk, pr.phase.record);
    hide ValidRecord, Extends;
  }

  lemma PointerAdvances(disk: Disk, record: Record)
    requires Extends(disk, record)
    ensures CurrentRevision(disk) < record.revision
    ensures disk.current.Some? ==> record.binding == disk.current.value.binding
  {}

  lemma TargetBacked(s: State, p: Pid, pr: Process, stage: Stage)
    requires ProcessOk(s, p, pr) && Advancing(pr, stage)
    ensures StageBacked(s.ledger, s.artifact, stage)
  {
    hide ChainOk, ValidRecord, VerifyChain, Extends, Link;
    if Needs(stage) != {} {
      assert pr.role == Reconciler && pr.ip > 5 && Needs(stage) <= Written(pr.ip);
    }
  }

  lemma ReleaseState(s: State, p: Pid)
    requires Inv(s) && p in s.procs && s.procs[p].phase.Replaced?
    requires Checkpoint(s, p, s.procs[p]).Some?
    ensures Clean(s, Checkpoint(s, p, s.procs[p]).value, p)
  {
    CurrentSeen(s.disk);
    hide ChainOk, ValidRecord, Extends, ReceiptsOk, ParentOk, StageEventsOk, StageBacked, HasReceipts, Code;
  }

  lemma AnnouncedOk(s: State, p: Pid, pr: Process, record: Record)
    requires ProcessOk(s, p, pr) && (pr.phase == Announcing(record) || pr.phase == AnnounceMissing(record))
    ensures p in Announced(s, p, pr, record).procs
    ensures Announced(s, p, pr, record) == Put(s, p, Announced(s, p, pr, record).procs[p])
    ensures ProcessOk(s, p, Announced(s, p, pr, record).procs[p])
  {
    hide ChainOk, ValidRecord, VerifyChain, Extends, Link;
    ThenOk(s, p, pr);
  }

  lemma AnnounceSeen(s: State, p: Pid, pr: Process, record: Record)
    requires ProcessOk(s, p, pr) && pr.phase == Announcing(record)
    ensures Announceable(pr) && Seen(s.disk, record)
  {}

  lemma LookForEvent(s: State, p: Pid)
    requires Inv(s) && p in s.procs && s.procs[p].phase.Announcing?
    requires Checkpoint(s, p, s.procs[p]).Some?
    ensures Clean(s, Checkpoint(s, p, s.procs[p]).value, p)
  {
    hide ProcessOk, SharedOk, HasReceipts, Seen;
    var pr := s.procs[p];
    var record := pr.phase.record;
    AnnouncedOk(s, p, pr, record);
    AnnounceSeen(s, p, pr, record);
    EnterOk(s, p, pr, AnnounceMissing(record));
    LocalMove(s, p, Checkpoint(s, p, pr).value.procs[p]);
  }

  /** A stage event is appended after the stage is durable and names its snapshot. */
  lemma AppendStageEvent(s: State, p: Pid)
    requires Inv(s) && p in s.procs && s.procs[p].phase.AnnounceMissing?
    requires Checkpoint(s, p, s.procs[p]).Some?
    ensures Clean(s, Checkpoint(s, p, s.procs[p]).value, p)
  {
    var pr := s.procs[p];
    var record := pr.phase.record;
    AnnouncedOk(s, p, pr, record);
    var s' := Checkpoint(s, p, pr).value;
    var e := StageEvent(record.revision, record.stage);
    assert s'.ledger == s.ledger + [e];
    assert 1 <= record.revision <= CurrentRevision(s.disk);
    hide ChainOk, ValidRecord, VerifyChain, Extends, Link;
    ReceiptsGrow(s, s', e);
    BackedStays(s, s', s.disk.current.value.stage);
    assert ParentOk(s'.parent, s'.merges, s'.ledger);
    assert StageEventsOk(s'.ledger, s'.disk);
    UnnoticedByItself(s, s', p, s'.procs[p]);
  }

  lemma UnnoticedByItself(s: State, s': State, p: Pid, pr: Process)
    requires ProcessOk(s, p, pr)
    requires s'.operationLock == s.operationLock && s'.stateLock == s.stateLock && s.ledger <= s'.ledger
    requires s'.disk == s.disk && s'.artifact == s.artifact && s'.merges == s.merges
    requires forall e | e in s'.ledger :: e.ReceiptEvent? ==> e in s.ledger
    ensures ProcessOk(s', p, pr)
  {
    UnnoticedKeeps(s, s', p, pr);
  }

  lemma CheckpointKeeps(s: State, p: Pid, c: Choice)
    requires Inv(s) && p in s.procs
    requires !s.procs[p].phase.Ready? && !s.procs[p].phase.Loading? && !s.procs[p].phase.ReceiptMissing?
    requires Checkpoint(s, p, s.procs[p]).Some?
    ensures Clean(s, Checkpoint(s, p, s.procs[p]).value, p)
  {
    hide Clean, SharedOk;
    match s.procs[p].phase
    case AwaitingLock(_, _) => TakeLock(s, p);
    case Locked(_, _) => Prepare(s, p);
    case Prepared(_) => WriteSnapshot(s, p);
    case Snapshotted(_) => MovePointer(s, p);
    case Replaced(_) => ReleaseState(s, p);
    case Announcing(_) => LookForEvent(s, p);
    case AnnounceMissing(_) => AppendStageEvent(s, p);
  }

  lemma StepKeepsInv(s: State, step: Step)
    requires Inv(s) && Next(s, step).Some?
    ensures Inv(Next(s, step).value)
  {
    match step
    case Start(p, role, binding) => StartKeeps(s, p, role, binding);
    case Stop(p) => StopKeeps(s, p);
    case ParentMovesOn => ParentMovesOnKeeps(s);
    case Move(p, c) =>
      match s.procs[p].phase {
        case Ready => BeginKeeps(s, p, c);
        case Loading(_) => FinishLoadKeeps(s, p, c);
        case ReceiptMissing => ReceiptKeeps(s, p, c);
        case _ => CheckpointKeeps(s, p, c);
      }
      CleanKeepsInv(s, Next(s, step).value, p);
  }
}
