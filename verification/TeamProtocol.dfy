/**
 Plan, execute, cancel and reconcile as processes that interleave at every durable
 step and may stop at any of them. A stop stands for a crash, a kill and every error
 return alike: all three release the kernel locks and leave the files as they are.

 Models src/app/collaboration_adapter/team_state.rs, team_execution.rs (with
 team_execution/admission.rs) and team_reconciliation.rs (with its submodules).
 */
module TeamProtocol {
  import opened Wrappers
  import opened TeamState

  type Pid = nat
  /** A rendered reconciliation artifact; it stands for its own hash. */
  type Body = string

  datatype Receipt = Reconciled | EvidenceMerged | StopGatePassed | ReportCompleted

  datatype Event =
    | StageEvent(revision: nat, stage: Stage)
    | ReceiptEvent(kind: Receipt, body: Body)

  /** The parent workflow as merge_parent sees it: still the planned revision, merged, or moved on. */
  datatype Parent = Planned | Merged(body: Body) | Foreign

  datatype Role = Planner | Executor | Canceller | Reconciler

  datatype Instr =
    | LockOperation
    | UnlockOperation
    | LoadTeam
    | RequireStage(allowed: set<Stage>)
    | RequireNoMarker
    | CreateTeam
    | AnnounceTeam
    | AdmitLanes
    | RecoverWorkers
    | RunWorkers
    | AdvanceFrom(from: set<Stage>, target: Stage)
    | WriteMarker
    | CollectMembers
    | InstallArtifact
    | VerifyArtifact
    | AppendReceipt(kind: Receipt)
    | MergeParent
    | Return

  const ACTIVE: set<Stage> := {Plan, Dispatch, Execute, Review, Verify, Merge, Report}
  const ANY: set<Stage> := ACTIVE + {Complete, Failed, Cancelled}

  function PlannerCode(ip: nat): Instr {
    match ip
    case 0 => CreateTeam
    case 1 => LoadTeam
    case 2 => RequireStage({Plan})
    case 3 => AnnounceTeam
    case _ => Return
  }

  function ExecutorCode(ip: nat): Instr {
    match ip
    case 0 => LockOperation
    case 1 => LoadTeam
    case 2 => RequireStage({Plan, Dispatch, Execute})
    case 3 => RequireNoMarker
    case 4 => AdmitLanes
    case 5 => AdvanceFrom({Plan}, Dispatch)
    case 6 => RecoverWorkers
    case 7 => AdvanceFrom({Dispatch}, Execute)
    case 8 => UnlockOperation
    case 9 => RunWorkers
    case 10 => LoadTeam                       // a worker failed
    case 11 => AdvanceFrom(ACTIVE, Failed)
    case 12 => Return
    case 13 => LoadTeam                       // interrupted recovery, still under the operation lock
    case 14 => AdvanceFrom(ACTIVE, Failed)
    case _ => Return
  }

  function CancellerCode(ip: nat): Instr {
    match ip
    case 0 => LockOperation
    case 1 => LoadTeam
    case 2 => RequireStage(ACTIVE)
    case 3 => WriteMarker
    case 4 => AdvanceFrom(ANY, Cancelled)
    case _ => Return
  }

  function ReconcilerCode(ip: nat): Instr {
    match ip
    case 0 => LockOperation
    case 1 => LoadTeam
    case 2 => RequireStage({Execute, Review, Verify, Merge, Report, Complete})
    case 3 => RequireNoMarker
    case 4 => CollectMembers
    case 5 => InstallArtifact
    case 6 => AppendReceipt(Reconciled)
    case 7 => AdvanceFrom({Execute}, Review)
    case 8 => VerifyArtifact
    case 9 => AdvanceFrom({Review}, Verify)
    case 10 => MergeParent
    case 11 => AppendReceipt(EvidenceMerged)
    case 12 => AdvanceFrom({Verify}, Merge)
    case 13 => VerifyArtifact
    case 14 => AppendReceipt(StopGatePassed)
    case 15 => AdvanceFrom({Merge}, Report)
    case 16 => AppendReceipt(ReportCompleted)
    case 17 => AdvanceFrom({Report}, Complete)
    case 18 => RequireStage({Complete})
    case _ => Return
  }

  function Code(role: Role, ip: nat): Instr {
    match role
    case Planner => PlannerCode(ip)
    case Executor => ExecutorCode(ip)
    case Canceller => CancellerCode(ip)
    case Reconciler => ReconcilerCode(ip)
  }

  const WORKERS_DONE: nat := 12
  const INTERRUPTED: nat := 13
  const PLANNED: nat := 4

  /** Where a process is inside the instruction it is executing. */
  datatype Phase =
    | Ready
    | Loading(before: Record)
    | AwaitingLock(next: Record, expected: nat)
    | Locked(next: Record, expected: nat)
    | Prepared(record: Record)
    | Snapshotted(record: Record)
    | Replaced(record: Record)
    | Announcing(record: Record)
    | AnnounceMissing(record: Record)
    | ReceiptMissing

  datatype Process = Process(
    role: Role, ip: nat, phase: Phase, binding: Binding,
    team: Option<Record>, lanes: nat, mode: Mode, body: Option<Body>)
  {
    function Instruction(): Instr { Code(role, ip) }
    function Then(): Process { this.(ip := ip + 1, phase := Ready) }
    function Jump(target: nat): Process { this.(ip := target, phase := Ready) }
  }

  datatype State = State(
    disk: Disk, ledger: seq<Event>, artifact: Option<Body>, parent: Parent, merges: seq<Body>,
    operationLock: Option<Pid>, stateLock: Option<Pid>, procs: map<Pid, Process>)

  /** What the environment decides for one step: clock, admission, worker outcome, member results. */
  datatype Choice = Choice(now: nat, lanes: nat, mode: Mode, proceed: bool, body: Body)

  datatype Step =
    | Start(p: Pid, role: Role, binding: Binding)
    | Stop(p: Pid)
    | Move(p: Pid, choice: Choice)
    | ParentMovesOn

  predicate Init(s: State) {
    s == State(Disk(None, map[], None), [], None, Planned, [], None, None, map[])
  }

  /** A process that has just started. */
  function Fresh(role: Role, binding: Binding): Process {
    Process(role, 0, Ready, binding, None, 0, Pending, None)
  }

  function Next(s: State, step: Step): Option<State> {
    match step
    case Start(p, role, binding) =>
      if p in s.procs then None
      else Some(Put(s, p, Fresh(role, binding)))
    case Stop(p) => if p in s.procs then Some(Released(s, p)) else None
    case Move(p, choice) =>
      if p in s.procs then MoveOne(s, p, s.procs[p], choice) else None
    case ParentMovesOn => Some(s.(parent := Foreign))
  }

  /** The kernel frees whatever a process held when it ends, however it ends. */
  function Released(s: State, p: Pid): State {
    s.(procs := s.procs - {p},
       operationLock := if s.operationLock == Some(p) then None else s.operationLock,
       stateLock := if s.stateLock == Some(p) then None else s.stateLock)
  }

  function Put(s: State, p: Pid, pr: Process): State {
    s.(procs := s.procs[p := pr])
  }

  function MoveOne(s: State, p: Pid, pr: Process, c: Choice): Option<State>
  {
    match pr.phase
    case Ready => Begin(s, p, pr, c)
    case Loading(before) => FinishLoad(s, p, pr, before, c)
    case ReceiptMissing =>
      if pr.Instruction().AppendReceipt? && pr.body.Some? then
        Some(Put(s, p, pr.Then()).(ledger := s.ledger + [ReceiptEvent(pr.Instruction().kind, pr.body.value)]))
      else None
    case _ => Checkpoint(s, p, pr)
  }

  function Begin(s: State, p: Pid, pr: Process, c: Choice): Option<State>
    requires pr.phase.Ready?
  {
    match pr.Instruction()
    case LockOperation =>
      if s.operationLock.None? then Some(Put(s, p, pr.Then()).(operationLock := Some(p))) else None
    case UnlockOperation =>
      if s.operationLock == Some(p) then Some(Put(s, p, pr.Then()).(operationLock := None)) else None
    case LoadTeam => StartLoad(s, p, pr)
    case RequireStage(allowed) =>
      if pr.team.Some? && pr.team.value.stage in allowed then Some(Put(s, p, pr.Then())) else None
    case RequireNoMarker =>
      if s.disk.marker.None? then Some(Put(s, p, pr.Then())) else None
    case CreateTeam =>
      if s.disk.current.Some? then Some(Put(s, p, pr.Then()))
      else Some(Put(s, p, pr.(phase := AwaitingLock(NewRecord(pr.binding), 0))))
    case AnnounceTeam =>
      if pr.team.Some? then Some(Put(s, p, pr.(phase := Announcing(pr.team.value)))) else None
    case AdmitLanes => Some(Put(s, p, pr.Then().(lanes := c.lanes, mode := c.mode)))
    case RecoverWorkers => Some(Put(s, p, if c.proceed then pr.Then() else pr.Jump(INTERRUPTED)))
    case RunWorkers => Some(Put(s, p, if c.proceed then pr.Jump(WORKERS_DONE) else pr.Then()))
    case AdvanceFrom(from, target) =>
      if pr.team.None? then None
      else if pr.team.value.stage in from then StartLoad(s, p, pr)
      else Some(Put(s, p, pr.Then()))
    case WriteMarker =>
      if pr.team.None? then None
      else if s.disk.marker.Some? && s.disk.marker.value != MarkerFor(pr.team.value) then None
      else Some(Put(s, p, pr.Then()).(disk := s.disk.(marker := Some(MarkerFor(pr.team.value)))))
    case CollectMembers => Some(Put(s, p, pr.Then().(body := Some(c.body))))
    case InstallArtifact =>
      if pr.body.None? || (s.artifact.Some? && s.artifact != pr.body) then None
      else Some(Put(s, p, pr.Then()).(artifact := pr.body))
    case VerifyArtifact =>
      if pr.body.Some? && s.artifact == pr.body then Some(Put(s, p, pr.Then())) else None
    case AppendReceipt(kind) =>
      if pr.body.None? then None
      else if ReceiptEvent(kind, pr.body.value) in s.ledger then Some(Put(s, p, pr.Then()))
      else Some(Put(s, p, pr.(phase := ReceiptMissing)))
    case MergeParent =>
      if pr.body.None? then None
      else if s.parent.Planned? then
        Some(Put(s, p, pr.Then()).(parent := Merged(pr.body.value), merges := s.merges + [pr.body.value]))
      else if s.parent == Merged(pr.body.value) then Some(Put(s, p, pr.Then()))
      else None
    case Return => None
  }

  function StartLoad(s: State, p: Pid, pr: Process): Option<State> {
    if s.disk.current.Some? then Some(Put(s, p, pr.(phase := Loading(s.disk.current.value)))) else None
  }

  /** The second read of load_state must see the same bytes, and the chain must verify. */
  function FinishLoad(s: State, p: Pid, pr: Process, before: Record, c: Choice): Option<State>
  {
    if LoadState(s.disk) != Success(before) then None
    else match pr.Instruction()
      case LoadTeam => Some(Put(s, p, pr.Then().(team := Some(before))))
      case AdvanceFrom(_, target) =>
        var lanes := if target == Dispatch then Some(pr.lanes) else None;
        var mode := if target == Dispatch then Some(pr.mode) else None;
        if before.stage == target then
          if target == Dispatch && (before.admittedLanes != pr.lanes || before.executionMode != pr.mode) then None
          else Some(Put(s, p, pr.(phase := Announcing(before))))
        else
          var moved := TransitionTo(before, target, lanes, mode, c.now);
          if moved.Failure? then None
          else Some(Put(s, p, pr.(phase := AwaitingLock(moved.value, before.revision))))
      case _ => None
  }

  /** checkpoint_state, one durable operation at a time, and the stage event after it. */
  function Checkpoint(s: State, p: Pid, pr: Process): Option<State>
    requires !pr.phase.Ready? && !pr.phase.Loading? && !pr.phase.ReceiptMissing?
  {
    match pr.phase
    case AwaitingLock(next, expected) =>
      if s.stateLock.None? then Some(Put(s, p, pr.(phase := Locked(next, expected))).(stateLock := Some(p))) else None
    case Locked(next, expected) =>
      var prepared := PrepareCheckpoint(s.disk, next, expected);
      if prepared.Failure? then None else Some(Put(s, p, pr.(phase := Prepared(prepared.value))))
    case Prepared(record) =>
      var installed := InstallSnapshot(s.disk, record);
      if installed.Failure? then None
      else Some(Put(s, p, pr.(phase := Snapshotted(record))).(disk := installed.value))
    case Snapshotted(record) =>
      Some(Put(s, p, pr.(phase := Replaced(record))).(disk := ReplaceCurrent(s.disk, record)))
    case Replaced(record) =>
      if s.disk.current != Some(record) then None
      else Some(Put(s, p, pr.(phase := Announcing(record))).(stateLock := None))
    case Announcing(record) =>
      if exists e | e in s.ledger :: e.StageEvent? && e.stage == record.stage then Some(Announced(s, p, pr, record))
      else Some(Put(s, p, pr.(phase := AnnounceMissing(record))))
    case AnnounceMissing(record) =>
      Some(Announced(s, p, pr, record).(ledger := s.ledger + [StageEvent(record.revision, record.stage)]))
  }

  function Announced(s: State, p: Pid, pr: Process, record: Record): State {
    var next := if pr.Instruction().CreateTeam? then pr.Jump(PLANNED) else pr.Then();
    Put(s, p, next.(team := Some(record)))
  }
}
