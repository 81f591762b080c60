/**
 Install and self-update commands beside pending update scripts, in any interleaving and with any
 of them killed at any step (src/adapters/system_install/binary.rs:34-128,186-350;
 src/composition/install.rs:14-19,64-82; src/composition/update.rs:59-65,84-89). Commands share the
 runtime mutation lease; a script runs outside it, behind the marker its command reserved.
 */
module UpdateProtocol {
  import opened Wrappers
  import opened SelfUpdate

  type Pid = nat
  type OperationId = nat

  /** Where a command stands; every phase but Outside is inside the lease. */
  datatype Phase =
    | Outside
    | Leased
    | Checked                                        // saw no marker
    | Hashed(expected: string)                       // knows the digest of the installed binary
    | Reserved(operation: OperationId, expected: string)
    | Finished

  datatype Stage =
    | Waiting                                        // for its parent to exit
    | Ready                                          // about to hash and replace the target
    | Moved                                          // target moved to the backup
    | Cleaning                                       // replaced, refused or given up; marker not yet cleared
    | Ended
    | Dead

  datatype UpdateScript = UpdateScript(parent: Pid, expected: string, source: Binary, stage: Stage, backup: Option<Binary>) {
    predicate Live() { stage == Waiting || stage == Ready || stage == Moved || stage == Cleaning }
  }

  datatype World = World(
    lease: Option<Pid>, marker: Option<OperationId>, target: Option<Binary>,
    commands: map<Pid, Phase>, running: set<Pid>, scripts: map<OperationId, UpdateScript>)

  function PhaseOf(w: World, p: Pid): Phase {
    if p in w.commands then w.commands[p] else Outside
  }

  function At(w: World, p: Pid, phase: Phase): World {
    w.(commands := w.commands[p := phase])
  }

  function WithScript(w: World, op: OperationId, s: UpdateScript): World {
    w.(scripts := w.scripts[op := s])
  }

  datatype Action =
    | Acquire
    | Check
    | Write(binary: Binary)              // install, and update where a running file can be replaced
    | Hash
    | Reserve(operation: OperationId)
    | Withdraw(removed: bool)            // the script could not be written or started
    | Spawn(source: Binary)
    | Release                            // normal end or error return
    | Exit                               // also a kill: the kernel drops the lease

  datatype ScriptAction =
    | Begin
    | MoveAway
    | Refuse                             // the digest is not the expected one
    | MoveIn
    | Restore
    | GiveUp                             // an operation failed
    | TidyBackup
    | Clear(removed: bool)               // the marker, if it is still ours
    | Kill

  datatype Step = Command(p: Pid, action: Action) | Script(operation: OperationId, does: ScriptAction)

  predicate CommandEnabled(w: World, p: Pid, action: Action) {
    var phase := PhaseOf(w, p);
    match action
    case Acquire => w.lease == None && phase == Outside
    case Check => phase == Leased
    case Write(_) => phase == Checked
    case Hash => phase == Checked && w.target.Some?
    case Reserve(op) => phase.Hashed? && op !in w.scripts
    case Withdraw(_) => phase.Reserved?
    case Spawn(_) => phase.Reserved?
    case Release => phase != Outside && !phase.Reserved?
    case Exit => true
  }

  function Without(w: World, p: Pid): World {
    w.(lease := if w.lease == Some(p) then None else w.lease, commands := w.commands[p := Outside])
  }

  function AfterCommand(w: World, sha: Binary -> string, p: Pid, action: Action): World
    requires CommandEnabled(w, p, action)
  {
    var phase := PhaseOf(w, p);
    match action
    case Acquire => At(w, p, Leased).(lease := Some(p), running := w.running + {p})
    case Check => At(w, p, if w.marker == None then Checked else Finished)
    case Write(binary) => At(w, p, Finished).(target := Some(binary))
    case Hash => At(w, p, Hashed(sha(w.target.value)))
    case Reserve(op) =>
      if w.marker == None then At(w, p, Reserved(op, phase.expected)).(marker := Some(op)) else At(w, p, Finished)
    case Withdraw(removed) => At(w, p, Finished).(marker := if removed then None else w.marker)
    case Spawn(source) =>
      WithScript(At(w, p, Finished), phase.operation, UpdateScript(p, phase.expected, source, Waiting, None))
    case Release => Without(w, p)
    case Exit => Without(w, p).(running := w.running - {p})
  }

  predicate ScriptEnabled(w: World, sha: Binary -> string, op: OperationId, does: ScriptAction) {
    op in w.scripts
    && var s := w.scripts[op];
       match does
       case Begin => s.stage == Waiting && s.parent !in w.running
       case MoveAway => s.stage == Ready && w.target.Some? && sha(w.target.value) == s.expected
       case Refuse => s.stage == Ready && w.target.Some? && sha(w.target.value) != s.expected
       case MoveIn => s.stage == Moved
       case Restore => s.stage == Moved && s.backup.Some?
       case GiveUp => s.stage == Ready || s.stage == Moved
       case TidyBackup => s.stage == Cleaning && s.backup.Some? && w.target.Some?
       case Clear(_) => s.stage == Cleaning
       case Kill => s.Live()
  }

  function AfterScript(w: World, sha: Binary -> string, op: OperationId, does: ScriptAction): World
    requires ScriptEnabled(w, sha, op, does)
  {
    var s := w.scripts[op];
    match does
    case Begin => WithScript(w, op, s.(stage := Ready))
    case MoveAway => WithScript(w, op, s.(stage := Moved, backup := w.target)).(target := None)
    case Refuse => WithScript(w, op, s.(stage := Cleaning))
    case MoveIn => WithScript(w, op, s.(stage := Cleaning)).(target := Some(s.source))
    case Restore => WithScript(w, op, s.(stage := Cleaning, backup := None)).(target := s.backup)
    case GiveUp => WithScript(w, op, s.(stage := Cleaning))
    case TidyBackup => WithScript(w, op, s.(backup := None))
    case Clear(removed) =>
      WithScript(w, op, s.(stage := Ended)).(marker := if removed && w.marker == Some(op) then None else w.marker)
    case Kill => WithScript(w, op, s.(stage := Dead))
  }

  predicate Enabled(w: World, sha: Binary -> string, step: Step) {
    match step
    case Command(p, action) => CommandEnabled(w, p, action)
    case Script(op, does) => ScriptEnabled(w, sha, op, does)
  }

  function After(w: World, sha: Binary -> string, step: Step): World
    requires Enabled(w, sha, step)
  {
    match step
    case Command(p, action) => AfterCommand(w, sha, p, action)
    case Script(op, does) => AfterScript(w, sha, op, does)
  }

  // ---- The invariant ---------------------------------------------------------------------------

  predicate Matches(target: Option<Binary>, sha: Binary -> string, expected: string) {
    target.Some? && sha(target.value) == expected
  }

  /** A command past its start holds the lease; past its check it knows the marker and the target. */
  predicate PhaseOk(w: World, sha: Binary -> string, p: Pid) {
    match PhaseOf(w, p)
    case Outside => true
    case Leased => w.lease == Some(p)
    case Checked => w.lease == Some(p) && w.marker == None
    case Hashed(expected) => w.lease == Some(p) && w.marker == None && Matches(w.target, sha, expected)
    case Reserved(op, expected) => w.lease == Some(p) && w.marker == Some(op) && op !in w.scripts && Matches(w.target, sha, expected)
    case Finished => w.lease == Some(p)
  }

  /**
   A live script holds the marker, and until it moves the target away that is still what its command
   hashed; so is every backup. Once it is done with the target, the new binary stands there, or the
   old one, or none while the old one is in the backup.
   */
  predicate ScriptOk(w: World, sha: Binary -> string, op: OperationId)
    requires op in w.scripts
  {
    var s := w.scripts[op];
    && (s.Live() ==> w.marker == Some(op))
    && (s.stage == Waiting || s.stage == Ready ==> Matches(w.target, sha, s.expected) && s.backup == None)
    && (s.stage == Moved ==> w.target == None && s.backup.Some?)
    && (s.backup.Some? ==> sha(s.backup.value) == s.expected)
    && (s.stage == Cleaning ==>
          w.target == Some(s.source) || Matches(w.target, sha, s.expected) || (w.target == None && s.backup.Some?))
  }

  ghost predicate Inv(w: World, sha: Binary -> string) {
    && (forall p: Pid :: PhaseOk(w, sha, p))
    && (forall op | op in w.scripts :: ScriptOk(w, sha, op))
    && (w.target.Some? || exists op | op in w.scripts :: w.scripts[op].backup.Some?)
  }

  lemma CommandKeepsInv(w: World, sha: Binary -> string, p: Pid, action: Action)
    requires Inv(w, sha) && CommandEnabled(w, p, action)
    ensures Inv(AfterCommand(w, sha, p, action), sha)
  {
    var t := AfterCommand(w, sha, p, action);
    assert PhaseOk(w, sha, p);
    forall q: Pid
      ensures PhaseOk(t, sha, q)
    {
      assert PhaseOk(w, sha, q);
    }
    forall op | op in t.scripts
      ensures ScriptOk(t, sha, op)
    {
      assert op in w.scripts ==> ScriptOk(w, sha, op);
    }
    if w.target == None {
      var op :| op in w.scripts && w.scripts[op].backup.Some?;
      assert t.target.Some? || (op in t.scripts && t.scripts[op].backup.Some?);
    }
  }

  lemma ScriptKeepsInv(w: World, sha: Binary -> string, op: OperationId, does: ScriptAction)
    requires Inv(w, sha) && ScriptEnabled(w, sha, op, does)
    ensures Inv(AfterScript(w, sha, op, does), sha)
  {
    var t := AfterScript(w, sha, op, does);
    assert ScriptOk(w, sha, op);
    forall q: Pid
      ensures PhaseOk(t, sha, q)
    {
      assert PhaseOk(w, sha, q);
    }
    forall other | other in t.scripts
      ensures ScriptOk(t, sha, other)
    {
      assert ScriptOk(w, sha, other);
    }
    if w.target == None {
      var other :| other in w.scripts && w.scripts[other].backup.Some?;
      assert t.target.Some? || (other in t.scripts && t.scripts[other].backup.Some?);
    }
    if t.target == None && w.target.Some? {
      assert t.scripts[op].backup.Some?;
    }
  }

  // ---- Every run ------------------------------------------------------------------------------------

  function Start(target: Binary): World {
    World(None, None, Some(target), map[], {}, map[])
  }

  ghost predicate Follows(w: World, sha: Binary -> string, t: World) {
    exists step :: Enabled(w, sha, step) && t == After(w, sha, step)
  }

  ghost predicate IsRun(run: seq<World>, sha: Binary -> string) {
    && run != [] && run[0].target.Some? && run[0] == Start(run[0].target.value)
    && forall i | 0 <= i < |run| - 1 :: Follows(run[i], sha, run[i + 1])
  }

  lemma {:induction false} RunInv(run: seq<World>, sha: Binary -> string, i: nat)
    requires IsRun(run, sha) && i < |run|
    ensures Inv(run[i], sha)
  {
    if i > 0 {
      var k := i - 1;
      RunInv(run, sha, k);
      assert Follows(run[k], sha, run[k + 1]);
      var step :| Enabled(run[k], sha, step) && run[k + 1] == After(run[k], sha, step);
      match step {
        case Command(p, action) => CommandKeepsInv(run[k], sha, p, action);
        case Script(op, does) => ScriptKeepsInv(run[k], sha, op, does);
      }
    }
  }

  datatype Actor = TheCommand(p: Pid) | TheScript(operation: OperationId)

  /** May write the target, its backup or the marker in one of its next steps without a new check. */
  predicate MayMutate(w: World, a: Actor) {
    match a
    case TheCommand(p) => var phase := PhaseOf(w, p); phase == Checked || phase.Hashed? || phase.Reserved?
    case TheScript(op) => op in w.scripts && w.scripts[op].Live()
  }

  /** In no reachable state can two actors change the installed binary. */
  lemma OneMutator(run: seq<World>, sha: Binary -> string, i: nat, a: Actor, b: Actor)
    requires IsRun(run, sha) && i < |run|
    requires MayMutate(run[i], a) && MayMutate(run[i], b)
    ensures a == b
  {
    RunInv(run, sha, i);
    var w := run[i];
    assert a.TheCommand? ==> PhaseOk(w, sha, a.p);
    assert b.TheCommand? ==> PhaseOk(w, sha, b.p);
    assert a.TheScript? ==> ScriptOk(w, sha, a.operation);
    assert b.TheScript? ==> ScriptOk(w, sha, b.operation);
  }

  /** What changes in one step of a run is changed by an actor that may mutate. */
  lemma OnlyMutatorsMutate(w: World, sha: Binary -> string, step: Step)
    requires Enabled(w, sha, step)
    requires After(w, sha, step).target != w.target || After(w, sha, step).marker != w.marker
    ensures MayMutate(w, if step.Command? then TheCommand(step.p) else TheScript(step.operation))
  {}

  /** Among themselves these actors never invalidate a digest: the script's mismatch branch is for outsiders. */
  lemma NoMismatchFromWithin(run: seq<World>, sha: Binary -> string, i: nat, op: OperationId)
    requires IsRun(run, sha) && i < |run|
    ensures !ScriptEnabled(run[i], sha, op, Refuse)
  {
    RunInv(run, sha, i);
    assert op in run[i].scripts ==> ScriptOk(run[i], sha, op);
  }

  /** Whoever is killed, a complete binary is at the target or at some backup. */
  lemma BinaryNeverLost(run: seq<World>, sha: Binary -> string, i: nat)
    requires IsRun(run, sha) && i < |run|
    ensures run[i].target.Some? || exists op | op in run[i].scripts :: run[i].scripts[op].backup.Some?
  {
    RunInv(run, sha, i);
  }

  /** What a script leaves when it is done with the target: the new binary, the old one, or the old one in the backup. */
  lemma UpdateOutcome(run: seq<World>, sha: Binary -> string, i: nat, op: OperationId)
    requires IsRun(run, sha) && i < |run| && op in run[i].scripts && run[i].scripts[op].stage == Cleaning
    ensures var s, target := run[i].scripts[op], run[i].target;
            || target == Some(s.source)
            || (target.Some? && sha(target.value) == s.expected)
            || (target == None && s.backup.Some? && sha(s.backup.value) == s.expected)
  {
    RunInv(run, sha, i);
    assert ScriptOk(run[i], sha, op);
  }

  // ---- Commands and scripts that nobody interrupts -----------------------------------------------------

  function Last(run: seq<World>): World
    requires run != []
  {
    run[|run| - 1]
  }

  /** One more step at the end of a run. */
  lemma Steps(run: seq<World>, sha: Binary -> string, step: Step) returns (longer: seq<World>)
    requires run != [] && IsRun(run, sha) && Enabled(Last(run), sha, step)
    ensures longer != [] && IsRun(longer, sha) && Last(longer) == After(Last(run), sha, step)
  {
    hide Enabled, After;
    var next := After(Last(run), sha, step);
    assert Follows(Last(run), sha, next);
    longer := run + [next];
    forall i | 0 <= i < |longer| - 1
      ensures Follows(longer[i], sha, longer[i + 1])
    {
      if i < |run| - 1 {
        assert Follows(run[i], sha, run[i + 1]);
      }
    }
  }

  /** Nothing is going on, and p has not started. */
  predicate Quiet(w: World, p: Pid) {
    w.lease == None && w.marker == None && w.target.Some? && PhaseOf(w, p) == Outside
  }

  /** An install that nobody interrupts puts its binary in place. */
  lemma InstallAlone(run: seq<World>, sha: Binary -> string, p: Pid, binary: Binary) returns (longer: seq<World>)
    requires run != [] && IsRun(run, sha) && Quiet(Last(run), p)
    ensures longer != [] && IsRun(longer, sha)
    ensures var w := Last(run);
            Last(longer) == w.(target := Some(binary), commands := w.commands[p := Outside], running := w.running - {p})
  {
    hide IsRun;
    longer := Steps(run, sha, Command(p, Acquire));
    longer := Steps(longer, sha, Command(p, Check));
    longer := Steps(longer, sha, Command(p, Write(binary)));
    longer := Steps(longer, sha, Command(p, Exit));
  }

  /** An update command that nobody interrupts leaves its marker and a script that waits for it to exit. */
  lemma CommandAlone(run: seq<World>, sha: Binary -> string, p: Pid, op: OperationId, source: Binary) returns (longer: seq<World>)
    requires run != [] && IsRun(run, sha) && Quiet(Last(run), p) && op !in Last(run).scripts
    ensures longer != [] && IsRun(longer, sha)
    ensures var w := Last(run);
            Last(longer) == w.(marker := Some(op), commands := w.commands[p := Outside], running := w.running - {p},
                               scripts := w.scripts[op := UpdateScript(p, sha(w.target.value), source, Waiting, None)])
  {
    hide IsRun;
    longer := Steps(run, sha, Command(p, Acquire));
    longer := Steps(longer, sha, Command(p, Check));
    longer := Steps(longer, sha, Command(p, Hash));
    longer := Steps(longer, sha, Command(p, Reserve(op)));
    longer := Steps(longer, sha, Command(p, Spawn(source)));
    longer := Steps(longer, sha, Command(p, Exit));
  }

  /** One that cannot write or start its script takes the marker back. */
  lemma CommandWithdraws(run: seq<World>, sha: Binary -> string, p: Pid, op: OperationId) returns (longer: seq<World>)
    requires run != [] && IsRun(run, sha) && Quiet(Last(run), p) && op !in Last(run).scripts
    ensures longer != [] && IsRun(longer, sha)
    ensures var w := Last(run); Last(longer) == w.(commands := w.commands[p := Outside], running := w.running + {p})
  {
    hide IsRun;
    longer := Steps(run, sha, Command(p, Acquire));
    longer := Steps(longer, sha, Command(p, Check));
    longer := Steps(longer, sha, Command(p, Hash));
    longer := Steps(longer, sha, Command(p, Reserve(op)));
    longer := Steps(longer, sha, Command(p, Withdraw(true)));
    longer := Steps(longer, sha, Command(p, Release));
  }

  /** A script on its own, once its parent has exited. */
  predicate Scheduled(w: World, sha: Binary -> string, op: OperationId) {
    && op in w.scripts && w.marker == Some(op) && w.scripts[op].stage == Waiting && w.scripts[op].backup == None
    && w.scripts[op].parent !in w.running && Matches(w.target, sha, w.scripts[op].expected)
  }

  /** It installs the new binary, removes the backup and clears its marker, unless that cannot be removed. */
  lemma ScriptAlone(run: seq<World>, sha: Binary -> string, op: OperationId, removed: bool) returns (longer: seq<World>)
    requires run != [] && IsRun(run, sha) && Scheduled(Last(run), sha, op)
    ensures longer != [] && IsRun(longer, sha)
    ensures var w := Last(run);
            Last(longer) == w.(target := Some(w.scripts[op].source), marker := if removed then None else Some(op),
                               scripts := w.scripts[op := w.scripts[op].(stage := Ended)])
  {
    hide IsRun;
    longer := Steps(run, sha, Script(op, Begin));
    longer := Steps(longer, sha, Script(op, MoveAway));
    longer := Steps(longer, sha, Script(op, MoveIn));
    longer := Steps(longer, sha, Script(op, TidyBackup));
    longer := Steps(longer, sha, Script(op, Clear(removed)));
  }

  /** When the new binary cannot be moved in, the old one is put back and everything else is as after a success. */
  lemma ScriptRestores(run: seq<World>, sha: Binary -> string, op: OperationId) returns (longer: seq<World>)
    requires run != [] && IsRun(run, sha) && Scheduled(Last(run), sha, op)
    ensures longer != [] && IsRun(longer, sha)
    ensures var w := Last(run); Last(longer) == w.(marker := None, scripts := w.scripts[op := w.scripts[op].(stage := Ended)])
  {
    hide IsRun;
    longer := Steps(run, sha, Script(op, Begin));
    longer := Steps(longer, sha, Script(op, MoveAway));
    longer := Steps(longer, sha, Script(op, Restore));
    longer := Steps(longer, sha, Script(op, Clear(true)));
  }

  /** When it gives up, before or after it moved the target away, the old binary is where it was or in the backup. */
  lemma ScriptGivesUp(run: seq<World>, sha: Binary -> string, op: OperationId, moved: bool) returns (longer: seq<World>)
    requires run != [] && IsRun(run, sha) && Scheduled(Last(run), sha, op)
    ensures longer != [] && IsRun(longer, sha)
    ensures var w := Last(run); var s := w.scripts[op];
            Last(longer) == w.(target := if moved then None else w.target, marker := None,
                               scripts := w.scripts[op := s.(stage := Ended, backup := if moved then w.target else None)])
  {
    hide IsRun;
    longer := Steps(run, sha, Script(op, Begin));
    if moved {
      longer := Steps(longer, sha, Script(op, MoveAway));
    }
    longer := Steps(longer, sha, Script(op, GiveUp));
    longer := Steps(longer, sha, Script(op, Clear(true)));
  }

  /** The owner of the marker is gone: killed before its script started, or the script itself killed. */
  ghost predicate Orphaned(w: World, op: OperationId) {
    && w.marker == Some(op)
    && (op in w.scripts ==> !w.scripts[op].Live())
    && forall p: Pid :: PhaseOf(w, p).Reserved? ==> PhaseOf(w, p).operation != op
  }

  /** An orphaned marker is never cleared, and nothing changes the installed binary any more. */
  lemma OrphanedMarkerFreezesBinary(w: World, sha: Binary -> string, step: Step, op: OperationId)
    requires Inv(w, sha) && Orphaned(w, op)
    requires Enabled(w, sha, step)
    ensures Orphaned(After(w, sha, step), op)
    ensures After(w, sha, step).target == w.target
  {
    var t := After(w, sha, step);
    match step {
      case Command(p, _) =>
        assert PhaseOk(w, sha, p);
      case Script(other, _) =>
        assert false;
    }
    forall p: Pid
      ensures PhaseOf(t, p).Reserved? ==> PhaseOf(t, p).operation != op
    {
      assert PhaseOk(w, sha, p);
    }
  }
}
