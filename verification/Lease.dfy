/**
 The kernel-lock lease of src/adapters/filesystem/lease.rs:31-77,123-208 and lease/identity.rs, one
 system call at a time: a guard on the owner namespace, an owner claim inside it, and the lock file
 itself. Others may rename, replace or remove any of the files between any two calls, and any
 process may be killed. An inode is a number; the kernel grants at most one lock on it.
 */
module Lease {
  import opened Wrappers

  type Pid = nat
  type Inode = nat
  type Name = nat

  /**
   What one process has open, in the order it opens it: g the guard, c the claim named name, l the
   lock file. The last four phases are the drop, from a lease or from a failed acquire.
   */
  datatype Phase =
    | Idle
    | GuardOpened(g: Inode)
    | GuardLocked(g: Inode)
    | Namespace(g: Inode)                                    // the guard is still at its path
    | Scanned(g: Inode, todo: set<Name>)                     // the claims listed and not yet examined
    | Sweeping(g: Inode, todo: set<Name>, stale: Name, s: Inode)  // a stale claim is locked for removal
    | ClaimOpened(g: Inode, name: Name, c: Inode)
    | ClaimLocked(g: Inode, name: Name, c: Inode)
    | Claimed(g: Inode, name: Name, c: Inode)                // the claim is still at its path
    | LockOpened(g: Inode, name: Name, c: Inode, l: Inode)
    | LockLocked(g: Inode, name: Name, c: Inode, l: Inode)
    | Held(g: Inode, name: Name, c: Inode, l: Inode)         // the lock file is still at its path
    | LockDropped(g: Inode, name: Name, c: Inode)
    | ClaimRemoved(g: Inode, c: Inode)
    | GuardOnly(g: Inode)

  /** The guard was found in place after it was locked. */
  predicate Checked(phase: Phase) {
    !phase.Idle? && !phase.GuardOpened? && !phase.GuardLocked? && !phase.GuardOnly?
  }

  /** The locks a process owns in a phase. */
  function Holdings(phase: Phase): set<Inode> {
    match phase
    case Idle => {}
    case GuardOpened(_) => {}
    case GuardLocked(g) => {g}
    case Namespace(g) => {g}
    case Scanned(g, _) => {g}
    case Sweeping(g, _, _, s) => {g, s}
    case ClaimOpened(g, _, _) => {g}
    case ClaimLocked(g, _, c) => {g, c}
    case Claimed(g, _, c) => {g, c}
    case LockOpened(g, _, c, _) => {g, c}
    case LockLocked(g, _, c, l) => {g, c, l}
    case Held(g, _, c, l) => {g, c, l}
    case LockDropped(g, _, c) => {g, c}
    case ClaimRemoved(g, c) => {g, c}
    case GuardOnly(g) => {g}
  }

  /**
   guardSure and lockSure hold the processes whose own last check of that file still stands: the path
   was not moved since. The two flags tell whether it was ever moved.
   */
  datatype World = World(
    guardPath: Inode, lockPath: Option<Inode>, claims: map<Name, Inode>,
    locks: map<Inode, Pid>, processes: map<Pid, Phase>,
    guardSure: set<Pid>, lockSure: set<Pid>, guardMoved: bool, lockMoved: bool)

  function PhaseOf(w: World, p: Pid): Phase {
    if p in w.processes then w.processes[p] else Idle
  }

  function Dropped(locks: map<Inode, Pid>, i: Inode): map<Inode, Pid> {
    map j | j in locks && j != i :: locks[j]
  }

  function DroppedBy(locks: map<Inode, Pid>, p: Pid): map<Inode, Pid> {
    map j | j in locks && locks[j] != p :: locks[j]
  }

  datatype Action =
    | OpenGuard
    | LockGuard
    | CheckGuard
    | Scan                           // list the claims
    | LockStale(stale: Name)         // a claim whose owner is gone
    | RemoveStale
    | CreateClaim(name: Name, inode: Inode)
    | LockClaim
    | CheckClaim
    | OpenLock(inode: Inode)         // the inode counts only when the file has to be created
    | LockLock
    | CheckLock                      // after the owner record is written
    | Fail                           // any error: a lock is taken, a check or a call failed
    | Drop                           // the owner lets go
    | Close                          // the next file of the drop
    | Kill

  predicate Enabled(w: World, p: Pid, action: Action) {
    var phase := PhaseOf(w, p);
    match action
    case OpenGuard => phase.Idle?
    case LockGuard => phase.GuardOpened? && phase.g !in w.locks
    case CheckGuard => phase.GuardLocked? && w.guardPath == phase.g
    case Scan => phase.Namespace?
    case LockStale(stale) => phase.Scanned? && stale in phase.todo && stale in w.claims && w.claims[stale] !in w.locks
    case RemoveStale => phase.Sweeping?
    case CreateClaim(name, _) => phase.Scanned? && phase.todo == {} && name !in w.claims
    case LockClaim => phase.ClaimOpened? && phase.c !in w.locks
    case CheckClaim => phase.ClaimLocked? && phase.name in w.claims && w.claims[phase.name] == phase.c
    case OpenLock(_) => phase.Claimed?
    case LockLock => phase.LockOpened? && phase.l !in w.locks
    case CheckLock => phase.LockLocked? && w.lockPath == Some(phase.l)
    case Fail => phase.GuardOpened? || phase.GuardLocked? || phase.Namespace? || phase.Scanned? || phase.Sweeping?
                 || phase.ClaimOpened? || phase.ClaimLocked? || phase.Claimed? || phase.LockOpened? || phase.LockLocked?
    case Drop => phase.Held?
    case Close => phase.LockDropped? || phase.ClaimRemoved? || phase.GuardOnly?
    case Kill => !phase.Idle?
  }

  /** The inode an open of the lock file gives: the one at the path, or the one just created. */
  function LockInode(w: World, created: Inode): Inode {
    if w.lockPath.Some? then w.lockPath.value else created
  }

  function NextPhase(w: World, p: Pid, action: Action): Phase
    requires Enabled(w, p, action)
  {
    var phase := PhaseOf(w, p);
    match action
    case OpenGuard => GuardOpened(w.guardPath)
    case LockGuard => GuardLocked(phase.g)
    case CheckGuard => Namespace(phase.g)
    case Scan => Scanned(phase.g, w.claims.Keys)
    case LockStale(stale) => Sweeping(phase.g, phase.todo, stale, w.claims[stale])
    case RemoveStale => Scanned(phase.g, phase.todo - {phase.stale})
    case CreateClaim(name, inode) => ClaimOpened(phase.g, name, inode)
    case LockClaim => ClaimLocked(phase.g, phase.name, phase.c)
    case CheckClaim => Claimed(phase.g, phase.name, phase.c)
    case OpenLock(inode) => LockOpened(phase.g, phase.name, phase.c, LockInode(w, inode))
    case LockLock => LockLocked(phase.g, phase.name, phase.c, phase.l)
    case CheckLock => Held(phase.g, phase.name, phase.c, phase.l)
    case Fail =>
      if phase.GuardOpened? then Idle
      else if phase.Claimed? || phase.LockOpened? || phase.LockLocked? then LockDropped(phase.g, phase.name, phase.c)
      else GuardOnly(phase.g)
    case Drop => LockDropped(phase.g, phase.name, phase.c)
    case Close =>
      if phase.LockDropped? then ClaimRemoved(phase.g, phase.c) else if phase.ClaimRemoved? then GuardOnly(phase.g) else Idle
    case Kill => Idle
  }

  function NextLocks(w: World, p: Pid, action: Action): map<Inode, Pid>
    requires Enabled(w, p, action)
  {
    var phase := PhaseOf(w, p);
    match action
    case LockGuard => w.locks[phase.g := p]
    case LockStale(stale) => w.locks[w.claims[stale] := p]
    case RemoveStale => Dropped(w.locks, phase.s)
    case LockClaim => w.locks[phase.c := p]
    case LockLock => w.locks[phase.l := p]
    case Fail =>
      if phase.Sweeping? then Dropped(w.locks, phase.s)
      else if phase.ClaimLocked? then Dropped(w.locks, phase.c)
      else if phase.LockLocked? then Dropped(w.locks, phase.l)
      else w.locks
    case Drop => Dropped(w.locks, phase.l)
    case Close =>
      if phase.LockDropped? then w.locks else if phase.ClaimRemoved? then Dropped(w.locks, phase.c) else Dropped(w.locks, phase.g)
    case Kill => DroppedBy(w.locks, p)
    case _ => w.locks
  }

  /** A claim of the drop goes only while its path still names it. */
  function NextClaims(w: World, p: Pid, action: Action): map<Name, Inode>
    requires Enabled(w, p, action)
  {
    var phase := PhaseOf(w, p);
    match action
    case RemoveStale => w.claims - {phase.stale}
    case CreateClaim(name, inode) => w.claims[name := inode]
    case Close =>
      if phase.LockDropped? && phase.name in w.claims && w.claims[phase.name] == phase.c then w.claims - {phase.name} else w.claims
    case _ => w.claims
  }

  function After(w: World, p: Pid, action: Action): World
    requires Enabled(w, p, action)
  {
    w.(processes := w.processes[p := NextPhase(w, p, action)],
       locks := NextLocks(w, p, action),
       claims := NextClaims(w, p, action),
       lockPath := if action.OpenLock? then Some(LockInode(w, action.inode)) else w.lockPath,
       guardSure := if action.CheckGuard? then w.guardSure + {p}
                    else if Checked(NextPhase(w, p, action)) then w.guardSure
                    else w.guardSure - {p},
       lockSure := if action.CheckLock? then w.lockSure + {p} else w.lockSure - {p})
  }

  /** What others may do to the paths. */
  datatype Tampering =
    | MoveGuard(to: Inode)
    | MoveLock(with: Option<Inode>)
    | PutClaim(name: Name, inode: Inode)
    | TakeClaim(name: Name)

  function Tampered(w: World, t: Tampering): World {
    match t
    case MoveGuard(to) => w.(guardPath := to, guardSure := {}, guardMoved := true)
    case MoveLock(with) => w.(lockPath := with, lockSure := {}, lockMoved := true)
    case PutClaim(name, inode) => w.(claims := w.claims[name := inode])
    case TakeClaim(name) => w.(claims := w.claims - {name})
  }

  datatype Step = Call(p: Pid, action: Action) | Outside(t: Tampering)

  ghost predicate Next(w: World, step: Step, t: World) {
    match step
    case Call(p, action) => Enabled(w, p, action) && t == After(w, p, action)
    case Outside(tampering) => t == Tampered(w, tampering)
  }

  function Start(guard: Inode, lock: Option<Inode>, claims: map<Name, Inode>): World {
    World(guard, lock, claims, map[], map[], {}, {}, false, false)
  }

  ghost predicate Follows(w: World, t: World) {
    exists step :: Next(w, step, t)
  }

  ghost predicate IsRun(run: seq<World>) {
    && run != [] && run[0] == Start(run[0].guardPath, run[0].lockPath, run[0].claims)
    && forall i | 0 <= i < |run| - 1 :: Follows(run[i], run[i + 1])
  }

  // ---- Who owns which lock --------------------------------------------------------------------

  ghost predicate OwnsIn(locks: map<Inode, Pid>, p: Pid, held: set<Inode>) {
    forall i: Inode :: (i in locks && locks[i] == p) <==> i in held
  }

  /** A process owns exactly the locks of its phase. */
  ghost predicate Owns(w: World, p: Pid) {
    OwnsIn(w.locks, p, Holdings(PhaseOf(w, p)))
  }

  /** A process never holds one inode in two roles. */
  predicate Distinct(phase: Phase) {
    match phase
    case Sweeping(g, _, _, s) => g != s
    case ClaimLocked(g, _, c) => g != c
    case Claimed(g, _, c) => g != c
    case LockOpened(g, _, c, _) => g != c
    case LockLocked(g, _, c, l) => g != c && g != l && c != l
    case Held(g, _, c, l) => g != c && g != l && c != l
    case LockDropped(g, _, c) => g != c
    case ClaimRemoved(g, c) => g != c
    case _ => true
  }

  /** How one action changes the lock table: not at all, or by one lock of p, or by all of them. */
  ghost predicate LocksStep(locks: map<Inode, Pid>, p: Pid, held: set<Inode>, after: map<Inode, Pid>, left: set<Inode>) {
    || (after == locks && left == held)
    || (exists i: Inode :: i !in locks && after == locks[i := p] && left == held + {i})
    || (exists i: Inode :: i in held && after == Dropped(locks, i) && left == held - {i})
    || (left == {} && after == DroppedBy(locks, p))
  }

  lemma LocksStepOwns(locks: map<Inode, Pid>, p: Pid, held: set<Inode>, after: map<Inode, Pid>, left: set<Inode>)
    requires OwnsIn(locks, p, held) && LocksStep(locks, p, held, after, left)
    ensures OwnsIn(after, p, left)
    ensures forall q: Pid, kept: set<Inode> | q != p && OwnsIn(locks, q, kept) :: OwnsIn(after, q, kept)
  {}

  lemma ActionSteps(w: World, p: Pid, action: Action)
    requires Enabled(w, p, action) && Distinct(PhaseOf(w, p))
    ensures LocksStep(w.locks, p, Holdings(PhaseOf(w, p)), NextLocks(w, p, action), Holdings(NextPhase(w, p, action)))
  {
    var phase := PhaseOf(w, p);
    var held, left := Holdings(phase), Holdings(NextPhase(w, p, action));
    if action.LockGuard? {
      assert left == held + {phase.g};
    } else if action.LockStale? {
      assert left == held + {w.claims[action.stale]};
    } else if action.LockClaim? {
      assert left == held + {phase.c};
    } else if action.LockLock? {
      assert left == held + {phase.l};
    } else if action.Kill? {
    } else if phase.Sweeping? {
      assert phase.s in held && left == held - {phase.s};
    } else if phase.ClaimRemoved? || (phase.ClaimLocked? && action.Fail?) {
      assert phase.c in held && left == held - {phase.c};
    } else if phase.Held? || (phase.LockLocked? && action.Fail?) {
      assert phase.l in held && left == held - {phase.l};
    } else if phase.GuardOnly? {
      assert phase.g in held && left == held - {phase.g};
    } else {
      assert left == held;
    }
  }

  /** An open guard is the guard until the path was moved; likewise an open lock file. */
  predicate Bound(w: World, p: Pid) {
    var phase := PhaseOf(w, p);
    && Distinct(phase)
    && (!phase.Idle? && !w.guardMoved ==> phase.g == w.guardPath)
    && ((phase.LockOpened? || phase.LockLocked? || phase.Held?) && !w.lockMoved ==> w.lockPath == Some(phase.l))
    && (p in w.guardSure ==> Checked(phase) && phase.g == w.guardPath)
    && (p in w.lockSure ==> phase.Held? && w.lockPath == Some(phase.l))
    && (Checked(phase) && !w.guardMoved ==> p in w.guardSure)
    && (phase.Held? && !w.lockMoved ==> p in w.lockSure)
  }

  ghost predicate Inv(w: World) {
    forall p: Pid :: Owns(w, p) && Bound(w, p)
  }

  lemma ActionOwns(w: World, p: Pid, action: Action)
    requires Enabled(w, p, action) && Owns(w, p) && Distinct(PhaseOf(w, p))
    ensures Owns(After(w, p, action), p)
    ensures forall q: Pid | q != p && Owns(w, q) :: Owns(After(w, p, action), q)
  {
    hide Holdings, OwnsIn, LocksStep, Enabled, Distinct, NextPhase, NextLocks, NextClaims, LockInode;
    var t := After(w, p, action);
    ActionSteps(w, p, action);
    LocksStepOwns(w.locks, p, Holdings(PhaseOf(w, p)), t.locks, Holdings(PhaseOf(t, p)));
  }

  lemma ActionBinds(w: World, p: Pid, action: Action)
    requires Enabled(w, p, action) && Owns(w, p) && Bound(w, p)
    ensures Bound(After(w, p, action), p)
  {}

  lemma OthersBind(w: World, p: Pid, action: Action, q: Pid)
    requires Enabled(w, p, action) && q != p && Bound(w, q)
    ensures Bound(After(w, p, action), q)
  {
    hide Enabled, NextPhase, NextLocks, NextClaims, Distinct;
  }

  lemma StepKeepsInv(w: World, step: Step, t: World)
    requires Inv(w) && Next(w, step, t)
    ensures Inv(t)
  {
    hide Owns, Bound, Enabled;
    forall q: Pid
      ensures Owns(t, q) && Bound(t, q)
    {
      assert Owns(w, q) && Bound(w, q);
      match step {
        case Outside(tampering) =>
          TamperingKeeps(w, tampering, q);
        case Call(p, action) =>
          assert Owns(w, p) && Bound(w, p);
          BoundIsDistinct(w, p);
          ActionOwns(w, p, action);
          if q == p {
            ActionBinds(w, p, action);
          } else {
            OthersBind(w, p, action, q);
          }
      }
    }
  }

  lemma BoundIsDistinct(w: World, p: Pid)
    requires Bound(w, p)
    ensures Distinct(PhaseOf(w, p))
  {}

  lemma TamperingKeeps(w: World, tampering: Tampering, q: Pid)
    requires Owns(w, q) && Bound(w, q)
    ensures Owns(Tampered(w, tampering), q) && Bound(Tampered(w, tampering), q)
  {}

  lemma {:induction false} RunInv(run: seq<World>, i: nat)
    requires IsRun(run) && i < |run|
    ensures Inv(run[i])
  {
    hide Next;
    if i > 0 {
      RunInv(run, i - 1);
      assert Follows(run[i - 1], run[i - 1 + 1]);
      var step :| Next(run[i - 1], step, run[i]);
      StepKeepsInv(run[i - 1], step, run[i]);
    }
  }

  // ---- Theorems -------------------------------------------------------------------------------------

  /**
   Two processes hold the lease at once only if, since the last check of the one or of the other, the
   guard was moved from its path, and likewise the lock file. Whatever was moved before these checks,
   and whatever else is moved at any time, there is at most one holder.
   */
  lemma MutualExclusion(run: seq<World>, i: nat, p: Pid, q: Pid)
    requires IsRun(run) && i < |run|
    requires PhaseOf(run[i], p).Held? && PhaseOf(run[i], q).Held?
    ensures p == q || (!(p in run[i].guardSure && q in run[i].guardSure) && !(p in run[i].lockSure && q in run[i].lockSure))
  {
    RunInv(run, i);
    var w := run[i];
    assert Owns(w, p) && Bound(w, p) && Owns(w, q) && Bound(w, q);
    var a, b := PhaseOf(w, p), PhaseOf(w, q);
    assert a.g in Holdings(a) && a.l in Holdings(a) && b.g in Holdings(b) && b.l in Holdings(b);
  }

  /** With the guard or the lock file never moved there is at most one holder. */
  lemma ExclusionInPlace(run: seq<World>, i: nat, p: Pid, q: Pid)
    requires IsRun(run) && i < |run|
    requires PhaseOf(run[i], p).Held? && PhaseOf(run[i], q).Held?
    ensures p == q || (run[i].guardMoved && run[i].lockMoved)
  {
    RunInv(run, i);
    assert Bound(run[i], p) && Bound(run[i], q);
    MutualExclusion(run, i, p, q);
  }

  /** While the guard stays, at most one process is anywhere between taking and releasing it. */
  lemma GuardExcludes(run: seq<World>, i: nat, p: Pid, q: Pid)
    requires IsRun(run) && i < |run| && !run[i].guardMoved
    requires Holdings(PhaseOf(run[i], p)) != {} && Holdings(PhaseOf(run[i], q)) != {}
    ensures p == q
  {
    RunInv(run, i);
    var w := run[i];
    assert Owns(w, p) && Bound(w, p) && Owns(w, q) && Bound(w, q);
    assert PhaseOf(w, p).g in Holdings(PhaseOf(w, p)) && PhaseOf(w, q).g in Holdings(PhaseOf(w, q));
  }

  /** A process that is back at Idle, by a failure, a drop or a kill, owns no lock. */
  lemma IdleOwnsNothing(run: seq<World>, i: nat, p: Pid, inode: Inode)
    requires IsRun(run) && i < |run|
    requires PhaseOf(run[i], p).Idle?
    ensures inode in run[i].locks ==> run[i].locks[inode] != p
  {
    RunInv(run, i);
    assert Owns(run[i], p);
  }

  /** How many of its own calls a process is from Idle once it starts to let go. */
  function Distance(phase: Phase): nat {
    match phase
    case Idle => 0
    case GuardOpened(_) => 1
    case GuardLocked(_) => 2
    case Namespace(_) => 2
    case Scanned(_, _) => 2
    case Sweeping(_, _, _, _) => 2
    case ClaimOpened(_, _, _) => 2
    case ClaimLocked(_, _, _) => 2
    case Claimed(_, _, _) => 4
    case LockOpened(_, _, _, _) => 4
    case LockLocked(_, _, _, _) => 4
    case Held(_, _, _, _) => 4
    case LockDropped(_, _, _) => 3
    case ClaimRemoved(_, _) => 2
    case GuardOnly(_) => 1
  }

  function LettingGo(phase: Phase): Action {
    if phase.Held? then Drop
    else if phase.LockDropped? || phase.ClaimRemoved? || phase.GuardOnly? then Close
    else Fail
  }

  /** From every phase a process can let go on its own, whatever the others did, within four calls. */
  lemma LettingGoNeverBlocks(w: World, p: Pid)
    requires !PhaseOf(w, p).Idle?
    ensures Enabled(w, p, LettingGo(PhaseOf(w, p)))
    ensures Distance(NextPhase(w, p, LettingGo(PhaseOf(w, p)))) == Distance(PhaseOf(w, p)) - 1 < 4
  {}

  /** Short of a kill, the guard is the last lock a process gives back. */
  lemma GuardReleasedLast(w: World, p: Pid, action: Action)
    requires Enabled(w, p, action) && !action.Kill? && Distinct(PhaseOf(w, p))
    requires Holdings(PhaseOf(w, p)) != {}
    requires Holdings(NextPhase(w, p, action)) == {} || NextPhase(w, p, action).g != PhaseOf(w, p).g
    ensures Holdings(PhaseOf(w, p)) == {PhaseOf(w, p).g} && action == Close
  {}

  /** The claim of a live owner is listed by the scan and still in its place. */
  predicate SeesClaim(w: World, q: Pid, name: Name) {
    var phase := PhaseOf(w, q);
    (phase.Scanned? || phase.Sweeping?) && name in phase.todo && (phase.Sweeping? ==> phase.stale != name)
  }

  /**
   A process that lists the claim of another owner does not get past its scan while that claim is
   locked and in place: it stays in the scan or gives up.
   */
  lemma LiveClaimStopsScan(w: World, q: Pid, action: Action, name: Name)
    requires SeesClaim(w, q, name) && Enabled(w, q, action)
    requires name in w.claims && w.claims[name] in w.locks
    ensures SeesClaim(After(w, q, action), q, name)
         || NextPhase(w, q, action).GuardOnly? || NextPhase(w, q, action).Idle?
    ensures name in NextClaims(w, q, action)
  {}

  /** The claim of a process that holds the lease is locked; in its place it stops every later scan. */
  lemma HolderShowsClaim(run: seq<World>, i: nat, p: Pid, q: Pid)
    requires IsRun(run) && i < |run|
    requires PhaseOf(run[i], p).Held? && PhaseOf(run[i], q).Namespace?
    requires var held := PhaseOf(run[i], p); held.name in run[i].claims && run[i].claims[held.name] == held.c
    ensures Enabled(run[i], q, Scan)
    ensures SeesClaim(After(run[i], q, Scan), q, PhaseOf(run[i], p).name)
    ensures PhaseOf(run[i], p).c in run[i].locks
  {
    RunInv(run, i);
    assert Owns(run[i], p);
    assert PhaseOf(run[i], p).c in Holdings(PhaseOf(run[i], p));
  }

  /** A claim that passed its check is in its place until the drop is through with it, a stale one until it is swept. */
  predicate InPlace(w: World, p: Pid) {
    var phase := PhaseOf(w, p);
    && ((phase.Claimed? || phase.LockOpened? || phase.LockLocked? || phase.Held? || phase.LockDropped?) ==>
          phase.name in w.claims && w.claims[phase.name] == phase.c)
    && (phase.Sweeping? ==> phase.stale in phase.todo && phase.stale in w.claims && w.claims[phase.stale] == phase.s)
  }

  /** A call removes no claim but one whose lock the caller has, and replaces none. */
  lemma ClaimsStep(w: World, p: Pid, action: Action)
    requires Enabled(w, p, action) && InPlace(w, p)
    ensures forall name | name in w.claims && w.claims[name] !in Holdings(PhaseOf(w, p)) ::
              name in NextClaims(w, p, action) && NextClaims(w, p, action)[name] == w.claims[name]
  {}

  lemma OwnPlace(w: World, p: Pid, action: Action)
    requires Enabled(w, p, action) && InPlace(w, p)
    ensures InPlace(After(w, p, action), p)
  {
    hide NextLocks, Holdings;
  }

  lemma OthersPlace(w: World, p: Pid, action: Action, q: Pid)
    requires Enabled(w, p, action) && q != p && Owns(w, p) && Owns(w, q) && InPlace(w, p) && InPlace(w, q)
    ensures InPlace(After(w, p, action), q)
  {
    ClaimsStep(w, p, action);
    OwnedBy(w, p, q);
    hide Enabled, NextPhase, NextLocks, NextClaims, Owns;
  }

  lemma OwnedBy(w: World, p: Pid, q: Pid)
    requires q != p && Owns(w, p) && Owns(w, q)
    ensures Holdings(PhaseOf(w, p)) !! Holdings(PhaseOf(w, q))
  {
    hide Holdings;
  }

  /** The step leaves the claims alone, unless it is a call of a process. */
  ghost predicate Undisturbed(w: World, t: World) {
    exists step :: Next(w, step, t) && (step.Call? || step.t.MoveGuard? || step.t.MoveLock?)
  }

  /**
   As long as nobody but the processes touches the claims, and whatever happens to guard and lock file:
   no process ever replaces or removes the claim of another one that is past its check.
   */
  lemma {:induction false} LiveClaimStays(run: seq<World>, i: nat, p: Pid)
    requires IsRun(run) && i < |run| && forall j | 0 <= j < i :: Undisturbed(run[j], run[j + 1])
    ensures InPlace(run[i], p)
  {
    hide Owns, Enabled, InPlace;
    if i == 0 {
      NobodyYet(run[0], p);
    } else {
      var k := i - 1;
      RunInv(run, k);
      assert Undisturbed(run[k], run[k + 1]);
      var step :| Next(run[k], step, run[i]) && (step.Call? || step.t.MoveGuard? || step.t.MoveLock?);
      LiveClaimStays(run, k, p);
      assert Owns(run[k], p);
      if step.Call? {
        LiveClaimStays(run, k, step.p);
        assert Owns(run[k], step.p);
        if step.p == p {
          OwnPlace(run[k], p, step.action);
        } else {
          OthersPlace(run[k], step.p, step.action, p);
        }
      } else {
        MoveKeepsPlaces(run[k], step.t, p);
      }
    }
  }

  lemma NobodyYet(w: World, p: Pid)
    requires w == Start(w.guardPath, w.lockPath, w.claims)
    ensures InPlace(w, p)
  {}

  lemma MoveKeepsPlaces(w: World, tampering: Tampering, p: Pid)
    requires InPlace(w, p) && (tampering.MoveGuard? || tampering.MoveLock?)
    ensures InPlace(Tampered(w, tampering), p)
  {}

  // ---- An undisturbed acquire, and what two moved files allow ----------------------------------------

  function Last(run: seq<World>): World
    requires run != []
  {
    run[|run| - 1]
  }

  lemma Extend(run: seq<World>, step: Step, t: World)
    requires run != [] && IsRun(run) && Next(Last(run), step, t)
    ensures IsRun(run + [t])
  {
    hide Next;
    var longer := run + [t];
    forall i | 0 <= i < |longer| - 1
      ensures Follows(longer[i], longer[i + 1])
    {
      if i < |run| - 1 {
        assert Follows(run[i], run[i + 1]);
      }
    }
  }

  /** One more call of p, at the end of a run. */
  lemma Calls(run: seq<World>, p: Pid, action: Action) returns (longer: seq<World>)
    requires run != [] && IsRun(run) && Enabled(Last(run), p, action)
    ensures longer != [] && IsRun(longer) && Last(longer) == After(Last(run), p, action)
  {
    hide IsRun;
    longer := run + [After(Last(run), p, action)];
    Extend(run, Call(p, action), After(Last(run), p, action));
  }

  lemma Tampers(run: seq<World>, tampering: Tampering) returns (longer: seq<World>)
    requires run != [] && IsRun(run)
    ensures longer != [] && IsRun(longer) && Last(longer) == Tampered(Last(run), tampering)
  {
    hide IsRun;
    longer := run + [Tampered(Last(run), tampering)];
    Extend(run, Outside(tampering), Tampered(Last(run), tampering));
  }

  /** The world in which p has the lease and nothing else has changed. */
  function Granted(w: World, p: Pid, name: Name, claim: Inode, lock: Inode): World {
    w.(guardSure := w.guardSure + {p}, lockSure := w.lockSure + {p},
       processes := w.processes[p := Held(w.guardPath, name, claim, lock)],
       locks := w.locks[w.guardPath := p][claim := p][lock := p],
       claims := map[name := claim],
       lockPath := Some(lock))
  }

  /** Nobody has the guard, the new claim or the lock file, and whatever claims are left behind have no owner. */
  predicate Free(w: World, p: Pid, claim: Inode, lock: Inode) {
    && PhaseOf(w, p).Idle? && (forall name | name in w.claims :: w.claims[name] !in w.locks && w.claims[name] != w.guardPath)
    && w.guardPath !in w.locks && claim !in w.locks && lock !in w.locks
    && w.guardPath != claim && w.guardPath != lock && claim != lock
    && (w.lockPath.Some? ==> w.lockPath.value == lock)
  }

  lemma TakeGuard(run: seq<World>, p: Pid) returns (longer: seq<World>)
    requires run != [] && IsRun(run) && PhaseOf(Last(run), p).Idle? && Last(run).guardPath !in Last(run).locks
    ensures longer != [] && IsRun(longer)
    ensures var w := Last(run);
            Last(longer) == w.(processes := w.processes[p := GuardLocked(w.guardPath)], locks := w.locks[w.guardPath := p],
                               guardSure := w.guardSure - {p}, lockSure := w.lockSure - {p})
  {
    hide IsRun;
    longer := Calls(run, p, OpenGuard);
    longer := Calls(longer, p, LockGuard);
  }

  lemma EnterNamespace(run: seq<World>, p: Pid) returns (longer: seq<World>)
    requires run != [] && IsRun(run) && PhaseOf(Last(run), p) == GuardLocked(Last(run).guardPath)
    ensures longer != [] && IsRun(longer)
    ensures var w := Last(run);
            Last(longer) == w.(processes := w.processes[p := Scanned(w.guardPath, w.claims.Keys)],
                               guardSure := w.guardSure + {p}, lockSure := w.lockSure - {p})
  {
    hide IsRun;
    longer := Calls(run, p, CheckGuard);
    longer := Calls(longer, p, Scan);
  }

  /** One claim without an owner is locked and removed. */
  lemma SweepOne(run: seq<World>, p: Pid, stale: Name) returns (longer: seq<World>)
    requires run != [] && IsRun(run) && PhaseOf(Last(run), p) == Scanned(Last(run).guardPath, Last(run).claims.Keys)
    requires stale in Last(run).claims && Last(run).claims[stale] !in Last(run).locks
    ensures longer != [] && IsRun(longer)
    ensures var w := Last(run);
            Last(longer) == w.(processes := w.processes[p := Scanned(w.guardPath, (w.claims - {stale}).Keys)],
                               claims := w.claims - {stale}, lockSure := w.lockSure - {p})
  {
    hide IsRun;
    ghost var w := Last(run);
    longer := Calls(run, p, LockStale(stale));
    longer := Calls(longer, p, RemoveStale);
    assert w.claims.Keys - {stale} == (w.claims - {stale}).Keys;
    assert Dropped(w.locks[w.claims[stale] := p], w.claims[stale]) == w.locks;
  }

  /** All of them, one after another. */
  lemma {:induction false} SweepAll(run: seq<World>, p: Pid) returns (longer: seq<World>)
    requires run != [] && IsRun(run) && PhaseOf(Last(run), p) == Scanned(Last(run).guardPath, Last(run).claims.Keys)
    requires forall name | name in Last(run).claims :: Last(run).claims[name] !in Last(run).locks
    requires p !in Last(run).lockSure
    ensures longer != [] && IsRun(longer)
    ensures var w := Last(run); Last(longer) == w.(processes := w.processes[p := Scanned(w.guardPath, {})], claims := map[])
    decreases |Last(run).claims|
  {
    hide IsRun;
    ghost var w := Last(run);
    if w.claims == map[] {
      assert w.claims.Keys == {};
      assert w.processes[p := Scanned(w.guardPath, {})] == w.processes;
      longer := run;
    } else {
      var stale :| stale in w.claims;
      longer := SweepOne(run, p, stale);
      ghost var next := Scanned(w.guardPath, (w.claims - {stale}).Keys);
      assert Last(longer).lockSure == w.lockSure;
      longer := SweepAll(longer, p);
      assert w.processes[p := next][p := Scanned(w.guardPath, {})] == w.processes[p := Scanned(w.guardPath, {})];
    }
  }

  lemma MakeClaim(run: seq<World>, p: Pid, name: Name, claim: Inode) returns (longer: seq<World>)
    requires run != [] && IsRun(run) && PhaseOf(Last(run), p) == Scanned(Last(run).guardPath, {}) && Last(run).claims == map[]
    requires claim !in Last(run).locks
    ensures longer != [] && IsRun(longer)
    ensures var w := Last(run);
            Last(longer) == w.(processes := w.processes[p := ClaimLocked(w.guardPath, name, claim)],
                               locks := w.locks[claim := p], claims := map[name := claim], lockSure := w.lockSure - {p})
  {
    hide IsRun;
    longer := Calls(run, p, CreateClaim(name, claim));
    longer := Calls(longer, p, LockClaim);
  }

  lemma OpenLockFile(run: seq<World>, p: Pid, name: Name, claim: Inode, lock: Inode) returns (longer: seq<World>)
    requires run != [] && IsRun(run) && PhaseOf(Last(run), p) == ClaimLocked(Last(run).guardPath, name, claim)
    requires Last(run).claims == map[name := claim]
    requires Last(run).lockPath.Some? ==> Last(run).lockPath.value == lock
    ensures longer != [] && IsRun(longer)
    ensures var w := Last(run);
            Last(longer) == w.(processes := w.processes[p := LockOpened(w.guardPath, name, claim, lock)],
                               lockPath := Some(lock), lockSure := w.lockSure - {p})
  {
    hide IsRun;
    longer := Calls(run, p, CheckClaim);
    longer := Calls(longer, p, OpenLock(lock));
  }

  lemma TakeLock(run: seq<World>, p: Pid, name: Name, claim: Inode, lock: Inode) returns (longer: seq<World>)
    requires run != [] && IsRun(run) && PhaseOf(Last(run), p) == LockOpened(Last(run).guardPath, name, claim, lock)
    requires lock !in Last(run).locks && Last(run).lockPath == Some(lock)
    ensures longer != [] && IsRun(longer)
    ensures var w := Last(run);
            Last(longer) == w.(processes := w.processes[p := Held(w.guardPath, name, claim, lock)],
                               locks := w.locks[lock := p], lockSure := w.lockSure + {p})
  {
    hide IsRun;
    longer := Calls(run, p, LockLock);
    longer := Calls(longer, p, CheckLock);
  }

  /** The world in which p has guard and claim locked. */
  function WithClaim(w: World, p: Pid, name: Name, claim: Inode): World {
    w.(guardSure := w.guardSure + {p}, lockSure := w.lockSure - {p},
       processes := w.processes[p := ClaimLocked(w.guardPath, name, claim)],
       locks := w.locks[w.guardPath := p][claim := p],
       claims := map[name := claim])
  }

  lemma TakeClaimLock(run: seq<World>, p: Pid, name: Name, claim: Inode, lock: Inode) returns (longer: seq<World>)
    requires run != [] && IsRun(run) && Free(Last(run), p, claim, lock)
    ensures longer != [] && IsRun(longer) && Last(longer) == WithClaim(Last(run), p, name, claim)
  {
    hide IsRun;
    ghost var w := Last(run);
    longer := TakeGuard(run, p);
    longer := EnterNamespace(longer, p);
    longer := SweepAll(longer, p);
    longer := MakeClaim(longer, p, name, claim);
    assert Last(longer).processes == WithClaim(w, p, name, claim).processes;
    assert Last(longer).guardSure == w.guardSure + {p};
  }

  /** A process that runs alone gets a free lease, and leaves its own claim only, however many were left behind. */
  lemma FreeLeaseIsGranted(run: seq<World>, p: Pid, name: Name, claim: Inode, lock: Inode) returns (longer: seq<World>)
    requires run != [] && IsRun(run) && Free(Last(run), p, claim, lock)
    ensures longer != [] && IsRun(longer) && Last(longer) == Granted(Last(run), p, name, claim, lock)
  {
    hide IsRun;
    ghost var w := Last(run);
    longer := TakeClaimLock(run, p, name, claim, lock);
    longer := OpenLockFile(longer, p, name, claim, lock);
    longer := TakeLock(longer, p, name, claim, lock);
    assert Last(longer).processes == Granted(w, p, name, claim, lock).processes;
    assert Last(longer).lockSure == w.lockSure + {p};
  }

  /** What is held is given back in four calls: the three locks and, if it is still in its place, the claim. */
  lemma LeaseIsReturned(run: seq<World>, p: Pid) returns (longer: seq<World>)
    requires run != [] && IsRun(run) && PhaseOf(Last(run), p).Held?
    ensures longer != [] && IsRun(longer)
    ensures var w := Last(run); var held := PhaseOf(w, p);
            Last(longer) == w.(processes := w.processes[p := Idle],
                               locks := Dropped(Dropped(Dropped(w.locks, held.l), held.c), held.g),
                               claims := if held.name in w.claims && w.claims[held.name] == held.c then w.claims - {held.name} else w.claims,
                               guardSure := w.guardSure - {p}, lockSure := w.lockSure - {p})
  {
    hide IsRun;
    longer := Calls(run, p, Drop);
    longer := Calls(longer, p, Close);
    longer := Calls(longer, p, Close);
    longer := Calls(longer, p, Close);
  }

  /** With the guard and the lock file both moved away, a second holder is possible. */
  lemma TwoHoldersWhenBothMoved() returns (run: seq<World>)
    ensures run != [] && IsRun(run)
    ensures PhaseOf(Last(run), 1).Held? && PhaseOf(Last(run), 2).Held?
  {
    hide IsRun;
    run := [Start(10, None, map[])];
    StartIsRun(run);
    run := FreeLeaseIsGranted(run, 1, 0, 11, 12);
    run := Tampers(run, MoveGuard(20));
    run := Tampers(run, MoveLock(None));
    run := Tampers(run, TakeClaim(0));
    assert Last(run).claims == map[];
    run := FreeLeaseIsGranted(run, 2, 0, 21, 22);
  }

  lemma StartIsRun(run: seq<World>)
    requires |run| == 1 && run[0] == Start(run[0].guardPath, run[0].lockPath, run[0].claims)
    ensures IsRun(run)
  {}
}
