/**
 The deferred self-update of src/adapters/system_install/binary.rs:282-350: a script that replaces
 the installed binary after its parent has gone. Any file operation may fail, and the process may
 be killed before or after any of them.
 */
module SelfUpdate {
  import opened Wrappers
  import opened Bytes

  type Binary = seq<Byte>

  /** How one file operation ends; Killed ends the process with it, done or not. */
  datatype Status = Done | Failed | Killed

  datatype Exit = Code(code: nat) | Stopped

  /**
   The files of one update. sha is any hash function. With faultless set every operation that can
   succeed does; failures counts the operations that could have succeeded and failed.
   */
  class Disk {
    const sha: Binary -> string
    const faultless: bool
    var target: Option<Binary>
    var backup: Option<Binary>
    var source: Option<Binary>
    var marker: Option<string>
    var script: bool
    ghost var failures: nat

    constructor (sha: Binary -> string, faultless: bool, target: Option<Binary>, source: Option<Binary>, operationId: string)
      ensures this.faultless == faultless && this.target == target && this.source == source
      ensures backup == None && marker == Some(operationId) && script
    {
      this.sha, this.faultless := sha, faultless;
      this.target, this.backup, this.source := target, None, source;
      this.marker, this.script, this.failures := Some(operationId), true, 0;
    }

    /** Chance of one operation: whether it takes effect, and how it ends. */
    method Chance(possible: bool) returns (effect: bool, status: Status)
      modifies `failures
      ensures failures == old(failures) + if status == Failed && possible then 1 else 0
      ensures effect ==> possible
      ensures status == Done ==> effect
      ensures status == Failed ==> !effect
      ensures faultless && possible ==> status == Done
      ensures faultless ==> status != Killed
    {
      var die, fail := *, *;
      effect := possible && (faultless || !fail);
      status := if die && !faultless then Killed else if effect then Done else Failed;
      if status == Failed && possible {
        failures := failures + 1;
      }
    }

    method MoveTargetToBackup() returns (status: Status)
      modifies `target, `backup, `failures
      ensures failures == old(failures) + if status == Failed && old(target).Some? then 1 else 0
      ensures (target == None && old(target).Some? && backup == old(target) && status != Failed)
           || (target == old(target) && backup == old(backup) && status != Done)
      ensures faultless && old(target).Some? ==> status == Done
      ensures faultless ==> status != Killed
    {
      var effect;
      effect, status := Chance(target.Some?);
      if effect {
        target, backup := None, target;
      }
    }

    method MoveSourceToTarget() returns (status: Status)
      modifies `source, `target, `failures
      ensures failures == old(failures) + if status == Failed && old(source).Some? then 1 else 0
      ensures (source == None && old(source).Some? && target == old(source) && status != Failed)
           || (source == old(source) && target == old(target) && status != Done)
      ensures faultless && old(source).Some? ==> status == Done
      ensures faultless ==> status != Killed
    {
      var effect;
      effect, status := Chance(source.Some?);
      if effect {
        source, target := None, source;
      }
    }

    method MoveBackupToTarget() returns (status: Status)
      modifies `backup, `target, `failures
      ensures failures == old(failures) + if status == Failed && old(backup).Some? then 1 else 0
      ensures (backup == None && old(backup).Some? && target == old(backup) && status != Failed)
           || (backup == old(backup) && target == old(target) && status != Done)
      ensures faultless && old(backup).Some? ==> status == Done
      ensures faultless ==> status != Killed
    {
      var effect;
      effect, status := Chance(backup.Some?);
      if effect {
        backup, target := None, backup;
      }
    }

    /** Remove-Item with SilentlyContinue: a failure goes unnoticed, being killed does not. */
    method RemoveBackup() returns (killed: bool)
      modifies `backup, `failures
      ensures !killed ==> (backup == None && failures == old(failures)) || (backup == old(backup) && failures == old(failures) + 1)
      ensures killed ==> failures == old(failures)
      ensures backup == None || backup == old(backup)
      ensures faultless ==> !killed && backup == None
    {
      var effect, status := Chance(backup.Some?);
      if effect {
        backup := None;
      }
      killed := status == Killed;
    }

    method RemoveSource() returns (killed: bool)
      modifies `source, `failures
      ensures !killed ==> (source == None && failures == old(failures)) || (source == old(source) && failures == old(failures) + 1)
      ensures killed ==> failures == old(failures)
      ensures source == None || source == old(source)
      ensures faultless ==> !killed && source == None
    {
      var effect, status := Chance(source.Some?);
      if effect {
        source := None;
      }
      killed := status == Killed;
    }

    method RemoveMarker() returns (killed: bool)
      modifies `marker, `failures
      ensures !killed ==> (marker == None && failures == old(failures)) || (marker == old(marker) && failures == old(failures) + 1)
      ensures killed ==> failures == old(failures)
      ensures marker == None || marker == old(marker)
      ensures faultless ==> !killed && marker == None
    {
      var effect, status := Chance(marker.Some?);
      if effect {
        marker := None;
      }
      killed := status == Killed;
    }

    method RemoveScript() returns (killed: bool)
      modifies `script, `failures
      ensures !killed ==> (!script && failures == old(failures)) || (script == old(script) && failures == old(failures) + 1)
      ensures killed ==> failures == old(failures)
      ensures script ==> old(script)
      ensures faultless ==> !killed && !script
    {
      var effect, status := Chance(script);
      if effect {
        script := false;
      }
      killed := status == Killed;
    }

    method Read() returns (status: Status)
      modifies `failures
      ensures failures == old(failures) + if status == Failed then 1 else 0
      ensures faultless ==> status == Done
    {
      var effect;
      effect, status := Chance(true);
    }

    /** The try block: hash, move away, move in. thrown tells whether it left by an exception. */
    method Replace(expectedSha: string) returns (status: Status, targetMoved: bool, exitCode: nat)
      modifies `target, `backup, `source, `failures
      ensures failures >= old(failures)
      ensures status == Failed && old(target).Some? && old(source).Some? ==> failures == old(failures) + 1
      ensures status == Done && exitCode == 0 && failures == old(failures) ==> backup == None
      ensures status == Done && exitCode == 3 ==> failures == old(failures)
      ensures status == Done ==> exitCode == 0 || exitCode == 3
      ensures status == Done && exitCode == 0 ==>
                old(target).Some? && sha(old(target).value) == expectedSha
                && old(source).Some? && target == old(source) && source == None
      ensures status == Done && exitCode == 3 ==> old(target).Some? && sha(old(target).value) != expectedSha
      ensures old(target).Some? && sha(old(target).value) != expectedSha ==>
                target == old(target) && backup == old(backup) && source == old(source)
      ensures status == Failed ==> source == old(source)
                                   && if targetMoved then target == None && old(target).Some? && backup == old(target)
                                      else target == old(target) && backup == old(backup)
      ensures old(target).Some? ==> target == old(target) || (target == None && backup == old(target)) || (old(source).Some? && target == old(source))
      ensures faultless && old(target).Some? && old(source).Some? ==> status == Done
      ensures faultless && status == Done && exitCode == 0 ==> backup == None
      ensures faultless ==> status != Killed
    {
      exitCode, targetMoved := 0, false;
      if target == None {
        return Failed, false, 0;
      }
      status := Read();
      if status != Done {
        return;
      }
      if sha(target.value) != expectedSha {
        exitCode := 3;
        return;
      }
      status := MoveTargetToBackup();
      if status != Done {
        return;
      }
      targetMoved := true;
      status := MoveSourceToTarget();
      if status != Done {
        return;
      }
      targetMoved := false;
      var killed := RemoveBackup();
      if killed {
        status := Killed;
      }
    }

    /** The whole script. */
    method RunUpdateScript(expectedSha: string, operationId: string) returns (exit: Exit)
      modifies this
      // A complete binary stays at one of the two places, however the script ends.
      ensures old(target).Some? ==>
                target == old(target) || backup == old(target) || (old(source).Some? && target == old(source))
      // A target that is not the expected one is left alone.
      ensures old(target).Some? && sha(old(target).value) != expectedSha ==> target == old(target)
      ensures exit == Code(3) ==> old(target).Some? && sha(old(target).value) != expectedSha && target == old(target)
      ensures exit == Code(0) ==> old(target).Some? && sha(old(target).value) == expectedSha
                                  && old(source).Some? && target == old(source)
      // One failing operation is made good: the old or the new binary is at the target, and no backup is left.
      ensures exit.Code? && old(target).Some? && old(source).Some? && old(backup).None? && failures <= old(failures) + 1 ==>
                (target == old(target) || target == old(source)) && backup == None
      // Only the marker of this operation is ever removed.
      ensures marker == old(marker) || (marker == None && old(marker) == Some(operationId))
      // Without faults the update happens and nothing is left over.
      ensures faultless && old(target).Some? && old(source).Some? ==>
                exit == Code(if sha(old(target).value) == expectedSha then 0 else 3)
      ensures faultless && old(target).Some? && old(source).Some? ==>
                backup == None && source == None && !script && (old(marker) == Some(operationId) ==> marker == None)
    {
      var status, targetMoved, exitCode := Replace(expectedSha);
      if status == Killed {
        return Stopped;
      }
      var uncaught := false;
      if status == Failed {
        if targetMoved && backup.Some? {
          status := MoveBackupToTarget();
          if status == Killed {
            return Stopped;
          }
          uncaught := status == Failed;
        }
        exitCode := 1;
      }
      status := CleanUp(operationId);
      exit := if status == Killed then Stopped else Code(if uncaught || status == Failed then 1 else exitCode);
    }

    /** The finally block; Failed is an exception out of it, which only reading the marker raises. */
    method CleanUp(operationId: string) returns (status: Status)
      modifies `source, `backup, `marker, `script, `failures
      ensures failures >= old(failures)
      ensures backup == old(backup) || (backup == None && target.Some?)
      ensures status != Killed && target.Some? && failures == old(failures) ==> backup == None
      ensures status != Killed && old(backup) == None ==> backup == None
      ensures marker == old(marker) || (marker == None && old(marker) == Some(operationId))
      ensures status == Failed ==> failures > old(failures)
      ensures faultless ==> status == Done && source == None && !script && (old(marker) == Some(operationId) ==> marker == None)
      ensures faultless && target.Some? ==> backup == None
    {
      var killed := RemoveSource();
      if killed {
        return Killed;
      }
      if backup.Some? && target.Some? {
        killed := RemoveBackup();
        if killed {
          return Killed;
        }
      }
      if marker.Some? {
        status := Read();
        if status != Done {
          return;
        }
        if marker.value == operationId {
          killed := RemoveMarker();
          if killed {
            return Killed;
          }
        }
      }
      killed := RemoveScript();
      status := if killed then Killed else Done;
    }

    /** create_new: the marker is taken only when there is none; a failed write takes it back. */
    method ReserveMarker(operationId: string) returns (status: Status)
      modifies `marker, `failures
      ensures old(marker).Some? ==> marker == old(marker) && status != Done
      ensures status == Done ==> marker == Some(operationId)
      ensures failures >= old(failures)
      ensures status == Done ==> failures == old(failures)
      ensures status == Failed && old(marker).None? ==> failures > old(failures)
      ensures marker == old(marker) || marker == Some(operationId)
      ensures status == Failed && failures <= old(failures) + 1 ==> marker == old(marker)
      ensures faultless ==> status == (if old(marker) == None then Done else Failed)
    {
      var effect;
      effect, status := Chance(marker == None);
      if !effect {
        return;
      }
      marker := Some(operationId);
      if status == Killed {
        return;
      }
      status := Read();
      if status == Failed {
        var killed := RemoveMarker();
        if killed {
          status := Killed;
        }
      }
    }

    /**
     Scheduling: the new binary is copied beside the staged one, the marker reserved, the script
     written and started. The target is not touched, and a marker that was there already stays.
     */
    method Schedule(staged: Binary, operationId: string) returns (status: Status, expectedSha: string)
      requires !script
      modifies `source, `marker, `script, `failures
      ensures status == Done ==> target.Some? && expectedSha == sha(target.value)
                                 && source == Some(staged) && script && old(marker) == None && marker == Some(operationId)
      ensures status == Failed ==> marker == old(marker) || marker == Some(operationId)
      // One failing operation takes everything back that was put in place.
      ensures status == Failed && failures <= old(failures) + 1 ==> marker == old(marker) && !script
      ensures status == Failed && old(source).None? && old(marker).None? && failures <= old(failures) + 1 ==> source == None
      ensures old(marker).Some? ==> marker == old(marker) && status != Done && !script
      ensures faultless ==> status == (if old(marker) == None && target.Some? then Done else Failed)
      ensures faultless && status == Failed ==> marker == old(marker) && !script
    {
      expectedSha := "";
      status := Read();
      if status != Done {
        return;
      }
      if target == None {
        return Failed, "";
      }
      expectedSha := sha(target.value);
      var effect;
      effect, status := Chance(true);
      if effect {
        source := Some(staged);
      }
      if status != Done {
        return;
      }
      status := ReserveMarker(operationId);
      var killed;
      if status == Failed {
        killed := RemoveSource();
        status := if killed then Killed else Failed;
      }
      if status != Done {
        return;
      }
      // Creating, writing and starting the script; any failure takes everything back.
      effect, status := Chance(true);
      script := effect;
      if status == Done {
        status := Read();
      }
      if status == Done {
        status := Read();
      }
      if status == Failed {
        killed := RemoveScript();
        if killed {
          return Killed, expectedSha;
        }
        killed := RemoveSource();
        if killed {
          return Killed, expectedSha;
        }
        killed := RemoveMarker();
        status := if killed then Killed else Failed;
      }
    }
  }
}
