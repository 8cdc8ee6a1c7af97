/** The updater as an object that changes its link and saved state step by step.
    Everything the environment decides is an answer given to the method. Each
    step is an event of the state machine, so every run of these methods is one
    of its runs. */
module UpdaterProcess {
  import opened Wrappers
  import opened Updater

  /** How each call of an activation turns out. */
  datatype Answers = Answers(
    storage: bool, lease: bool, record: Outcome, redirect: Outcome, healthy: bool, reported: bool, clear: Outcome,
    oldStorage: bool, back: Outcome, oldHealthy: bool, forget: Outcome)

  datatype Verdict = Refused | Activated | RolledBack | Raised

  class Process {
    var link: Image
    var disk: Saved
    var memory: Saved
    var original: Image
    ghost const first: Image
    ghost var phase: Phase
    ghost var checked: set<Image>
    ghost var confirmed: set<Image>
    ghost var trace: seq<Event>

    ghost function Current(): State reads this { State(link, disk, memory, original, phase, checked, confirmed) }

    /** The fields are where the events so far lead. */
    ghost predicate Valid() reads this { Current() == Run(Initial(first), trace) }

    constructor (image: Image)
      ensures Valid() && Current() == Initial(image) && trace == []
    {
      link, original, first := image, image, image;
      disk, memory := NOTHING_SAVED, NOTHING_SAVED;
      phase, checked, confirmed, trace := Stopped, {}, {image}, [];
    }

    /** An event that changes no field of the program. */
    ghost method Follow(e: Event)
      requires Valid()
      requires var s := Next(Current(), e);
               s.link == link && s.disk == disk && s.memory == memory && s.original == original
      modifies this`phase, this`checked, this`confirmed, this`trace
      ensures Valid() && Current() == Next(old(Current()), e) && trace == old(trace) + [e]
    {
      var s := Next(Current(), e);
      assert (trace + [e])[..|trace|] == trace;
      phase, checked, confirmed, trace := s.phase, s.checked, s.confirmed, trace + [e];
    }

    /** `os.replace` and the directory sync after it. */
    method SwitchLink(target: Image, outcome: Outcome)
      requires Valid()
      requires Next(Current(), Switch(outcome))
              == Redirect(Current(), target, outcome).(phase := Next(Current(), Switch(outcome)).phase)
      modifies this
      ensures Valid() && Current() == Next(old(Current()), Switch(outcome)) && trace == old(trace) + [Switch(outcome)]
    {
      ghost var s := Next(Current(), Switch(outcome));
      assert (trace + [Switch(outcome)])[..|trace|] == trace;
      if !outcome.NotDone? { link := target; }
      phase, trace := s.phase, trace + [Switch(outcome)];
    }

    /** The state in memory first, then its file. */
    method SaveState(values: Saved, outcome: Outcome)
      requires Valid()
      requires Next(Current(), Save(outcome))
              == Store(Current(), values, outcome).(phase := Next(Current(), Save(outcome)).phase)
      modifies this
      ensures Valid() && Current() == Next(old(Current()), Save(outcome)) && trace == old(trace) + [Save(outcome)]
    {
      ghost var s := Next(Current(), Save(outcome));
      assert (trace + [Save(outcome)])[..|trace|] == trace;
      memory := values;
      if !outcome.NotDone? { disk := values; }
      phase, trace := s.phase, trace + [Save(outcome)];
    }

    /** A new process starts from the file. */
    method Begin()
      requires Valid() && phase.Stopped?
      modifies this
      ensures Valid() && Current() == Launch(old(Current())) && trace == old(trace) + [Start]
    {
      assert (trace + [Start])[..|trace|] == trace;
      memory, original := disk, link;
      phase, checked, trace := Starting, {}, trace + [Start];
    }

    /** After a process stopped, a new one reads the file and recovers. Either the
        record is cleared with the link on the previous image, or it still stands. */
    method Recover(a: Answers) returns (ready: bool)
      requires Valid() && phase.Stopped?
      modifies this
      ensures Valid() && old(trace) <= trace && ready == phase.Ready? && (!ready ==> phase.Stopped?)
      ensures ready ==> disk.activation.None?
      ensures old(disk).activation.None? ==> ready && link == old(link) && disk == old(disk)
      ensures old(disk).activation.Some? ==> Recovered(Current(), old(disk).activation.value)
      ensures old(disk).activation.Some? && ready ==> link == old(disk).activation.value.previous
    {
      Begin();
      if memory.activation.None? {
        Follow(NothingToRecover);
        return true;
      }
      var action := memory.activation.value;
      Follow(Check(a.oldStorage));
      if !a.oldStorage { return false; }
      ready := Return(action, a);
    }

    /** The way back to the recorded image, under the recorded lease. */
    method Return(action: Activation, a: Answers) returns (ready: bool)
      requires Valid() && phase == RecoveryChecked(action) && memory == disk && disk.activation == Some(action)
      modifies this
      ensures Valid() && old(trace) <= trace && ready == phase.Ready? && (!ready ==> phase.Stopped?)
      ensures ready ==> disk.activation.None? && link == action.previous
      ensures Recovered(Current(), action)
    {
      Follow(Lease(a.lease));
      if !a.lease { return false; }
      SwitchLink(action.previous, a.back);
      if !a.back.Done? { return false; }
      ready := Settle(action, a);
    }

    method Settle(action: Activation, a: Answers) returns (ready: bool)
      requires Valid() && phase == RecoverySwitched(action) && memory == disk && disk.activation == Some(action)
      requires link == action.previous
      modifies this
      ensures Valid() && old(trace) <= trace && ready == phase.Ready? && (!ready ==> phase.Stopped?)
      ensures ready ==> disk.activation.None?
      ensures link == action.previous && Recovered(Current(), action)
    {
      Follow(Health(a.oldHealthy));
      if !a.oldHealthy { return false; }
      Follow(Report(a.reported));
      if !a.reported { return false; }
      SaveState(memory.(activation := None), a.clear);
      return a.clear.Done?;
    }

    method Activate(candidate: Image, version: Version, a: Answers) returns (verdict: Verdict)
      requires Valid() && phase.Ready?
      modifies this
      ensures Valid() && old(trace) <= trace && phase.AfterStep? && original == old(original)
      ensures verdict.Refused? ==> link == old(link) && disk == old(disk) && memory == old(memory)
      ensures verdict.Activated? ==> link == candidate && link in confirmed && disk.activation.None?
      ensures verdict.RolledBack?
              ==> link == old(Fallback(Current(), candidate)) && link in confirmed && memory.activation.None?
      ensures verdict.Raised? && link != old(link) ==> link in checked
    {
      if !a.storage {
        Follow(Idle);
        return Refused;
      }
      Follow(Event.Begin(candidate, version));
      var previous := if link == candidate && memory.rollback.Some? then memory.rollback.value else link;
      Follow(Lease(a.lease));
      if !a.lease { return Refused; }
      verdict := Install(Activation(previous, candidate, version), a);
    }

    /** The record, the redirect, and what follows it. */
    method Install(attempt: Activation, a: Answers) returns (verdict: Verdict)
      requires Valid() && phase == Leased(attempt) && attempt.candidate in checked
      modifies this
      ensures Valid() && old(trace) <= trace && phase.AfterStep? && original == old(original) && !verdict.Refused?
      ensures verdict.Activated? ==> link == attempt.candidate && link in confirmed && disk.activation.None?
      ensures verdict.RolledBack? ==> link == attempt.previous && link in confirmed && memory.activation.None?
      ensures verdict.Raised? && link != old(link) ==> link in checked
    {
      SaveState(memory.(activation := Some(attempt), rollback := Some(attempt.previous)), a.record);
      if !a.record.Done? { return Raised; }
      SwitchLink(attempt.candidate, a.redirect);
      if !a.redirect.Done? { return Raised; }
      verdict := Confirm(attempt, a);
    }

    /** The new image is live: confirm it, or return to the previous one. */
    method Confirm(attempt: Activation, a: Answers) returns (verdict: Verdict)
      requires Valid() && phase == Switched(attempt) && link == attempt.candidate && link in checked
      modifies this
      ensures Valid() && old(trace) <= trace && phase.AfterStep? && original == old(original)
      ensures !verdict.Refused?
      ensures verdict.Activated? ==> link == attempt.candidate && link in confirmed && disk.activation.None?
      ensures verdict.RolledBack? ==> link == attempt.previous && link in confirmed && memory.activation.None?
      ensures verdict.Raised? ==> link in checked
    {
      Follow(Health(a.healthy));
      if a.healthy {
        Follow(Report(a.reported));
        if a.reported {
          SaveState(memory.(activation := None), a.clear);
          if a.clear.Done? { return Activated; }
        }
      }
      verdict := RollBack(attempt, a);
    }

    /** The handler of an attempt that had switched. */
    method RollBack(attempt: Activation, a: Answers) returns (verdict: Verdict)
      requires Valid() && phase == Raising(attempt) && link in checked
      modifies this
      ensures Valid() && old(trace) <= trace && phase.AfterStep? && original == old(original)
      ensures verdict.RolledBack? || verdict.Raised?
      ensures verdict.RolledBack? ==> link == attempt.previous && link in confirmed && memory.activation.None?
      ensures verdict.Raised? ==> link in checked
    {
      Follow(Check(a.oldStorage));
      if !a.oldStorage { return Raised; }
      SwitchLink(attempt.previous, a.back);
      if !a.back.Done? { return Raised; }
      Follow(Health(a.oldHealthy));
      if !a.oldHealthy { return Raised; }
      SaveState(memory.(activation := None, failed := Some(attempt.version)), a.forget);
      return RolledBack;
    }
  }
}
