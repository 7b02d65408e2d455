/**
 pskit/lockdown.py and the step that drives it, as the imperative program they are.

 Every write of a method is one event of the machine: the ghost `trail` is the list of events so
 far, and `Valid()` says that the disk is the one the machine reaches by them. A crash after any
 write therefore leaves a disk the theorems about the machine speak of. Between two writes
 `Others()` lets confirmations of the laptop happen. `deeds` is the list of all that was asked of the system
 and may fail: commands, and the writes whose exceptions are caught.
 */
module LockdownHost {
  import opened Common
  import opened LockdownCommands
  import opened LockdownMachine
  import opened LockdownTheorems

  datatype Failure = AlreadyWaiting | CannotArm | ChangesFailed

  datatype Verdict = NothingPending | Finalized | NotDue | Reverted

  datatype Reply = Confirmed | AlreadyApplied | NotReady | NobodyWaiting | WrongNetwork

  /** How the step confirms a lockdown: by waiting for the laptop, or by itself, for tests. */
  datatype Mode = Wait | TestLocal(testMode: bool)

  datatype StepEnd = LockedDown | ApplyFailed(failure: Failure) | NoTestMode | NotConfirmed(verdict: Verdict)

  /** The disks and logs of a step: once a lockdown waits, before the wait, at each look, and after the wait. */
  datatype Course = Course(armed: Disk, log: seq<Deed>, asked: Disk, seen: seq<Disk>, left: Disk, waited: seq<Deed>)

  /** What other processes may do to the machine while a root command is between two writes. */
  ghost predicate Interfered(s: State, t: State) {
    && t == s.(disk := t.disk, inflight := t.inflight, attempt := t.attempt)
    && t.disk == s.disk.(confirmed := t.disk.confirmed)
    && s.disk.confirmed <= t.disk.confirmed
    && SameAttempt(s, t)
  }

  ghost predicate SameAttempt(s: State, t: State) {
    && (s.attempt.None? ==> t.attempt.None?)
    && (s.attempt.Some? ==> t.attempt.Some? && t.attempt.value == s.attempt.value.(kept := t.attempt.value.kept))
  }

  lemma CopiedMore(d: Disk, i: nat)
    requires i < |UFW_FILES| && d.meta.Some? && Copied(d, i)
    ensures var f := UFW_FILES[i];
            var e := d.(live := d.live.(ufw := d.live.ufw[f := if f in d.saved then d.saved[f] else []]));
            if f in d.meta.value.files && f in d.saved then Copied(e, i + 1) && Goal(e) == Goal(d) else Copied(d, i + 1)
  {
    var f := UFW_FILES[i];
    var e := d.(live := d.live.(ufw := d.live.ufw[f := if f in d.saved then d.saved[f] else []]));
    if f in d.meta.value.files && f in d.saved {
      assert Goal(e).ufw == Goal(d).ufw;
    }
  }

  lemma GoalIgnoresConfirmations(d: Disk, e: Disk)
    requires d.meta.Some? && e == d.(confirmed := e.confirmed)
    ensures Goal(e) == Goal(d)
  {
    assert Goal(e).ufw == Goal(d).ufw;
  }

  lemma IntactSettles(d: Disk, base: Settings, ok: bool)
    requires Intact(d, base)
    ensures Restored(Settled(d, ok), base)
  {
  }

  class Host {
    var disk: Disk
    var readers: set<Nonce>     // laptops that have read the record and not yet written their file
    var nonces: Nonce           // the next nonce `secrets.token_hex` will return
    const hardening: Bytes      // the rendered sshd drop-in
    ghost var start: State
    ghost var trail: seq<Event>
    ghost var machine: State
    ghost var deeds: seq<Deed>
    const sshd: bool            // ssh.service is active

    ghost predicate Valid()
      reads this
    {
      && Fresh(start)
      && machine == Run(start, trail)
      && machine.disk == disk && machine.inflight == readers && machine.hardening == hardening
      && machine.next == nonces
    }

    constructor (live: Settings, timer: bool, hardening: Bytes, sshd: bool)
      ensures Valid() && machine.proc.Idle? && deeds == []
      ensures disk == Disk(live, None, {}, None, None, map[], None, timer)
    {
      disk := Disk(live, None, {}, None, None, map[], None, timer);
      readers, nonces := {}, 0;
      this.hardening, this.sshd := hardening, sshd;
      new;
      start := State(disk, Idle, {}, 0, hardening, None);
      machine := start;
      trail, deeds := [], [];
    }

    /** The run went on from where it was. */
    twostate predicate Forward()
      reads this
    {
      Valid() && start == old(start) && old(trail) <= trail && old(deeds) <= deeds
    }

    ghost method Log(e: Event)
      requires Fresh(start) && machine == Run(start, trail)
      modifies `machine, `trail
      ensures machine == Next(old(machine), e) && machine == Run(start, trail)
      ensures trail == old(trail) + [e]
    {
      RunSnoc(start, trail, e);
      trail := trail + [e];
      machine := Next(machine, e);
    }

    /** Confirmations running beside a root command. */
    method Others()
      requires Valid()
      modifies this
      ensures Forward() && deeds == old(deeds)
      ensures Interfered(old(machine), machine)
    {
      hide Run;
      hide Fresh;
      var turns: nat := *;
      while turns > 0
        invariant Forward() && deeds == old(deeds)
        invariant Interfered(old(machine), machine)
      {
        var n: nat := *;
        if n in readers {
          readers := readers - {n};
          disk := disk.(confirmed := disk.confirmed + {n});
          Log(ConfirmWrite(n));
        } else {
          if disk.pending.Some? && disk.pending.value.applied {
            readers := readers + {disk.pending.value.nonce};
          }
          Log(ConfirmRead);
        }
        turns := turns - 1;
      }
    }

    /** `confirm`: the laptop's command. */
    method Confirm(overTailnet: bool, allowLocal: bool) returns (r: Reply)
      requires Valid()
      modifies this
      ensures Forward() && deeds == old(deeds)
      ensures machine.proc == old(machine.proc) && nonces == old(nonces)
      ensures r.AlreadyApplied? <==> old(disk.pending).None? && old(disk.applied).Some?
      ensures r.NobodyWaiting? <==> old(disk.pending).None? && old(disk.applied).None?
      ensures r.NotReady? <==> old(disk.pending).Some? && !old(disk.pending.value.applied)
      ensures r.Confirmed?
              <==> old(disk.pending).Some? && old(disk.pending.value.applied) && (allowLocal || overTailnet)
      ensures disk == if r.Confirmed?
                      then old(disk).(confirmed := old(disk.confirmed) + {old(disk.pending.value.nonce)})
                      else old(disk)
    {
      hide Run;
      hide Fresh;
      if disk.pending.None? {
        return if disk.applied.Some? then AlreadyApplied else NobodyWaiting;
      }
      if !disk.pending.value.applied { return NotReady; }
      if !allowLocal && !overTailnet { return WrongNetwork; }
      var n := disk.pending.value.nonce;
      readers := readers + {n};
      Log(ConfirmRead);
      readers := readers - {n};
      disk := disk.(confirmed := disk.confirmed + {n});
      Log(ConfirmWrite(n));
      return Confirmed;
    }

    // ---------- snapshot ----------

    method SaveFile(i: nat, meta: Meta) returns (next: Meta)
      requires Valid() && machine.proc == Saving(i, meta) && i < |UFW_FILES| && SavedUpTo(disk, meta, i)
      modifies this
      ensures Forward() && machine.proc == Saving(i + 1, next) && nonces == old(nonces) && deeds == old(deeds)
      ensures disk == old(disk).(saved := disk.saved, confirmed := disk.confirmed)
      ensures SavedUpTo(disk, next, i + 1)
    {
      hide Run;
      hide Fresh;
      next := meta;
      if UFW_FILES[i] in disk.live.ufw {
        next := CopyOut(i, meta);
      } else {
        Log(Proceed(true, 0.0));
        SavedOneMore(disk, meta, i);
      }
      Others();
    }

    method CopyOut(i: nat, meta: Meta) returns (next: Meta)
      requires Valid() && machine.proc == Saving(i, meta) && i < |UFW_FILES| && SavedUpTo(disk, meta, i)
      requires UFW_FILES[i] in disk.live.ufw
      modifies this
      ensures Forward() && machine.proc == Saving(i + 1, next) && nonces == old(nonces) && deeds == old(deeds)
      ensures disk == old(disk).(saved := disk.saved, confirmed := disk.confirmed)
      ensures SavedUpTo(disk, next, i + 1)
    {
      hide Run;
      hide Fresh;
      var f := UFW_FILES[i];
      SavedOneMore(disk, meta, i);
      disk := disk.(saved := disk.saved[f := disk.live.ufw[f]]);
      next := meta.(files := meta.files + {f});
      Log(Proceed(true, 0.0));
    }

    method SaveMeta(meta: Meta)
      requires Valid() && machine.proc == Saving(|UFW_FILES|, meta)
      modifies this
      ensures Forward() && machine.proc == WritingPending && nonces == old(nonces) && deeds == old(deeds)
      ensures disk == old(disk).(meta := Some(meta), confirmed := disk.confirmed)
    {
      hide Run;
      hide Fresh;
      disk := disk.(meta := Some(meta));
      Log(Proceed(true, 0.0));
      Others();
    }

    method Snapshot()
      requires Valid() && machine.proc == Saving(0, Meta(disk.live.running, {}, disk.live.dropin))
      modifies this
      ensures Forward() && machine.proc == WritingPending && nonces == old(nonces) && deeds == old(deeds)
      ensures disk == old(disk).(saved := disk.saved, meta := disk.meta, confirmed := disk.confirmed)
      ensures Intact(disk, old(disk.live))
    {
      hide Run;
      hide Fresh;
      var meta := Meta(disk.live.running, {}, disk.live.dropin);
      for i := 0 to |UFW_FILES|
        invariant Forward() && machine.proc == Saving(i, meta) && nonces == old(nonces) && deeds == old(deeds)
        invariant disk == old(disk).(saved := disk.saved, confirmed := disk.confirmed)
        invariant SavedUpTo(disk, meta, i)
      {
        meta := SaveFile(i, meta);
      }
      assert meta.files == disk.live.ufw.Keys by {
        forall f ensures f in meta.files <==> f in disk.live.ufw { AllFiles(f); }
      }
      SaveMeta(meta);
    }

    // ---------- restore ----------

    /** One command of the system, or a write whose exception is caught. */
    method Try(a: Act) returns (ok: bool)
      modifies `deeds
      ensures deeds == old(deeds) + [Deed(a, ok)]
    {
      ok := *;
      deeds := deeds + [Deed(a, ok)];
    }

    /** `reload_sshd`. */
    method ReloadSsh()
      modifies `deeds
      ensures old(deeds) <= deeds && Went(old(deeds), deeds, SshActs(sshd), true)
      ensures sshd ==> |deeds| == |old(deeds)| + 1 && deeds[|old(deeds)|].act == ReloadSshd
    {
      if sshd {
        var ok := Try(ReloadSshd);
        WentOne(old(deeds), Deed(ReloadSshd, ok));
      } else {
        WentNot(deeds);
      }
    }

    /** A restore is running, has done `i` steps, and has touched nothing but the settings. */
    ghost predicate Copying(n: Nonce, why: Why, i: nat, was: Disk)
      reads this
    {
      && machine.proc == Restoring(n, i, why) && was.meta.Some?
      && disk == was.(live := disk.live, confirmed := disk.confirmed)
      && Goal(disk) == Goal(was) && disk.live.running == was.live.running
    }

    method CopyBack(n: Nonce, why: Why, i: nat, ghost was: Disk)
      requires Valid() && Copying(n, why, i, was) && i < |UFW_FILES| && Copied(disk, i)
      modifies this
      ensures Forward() && Copying(n, why, i + 1, was) && Copied(disk, i + 1)
      ensures SameAttempt(old(machine), machine) && nonces == old(nonces) && deeds == old(deeds)
    {
      hide Run;
      hide Fresh;
      var f := UFW_FILES[i];
      CopiedMore(disk, i);
      if f in disk.meta.value.files && f in disk.saved {
        disk := disk.(live := disk.live.(ufw := disk.live.ufw[f := disk.saved[f]]));
      }
      Log(Proceed(true, 0.0));
      ghost var done := disk;
      Others();
      GoalIgnoresConfirmations(done, disk);
    }

    method CopyDropin(n: Nonce, why: Why, ghost was: Disk)
      requires Valid() && Copying(n, why, |UFW_FILES|, was) && Copied(disk, |UFW_FILES|)
      modifies this
      ensures Forward() && Copying(n, why, |UFW_FILES| + 1, was)
      ensures disk.live.(running := Goal(was).running) == Goal(was)
      ensures SameAttempt(old(machine), machine) && nonces == old(nonces) && deeds == old(deeds)
    {
      hide Run;
      hide Fresh;
      disk := disk.(live := disk.live.(dropin := disk.meta.value.dropin));
      CopiedAll(disk);
      assert Goal(disk).ufw == Goal(old(disk)).ufw;
      Log(Proceed(true, 0.0));
      ghost var done := disk;
      Others();
      GoalIgnoresConfirmations(done, disk);
    }

    method RestoreUfw(n: Nonce, why: Why) returns (ok: bool)
      requires Valid() && machine.proc == Restoring(n, |UFW_FILES| + 1, why) && disk.meta.Some?
      modifies this
      ensures Forward() && machine.proc == if why == AfterFailure then AbortDisarm(n) else RevertRemove(n)
      ensures SameAttempt(old(machine), machine) && nonces == old(nonces)
      ensures disk == old(disk).(confirmed := disk.confirmed, live := old(disk.live).(running := disk.live.running))
      ensures disk.live.running == if ok then disk.meta.value.ufwEnabled else old(disk.live.running)
      ensures deeds == old(deeds) + [Deed(SwitchUfw(disk.meta.value.ufwEnabled), ok)]
    {
      hide Run;
      hide Fresh;
      ok := Try(SwitchUfw(disk.meta.value.ufwEnabled));
      if ok {
        disk := disk.(live := disk.live.(running := disk.meta.value.ufwEnabled));
      }
      Log(Proceed(ok, 0.0));
      Others();
    }

    /** `restore_snapshot`: everything the snapshot holds is back; if the command that switches ufw works, so
        is the state of the firewall. */
    method RestoreSnapshot(n: Nonce, why: Why) returns (ok: bool)
      requires Valid() && machine.proc == Restoring(n, 0, why) && disk.meta.Some?
      modifies this
      ensures Forward() && machine.proc == if why == AfterFailure then AbortDisarm(n) else RevertRemove(n)
      ensures SameAttempt(old(machine), machine) && nonces == old(nonces)
      ensures disk == old(disk).(live := Settled(old(disk), ok), confirmed := disk.confirmed)
      ensures Went(old(deeds), deeds, Undoing(disk.meta.value.ufwEnabled, sshd), true)
      ensures |deeds| > |old(deeds)| && deeds[|old(deeds)|] == Deed(SwitchUfw(disk.meta.value.ufwEnabled), ok)
      ensures sshd ==> |deeds| == |old(deeds)| + 2 && deeds[|old(deeds)| + 1].act == LockdownCommands.ReloadSshd
    {
      hide Run;
      hide Fresh;
      hide Went;
      hide SshActs;
      ghost var was, log := disk, deeds;
      for i := 0 to |UFW_FILES|
        invariant Forward() && Copying(n, why, i, was) && Copied(disk, i)
        invariant SameAttempt(old(machine), machine) && nonces == old(nonces) && deeds == old(deeds)
      {
        CopyBack(n, why, i, was);
      }
      CopyDropin(n, why, was);
      ok := RestoreUfw(n, why);
      ghost var switched := deeds;
      ReloadSsh();
      RestoreWent(log, switched, deeds, disk.meta.value.ufwEnabled, ok);
    }

    lemma RestoreWent(was: seq<Deed>, switched: seq<Deed>, now: seq<Deed>, on: bool, ok: bool)
      requires switched == was + [Deed(SwitchUfw(on), ok)]
      requires switched <= now && Went(switched, now, SshActs(sshd), true)
      requires sshd ==> |now| == |switched| + 1 && now[|switched|].act == LockdownCommands.ReloadSshd
      ensures was <= now && Went(was, now, Undoing(on, sshd), true)
      ensures |now| > |was| && now[|was|] == Deed(SwitchUfw(on), ok)
      ensures sshd ==> |now| == |was| + 2 && now[|was| + 1].act == LockdownCommands.ReloadSshd
    {
      hide Went;
      WentOne(was, Deed(SwitchUfw(on), ok));
      WentThen(was, switched, now, [SwitchUfw(on)], SshActs(sshd), true);
      assert switched[|was|] == now[|was|];
    }

    // ---------- apply ----------

    /** `secrets.token_hex`: a nonce nobody has seen. */
    method NewNonce() returns (n: Nonce)
      modifies `nonces
      ensures n == old(nonces) && nonces == n + 1
    {
      n := nonces;
      nonces := nonces + 1;
    }

    method Arm(clock: real) returns (ok: bool)
      requires Valid() && machine.proc.WritingPending? && disk.pending.None?
      modifies this
      ensures Forward()
      ensures disk == old(disk).(pending := disk.pending, timer := disk.timer, confirmed := disk.confirmed)
      ensures ok ==> machine.proc == WritingDropin(old(nonces)) && disk.timer
                     && disk.pending == Some(Pending(old(nonces), clock + REVERT_SECONDS, false))
      ensures !ok ==> machine.proc == AbortDisarm(old(nonces))
      ensures Went(old(deeds), deeds, ARMING, ok)
      ensures ok ==>
                Worked(deeds, |old(deeds)|, [WriteRecord, InstallUnits, ReloadUnits, LockdownCommands.EnableTimer])
    {
      hide Run;
      hide Fresh;
      hide Went;
      hide Worked;
      ghost var log := deeds;
      ok := Try(WriteRecord);
      if !ok {
        Log(Raise(false));
        FailedFirst(log, Deed(WriteRecord, false), ARMING);
        return;
      }
      var n := NewNonce();
      disk := disk.(pending := Some(Pending(n, clock + REVERT_SECONDS, false)));
      Log(Proceed(true, clock));
      Others();
      ghost var recorded := deeds;
      ok := EnableTimer(n);
      WentFirst(log, Deed(WriteRecord, true), deeds, ARMING, ok);
      if ok {
        assert ARMING == [WriteRecord, InstallUnits, ReloadUnits, LockdownCommands.EnableTimer] + [RestartTimer];
        SuccessWorked(log, deeds, [WriteRecord, InstallUnits, ReloadUnits, LockdownCommands.EnableTimer],
                      [RestartTimer]);
      }
    }

    /** Units, reload, `enable --now`, and the countdown from now; `left` is whether a failed `enable --now`
        has enabled the unit all the same. */
    method StartTimer() returns (ok: bool, left: bool)
      modifies `deeds
      ensures old(deeds) <= deeds && Went(old(deeds), deeds, ARMING[1..], ok)
    {
      left := false;
      ok := Try(InstallUnits);
      if !ok { return; }
      ok := Try(ReloadUnits);
      if !ok { return; }
      ok := Try(LockdownCommands.EnableTimer);
      if !ok {
        left := *;
        return;
      }
      var _ := Try(RestartTimer);
    }

    method EnableTimer(n: Nonce) returns (ok: bool)
      requires Valid() && machine.proc == EnablingTimer(n)
      modifies this
      ensures Forward()
      ensures disk == old(disk).(timer := disk.timer, confirmed := disk.confirmed)
      ensures machine.proc == if ok then WritingDropin(n) else AbortDisarm(n)
      ensures ok ==> disk.timer
      ensures Went(old(deeds), deeds, ARMING[1..], ok)
    {
      hide Run;
      hide Fresh;
      hide Went;
      var left;
      ok, left := StartTimer();
      if ok {
        disk := disk.(timer := true);
        Log(Proceed(true, 0.0));
      } else {
        disk := disk.(timer := disk.timer || left);
        Log(Raise(left));
      }
      Others();
    }

    method InstallDropin(n: Nonce) returns (ok: bool)
      requires Valid() && machine.proc == WritingDropin(n)
      modifies this
      ensures Forward()
      ensures disk == old(disk).(live := disk.live, confirmed := disk.confirmed)
      ensures machine.proc == if ok then TestingSshd(n) else Restoring(n, 0, AfterFailure)
      ensures disk.live == if ok then old(disk.live).(dropin := Some(hardening)) else old(disk.live)
      ensures deeds == old(deeds) + [Deed(LockdownCommands.InstallDropin, ok)]
    {
      hide Run;
      hide Fresh;
      ok := Try(LockdownCommands.InstallDropin);
      if ok {
        disk := disk.(live := disk.live.(dropin := Some(hardening)));
        Log(Proceed(true, 0.0));
      } else {
        Log(Raise(false));
      }
      Others();
    }

    /** `sshd -t`: go on, or raise. */
    method TestSsh(n: Nonce) returns (ok: bool)
      requires Valid() && machine.proc == TestingSshd(n)
      modifies this
      ensures Forward()
      ensures disk == old(disk).(confirmed := disk.confirmed)
      ensures machine.proc == if ok then RunningUfw(n) else Restoring(n, 0, AfterFailure)
      ensures deeds == old(deeds) + [Deed(TestSshd, ok)]
    {
      hide Run;
      hide Fresh;
      ok := Try(TestSshd);
      if ok { Log(Proceed(true, 0.0)); } else { Log(Raise(false)); }
      Others();
    }

    /** One ufw command, which does to the rule files what it likes and may still fail. */
    method RunUfw(n: Nonce, command: seq<string>) returns (ok: bool)
      requires Valid() && machine.proc == RunningUfw(n)
      modifies this
      ensures Forward()
      ensures disk == old(disk).(live := disk.live, confirmed := disk.confirmed)
      ensures disk.live.dropin == old(disk.live.dropin)
      ensures machine.proc == if ok then RunningUfw(n) else Restoring(n, 0, AfterFailure)
      ensures deeds == old(deeds) + [Deed(Ufw(command), ok)]
    {
      hide Run;
      hide Fresh;
      var ufw: map<UfwFile, Bytes>, running: bool := *, *;
      disk := disk.(live := disk.live.(ufw := ufw, running := running));
      Log(UfwChanges(ufw, running));
      ok := Try(Ufw(command));
      if !ok { Log(Raise(false)); }
      Others();
    }

    /** The list of commands `_apply_changes` builds. */
    method ListCommands(rules: seq<Rule>) returns (commands: seq<seq<string>>)
      ensures commands == UfwCommands(rules)
    {
      commands := CLOSING;
      for i := 0 to |rules|
        invariant commands == CLOSING + KeptOf(rules[..i])
      {
        assert rules[..i + 1][..i] == rules[..i];
        var words := rules[i].words;
        if words.Some? && |words.value| > 0 && words.value[0] == "ufw" && !rules[i].ssh {
          commands := commands + [words.value];
        }
      }
      assert rules[..|rules|] == rules;
      commands := commands + [ENABLING];
    }

    /** All ufw commands, each of which must work. */
    method RunAllUfw(n: Nonce, commands: seq<seq<string>>) returns (ok: bool)
      requires Valid() && machine.proc == RunningUfw(n)
      modifies this
      ensures Forward()
      ensures disk == old(disk).(live := disk.live, confirmed := disk.confirmed)
      ensures disk.live.dropin == old(disk.live.dropin)
      ensures machine.proc == if ok then RunningUfw(n) else Restoring(n, 0, AfterFailure)
      ensures Went(old(deeds), deeds, UfwActs(commands), ok)
    {
      hide Run;
      hide Fresh;
      hide Went;
      WentNot(deeds);
      ok := true;
      for i := 0 to |commands|
        invariant Forward() && machine.proc == RunningUfw(n)
        invariant disk == old(disk).(live := disk.live, confirmed := disk.confirmed)
        invariant disk.live.dropin == old(disk.live.dropin) && ok
        invariant Went(old(deeds), deeds, UfwActs(commands)[..i], true)
      {
        ghost var log := deeds;
        ok := RunUfw(n, commands[i]);
        assert UfwActs(commands)[..i + 1] == UfwActs(commands)[..i] + [Ufw(commands[i])];
        if !ok {
          FailedOne(log, Deed(Ufw(commands[i]), false));
          WentThen(old(deeds), log, deeds, UfwActs(commands)[..i], [Ufw(commands[i])], false);
          WentFails(old(deeds), deeds, UfwActs(commands)[..i + 1], UfwActs(commands)[i + 1..]);
          assert UfwActs(commands)[..i + 1] + UfwActs(commands)[i + 1..] == UfwActs(commands);
          return;
        }
        WentOne(log, Deed(Ufw(commands[i]), true));
        WentThen(old(deeds), log, deeds, UfwActs(commands)[..i], [Ufw(commands[i])], true);
      }
      assert UfwActs(commands)[..|commands|] == UfwActs(commands);
    }

    /** The rest of `_apply_changes`, once sshd takes the drop-in. */
    method CloseFirewall(n: Nonce, rules: seq<Rule>) returns (ok: bool)
      requires Valid() && machine.proc == RunningUfw(n)
      modifies this
      ensures Forward()
      ensures disk == old(disk).(live := disk.live, confirmed := disk.confirmed)
      ensures disk.live.dropin == old(disk.live.dropin)
      ensures machine.proc == if ok then MarkingApplied(n) else Restoring(n, 0, AfterFailure)
      ensures Went(old(deeds), deeds, Changing(rules, sshd)[2..], ok)
    {
      hide Run;
      hide Fresh;
      hide Went;
      ghost var log := deeds;
      var commands := ListCommands(rules);
      hide UfwCommands;
      assert Changing(rules, sshd)[2..] == UfwActs(commands) + SshActs(sshd);
      hide UfwActs;
      ok := RunAllUfw(n, commands);
      ghost var closed := deeds;
      if ok {
        ReloadSsh();
        Log(UfwDone);
        WentThen(log, closed, deeds, UfwActs(commands), SshActs(sshd), true);
      } else {
        WentFails(log, deeds, UfwActs(commands), SshActs(sshd));
      }
    }

    /** Drop-in, test and ufw commands: all of them have worked, in this order, or the last one tried failed. */
    method ApplyChanges(n: Nonce, rules: seq<Rule>) returns (ok: bool)
      requires Valid() && machine.proc == WritingDropin(n)
      modifies this
      ensures Forward()
      ensures disk == old(disk).(live := disk.live, confirmed := disk.confirmed)
      ensures machine.proc == if ok then MarkingApplied(n) else Restoring(n, 0, AfterFailure)
      ensures ok ==> disk.live.dropin == Some(hardening)
      ensures Went(old(deeds), deeds, Changing(rules, sshd), ok)
      ensures ok ==> Worked(deeds, |old(deeds)|, [LockdownCommands.InstallDropin, TestSshd])
                     && Worked(deeds, |old(deeds)| + 2, UfwActs(UfwCommands(rules)))
    {
      hide Run;
      hide Fresh;
      hide Went;
      hide Worked;
      ghost var log := deeds;
      ok := InstallDropin(n);
      if !ok {
        FailedFirst(log, Deed(LockdownCommands.InstallDropin, false), Changing(rules, sshd));
        return;
      }
      ok := TestSsh(n);
      if !ok {
        FailedFirst(log + [Deed(LockdownCommands.InstallDropin, true)], Deed(TestSshd, false),
                    Changing(rules, sshd)[1..]);
        WentFirst(log, Deed(LockdownCommands.InstallDropin, true), deeds, Changing(rules, sshd), false);
        return;
      }
      ok := CloseFirewall(n, rules);
      WentFirst(log + [Deed(LockdownCommands.InstallDropin, true)], Deed(TestSshd, true), deeds,
                Changing(rules, sshd)[1..], ok);
      WentFirst(log, Deed(LockdownCommands.InstallDropin, true), deeds, Changing(rules, sshd), ok);
      if ok { ChangesWorked(log, deeds, rules); }
    }

    lemma ChangesWorked(was: seq<Deed>, now: seq<Deed>, rules: seq<Rule>)
      requires Went(was, now, Changing(rules, sshd), true)
      ensures Worked(now, |was|, [LockdownCommands.InstallDropin, TestSshd])
      ensures Worked(now, |was| + 2, UfwActs(UfwCommands(rules)))
    {
      hide Went;
      hide SshActs;
      hide UfwCommands;
      var first, ufw := [LockdownCommands.InstallDropin, TestSshd], UfwActs(UfwCommands(rules));
      SuccessWorked(was, now, first + ufw, SshActs(sshd));
      forall i | 0 <= i < |ufw| ensures now[|was| + 2 + i] == Deed(ufw[i], true) {
        assert (first + ufw)[2 + i] == ufw[i];
      }
      assert (first + ufw)[0] == first[0] && (first + ufw)[1] == first[1];
    }

    /** `_disarm`, whose failure nobody looks at. */
    method Disarm() returns (ok: bool)
      modifies `disk, `deeds
      ensures disk == LockdownMachine.Disarm(old(disk), ok) && deeds == old(deeds) + [Deed(DisableTimer, ok)]
    {
      ok := Try(DisableTimer);
      if ok { disk := disk.(timer := false); }
    }

    method Abort(n: Nonce) returns (ok: bool)
      requires Valid() && machine.proc == AbortDisarm(n)
      modifies this
      ensures Forward() && machine.proc.Idle?
      ensures disk == LockdownMachine.Disarm(old(disk), ok).(pending := None, confirmed := disk.confirmed)
      ensures deeds == old(deeds) + [Deed(DisableTimer, ok)]
    {
      hide Run;
      hide Fresh;
      ok := Disarm();
      Log(Proceed(ok, 0.0));
      Others();
      disk := disk.(pending := None);
      Log(Proceed(true, 0.0));
      Others();
    }

    method UndoChanges(n: Nonce, ghost base: Settings)
      requires Valid() && machine.proc == Restoring(n, 0, AfterFailure) && Intact(disk, base)
      modifies this
      ensures Forward() && machine.proc.Idle?
      ensures disk == old(disk).(live := disk.live, pending := None, timer := disk.timer, confirmed := disk.confirmed)
      ensures Restored(disk.live, base)
      ensures Went(old(deeds), deeds, Undoing(base.running, sshd) + [DisableTimer], true)
      ensures disk.live == Settled(old(disk), deeds[|old(deeds)|].ok)
      ensures disk.timer == (old(disk.timer) && !deeds[|deeds| - 1].ok)
    {
      hide Run;
      hide Fresh;
      hide Went;
      hide Settled;
      ghost var log := deeds;
      IntactSettles(disk, base, true);
      IntactSettles(disk, base, false);
      hide Restored;
      var ok := RestoreSnapshot(n, AfterFailure);
      ghost var restored := deeds;
      ok := Abort(n);
      WentOne(restored, Deed(DisableTimer, ok));
      WentThen(log, restored, deeds, Undoing(base.running, sshd), [DisableTimer], true);
    }

    method MarkApplied(n: Nonce) returns (r: Pending)
      requires Valid() && machine.proc == MarkingApplied(n) && disk.pending.Some?
      modifies this
      ensures Forward() && machine.proc.Idle?
      ensures disk == old(disk).(pending := Some(r), confirmed := disk.confirmed) && deeds == old(deeds)
      ensures r == old(disk.pending).value.(applied := true)
    {
      HasAttempt();
      hide Run;
      hide Fresh;
      r := disk.pending.value.(applied := true);
      disk := disk.(pending := Some(r));
      Log(Proceed(true, 0.0));
      Others();
    }

    ghost method HasAttempt()
      requires Valid() && machine.proc.MarkingApplied?
      ensures machine.attempt.Some?
    {
      RunKeepsInv(start, trail);
    }

    /** `apply`. A refusal leaves the machine alone; a failure puts everything back; success leaves the new
        settings, the record, the snapshot of before and the timer. */
    method Apply(rules: seq<Rule>, clock: real) returns (r: Result<Pending, Failure>)
      requires Valid() && machine.proc.Idle?
      modifies this
      ensures Forward() && machine.proc.Idle?
      ensures r == Err(AlreadyWaiting) <==> old(disk.pending).Some?
      ensures old(disk.pending).Some? ==> disk == old(disk) && deeds == old(deeds)
      ensures r.Ok? ==> disk.pending == Some(r.value) && r.value == Pending(old(nonces), clock + REVERT_SECONDS, true)
      ensures r.Ok? ==> disk.timer && Intact(disk, old(disk.live)) && disk.live.dropin == Some(hardening)
      ensures disk.applied == old(disk.applied) && disk.reverted == old(disk.reverted)
      ensures r.Err? && old(disk.pending).None? ==> disk.pending.None? && Restored(disk.live, old(disk.live))
      ensures r == Err(CannotArm) ==> disk.live == old(disk.live)
      ensures Applying(old(deeds), deeds, rules, old(disk.live.running), r)
    {
      hide Run;
      hide Fresh;
      hide Went;
      if disk.pending.Some? { return Err(AlreadyWaiting); }
      Log(StartApply);
      r := ApplyNew(rules, clock);
    }

    /** The rest of `apply`, where no lockdown waits. */
    method ApplyNew(rules: seq<Rule>, clock: real) returns (r: Result<Pending, Failure>)
      requires Valid() && machine.proc == Saving(0, Meta(disk.live.running, {}, disk.live.dropin)) && disk.pending.None?
      modifies this
      ensures Forward() && machine.proc.Idle?
      ensures r != Err(AlreadyWaiting)
      ensures r.Ok? ==> disk.pending == Some(r.value) && r.value == Pending(old(nonces), clock + REVERT_SECONDS, true)
      ensures r.Ok? ==> disk.timer && Intact(disk, old(disk.live)) && disk.live.dropin == Some(hardening)
      ensures disk.applied == old(disk.applied) && disk.reverted == old(disk.reverted)
      ensures r.Err? ==> disk.pending.None? && Restored(disk.live, old(disk.live))
      ensures r == Err(CannotArm) ==> disk.live == old(disk.live)
      ensures Applying(old(deeds), deeds, rules, old(disk.live.running), r)
    {
      hide Run;
      hide Fresh;
      hide Went;
      ghost var base, log := disk.live, deeds;
      Snapshot();
      var n := nonces;
      var armed := Arm(clock);
      ghost var tried := deeds;
      if !armed {
        var ok := Abort(n);
        WentOne(tried, Deed(DisableTimer, ok));
        return Err(CannotArm);
      }
      r := ApplyArmed(n, rules, base, log);
    }

    method ApplyArmed(n: Nonce, rules: seq<Rule>, ghost base: Settings, ghost log: seq<Deed>)
      returns (r: Result<Pending, Failure>)
      requires Valid() && machine.proc == WritingDropin(n) && disk.pending.Some? && Intact(disk, base)
      requires Went(log, deeds, ARMING, true)
      modifies this
      ensures Forward() && machine.proc.Idle?
      ensures r.Ok? || r == Err(ChangesFailed)
      ensures r.Ok? ==> disk.pending == Some(r.value) && r.value == old(disk.pending.value).(applied := true)
      ensures r.Ok? ==> disk.timer == old(disk.timer) && Intact(disk, base) && disk.live.dropin == Some(hardening)
      ensures disk.applied == old(disk.applied) && disk.reverted == old(disk.reverted)
      ensures r.Err? ==> disk.pending.None? && Restored(disk.live, base)
      ensures Applying(log, deeds, rules, base.running, r)
    {
      hide Run;
      hide Fresh;
      hide Went;
      hide Changing;
      hide Restored;
      ghost var armed := deeds;
      var changed := ApplyChanges(n, rules);
      WentThen(log, armed, deeds, ARMING, Changing(rules, sshd), changed);
      if !changed {
        UndoChanges(n, base);
        return Err(ChangesFailed);
      }
      var p := MarkApplied(n);
      return Ok(p);
    }

    /** What `apply` asks of the system: on success all it has to, each thing once, in order and working. If
        one fails, nothing more but what undoes the rest. */
    ghost predicate Applying(was: seq<Deed>, now: seq<Deed>, rules: seq<Rule>, running: bool,
                             r: Result<Pending, Failure>)
    {
      match r
      case Ok(_) => Went(was, now, ARMING + Changing(rules, sshd), true)
      case Err(AlreadyWaiting) => now == was
      case Err(CannotArm) =>
        exists tried :: Went(was, tried, ARMING, false) && Went(tried, now, [DisableTimer], true)
      case Err(ChangesFailed) =>
        exists tried :: Went(was, tried, ARMING + Changing(rules, sshd), false)
                        && Went(tried, now, Undoing(running, sshd) + [DisableTimer], true)
    }

    // ---------- finalize and revert ----------

    /** What a finalized lockdown leaves: the record of it, and neither of the files it was waiting with. */
    ghost predicate FinalizedTo(was: Disk, n: Nonce, off: bool)
      reads this
    {
      && disk == LockdownMachine.Disarm(was, off).(pending := None, applied := Some(n), confirmed := disk.confirmed)
      && was.confirmed - {n} <= disk.confirmed && n !in disk.confirmed
    }

    /** `finalize`: disarm, record, and remove the two files the lockdown was waiting with. */
    method Finalize() returns (done: bool)
      requires Valid() && machine.proc.Idle?
      modifies this
      ensures Forward() && machine.proc.Idle?
      ensures done <==> old(disk.pending).Some? && old(disk.pending.value.nonce in disk.confirmed)
      ensures !done ==> disk == old(disk) && deeds == old(deeds)
      ensures done ==> Went(old(deeds), deeds, [DisableTimer], true)
                       && FinalizedTo(old(disk), old(disk.pending.value.nonce), deeds[|deeds| - 1].ok)
    {
      if disk.pending.None? || disk.pending.value.nonce !in disk.confirmed { return false; }
      Log(StartFinalize);
      FinishFinalize(disk.pending.value.nonce);
      return true;
    }

    method FinishFinalize(n: Nonce)
      requires Valid() && machine.proc == FinDisarm(n)
      modifies this
      ensures Forward() && machine.proc.Idle?
      ensures Went(old(deeds), deeds, [DisableTimer], true)
      ensures FinalizedTo(old(disk), n, deeds[|deeds| - 1].ok)
    {
      hide Run;
      hide Fresh;
      var ok := RecordApplied(n);
      WentOne(old(deeds), Deed(DisableTimer, ok));
      hide Went;
      FinishRemoval(n);
    }

    method RecordApplied(n: Nonce) returns (ok: bool)
      requires Valid() && machine.proc == FinDisarm(n)
      modifies this
      ensures Forward() && machine.proc == FinRemove(n) && deeds == old(deeds) + [Deed(DisableTimer, ok)]
      ensures disk == LockdownMachine.Disarm(old(disk), ok).(applied := Some(n), confirmed := disk.confirmed)
      ensures old(disk.confirmed) <= disk.confirmed
    {
      hide Run;
      hide Fresh;
      ok := Disarm();
      Log(Proceed(ok, 0.0));
      Others();
      disk := disk.(applied := Some(n));
      Log(Proceed(true, 0.0));
      Others();
    }

    method FinishRemoval(n: Nonce)
      requires Valid() && machine.proc == FinRemove(n)
      modifies this
      ensures Forward() && machine.proc.Idle? && deeds == old(deeds)
      ensures disk == old(disk).(pending := None, confirmed := disk.confirmed)
      ensures old(disk.confirmed) - {n} <= disk.confirmed && n !in disk.confirmed
    {
      hide Run;
      hide Fresh;
      disk := disk.(pending := None);
      Log(Proceed(true, 0.0));
      Others();
      disk := disk.(confirmed := disk.confirmed - {n});
      Log(Proceed(true, 0.0));
    }

    method RecordRevert(n: Nonce)
      requires Valid() && machine.proc == RevertRemove(n)
      modifies this
      ensures Forward() && machine.proc == Disarming && deeds == old(deeds)
      ensures disk == old(disk).(pending := None, reverted := Some(n), confirmed := disk.confirmed)
    {
      hide Run;
      hide Fresh;
      disk := disk.(pending := None);
      Log(Proceed(true, 0.0));
      Others();
      disk := disk.(reverted := Some(n));
      Log(Proceed(true, 0.0));
      Others();
    }

    method LastDisarm() returns (ok: bool)
      requires Valid() && machine.proc == Disarming
      modifies this
      ensures Forward() && machine.proc.Idle?
      ensures disk == LockdownMachine.Disarm(old(disk), ok) && deeds == old(deeds) + [Deed(DisableTimer, ok)]
    {
      hide Run;
      hide Fresh;
      ok := Disarm();
      Log(Proceed(ok, 0.0));
    }

    /** What `revert_if_due` makes of the disk `was`, for each verdict, and what it asks of the system. */
    ghost predicate EndsIn(was: Disk, log: seq<Deed>, v: Verdict)
      reads this
    {
      match v
      case NothingPending =>
        && was.pending.None? && Went(log, deeds, [DisableTimer], true)
        && disk == LockdownMachine.Disarm(was, deeds[|deeds| - 1].ok)
      case Finalized =>
        && was.pending.Some? && was.pending.value.nonce in was.confirmed && Went(log, deeds, [DisableTimer], true)
        && FinalizedTo(was, was.pending.value.nonce, deeds[|deeds| - 1].ok)
      case NotDue => was.pending.Some? && was.pending.value.nonce !in was.confirmed && disk == was && deeds == log
      case Reverted =>
        && was.pending.Some? && was.pending.value.nonce !in was.confirmed && was.meta.Some?
        && Went(log, deeds, Undoing(was.meta.value.ufwEnabled, sshd) + [DisableTimer], true)
        && disk == LockdownMachine.Disarm(was, deeds[|deeds| - 1].ok)
                   .(live := Settled(was, deeds[|log|].ok), pending := None,
                     reverted := Some(was.pending.value.nonce), confirmed := disk.confirmed)
    }

    /** `revert_if_due`. */
    method RevertIfDue(now: real, fromTimer: bool) returns (v: Verdict)
      requires Valid() && machine.proc.Idle?
      modifies this
      ensures Forward() && machine.proc.Idle?
      ensures EndsIn(old(disk), old(deeds), v)
      ensures !v.NotDue? ==> disk.pending.None?
      ensures v.NotDue? <==> old(disk.pending).Some? && old(disk.pending.value.nonce !in disk.confirmed)
                             && !fromTimer && now + 5.0 < old(disk.pending.value.deadline)
    {
      hide Run;
      hide Fresh;
      PendingHasSnapshot();
      Log(StartRevert(now, fromTimer));
      if disk.pending.None? {
        ghost var log := deeds;
        var ok := LastDisarm();
        WentOne(log, Deed(DisableTimer, ok));
        return NothingPending;
      }
      var p := disk.pending.value;
      if p.nonce in disk.confirmed {
        FinishFinalize(p.nonce);
        return Finalized;
      }
      if !fromTimer && now + 5.0 < p.deadline { return NotDue; }
      UndoPending(p.nonce);
      return Reverted;
    }

    /** A waiting lockdown has its snapshot. */
    ghost method PendingHasSnapshot()
      requires Valid() && machine.proc.Idle?
      ensures disk.pending.Some? ==> disk.meta.Some?
    {
      RunKeepsInv(start, trail);
    }

    method UndoPending(n: Nonce)
      requires Valid() && machine.proc == Restoring(n, 0, Reverting) && disk.meta.Some?
      modifies this
      ensures Forward() && machine.proc.Idle?
      ensures Went(old(deeds), deeds, Undoing(old(disk.meta).value.ufwEnabled, sshd) + [DisableTimer], true)
      ensures disk == LockdownMachine.Disarm(old(disk), deeds[|deeds| - 1].ok)
                      .(live := Settled(old(disk), deeds[|old(deeds)|].ok), pending := None,
                        reverted := Some(n), confirmed := disk.confirmed)
    {
      hide Run;
      hide Fresh;
      hide Settled;
      hide Went;
      ghost var log, on := deeds, disk.meta.value.ufwEnabled;
      var ok := RestoreSnapshot(n, Reverting);
      ghost var restored := deeds;
      RecordRevert(n);
      ok := LastDisarm();
      WentOne(restored, Deed(DisableTimer, ok));
      WentThen(log, restored, deeds, Undoing(on, sshd), [DisableTimer], true);
    }

    // ---------- the step of the installer ----------

    /** While the step sleeps, confirmations come and the timer may fire. */
    method Sleep()
      requires Valid() && machine.proc.Idle?
      modifies this
      ensures Forward() && machine.proc.Idle? && Rests(deeds) == Rests(old(deeds)) + 1
      ensures disk.pending == old(disk.pending) || disk.pending.None?
      ensures disk.applied == old(disk.applied)
              || (old(disk.pending).Some? && disk.applied == Some(old(disk.pending.value.nonce)))
    {
      var _ := Try(Rest);
      assert deeds[..|deeds| - 1] == old(deeds);
      Others();
      var fires: bool := *;
      if fires {
        ghost var was, log := disk, deeds;
        var v := RevertIfDue(0.0, true);
        EndsWithoutRest(was, log, v);
      }
    }

    lemma EndsWithoutRest(was: Disk, log: seq<Deed>, v: Verdict)
      requires EndsIn(was, log, v)
      ensures Rests(deeds) == Rests(log)
    {
      hide Went;
      match v
      case NotDue =>
      case Reverted => RestsKept(log, deeds, Undoing(was.meta.value.ufwEnabled, sshd) + [DisableTimer]);
      case _ => RestsKept(log, deeds, [DisableTimer]);
    }

    /** `wait_for_confirmation`, `polls` being how often it looks before its own deadline, and `seen` the
        disks it looked at. Its answer is the one of the first look that gives one, and no without one. */
    method WaitForConfirmation(polls: nat) returns (applied: bool, ghost seen: seq<Disk>)
      requires Valid() && machine.proc.Idle?
      modifies this
      ensures Forward() && machine.proc.Idle?
      ensures Looked(old(disk), polls, seen, applied)
      ensures Rests(deeds) == Rests(old(deeds)) + Undecided(seen)
      ensures Decided(seen, applied)
      ensures |seen| > 0 ==> Waited(seen[|seen| - 1])
      ensures polls == 0 ==> disk == old(disk)
      ensures applied ==> disk.pending.None? && disk.applied.Some?
      ensures disk.pending == old(disk.pending) || disk.pending.None?
      ensures disk.applied == old(disk.applied)
              || (old(disk.pending).Some? && disk.applied == Some(old(disk.pending.value.nonce)))
    {
      seen := [];
      for i := 0 to polls
        invariant Forward() && machine.proc.Idle?
        invariant Rests(deeds) == Rests(old(deeds)) + i && Undecided(seen) == i
        invariant |seen| == i && (i > 0 ==> seen[0] == old(disk)) && (i == 0 ==> disk == old(disk))
        invariant forall j :: 0 <= j < i ==> WaitAnswer(seen[j]) == None
        invariant disk.pending == old(disk.pending) || disk.pending.None?
        invariant disk.applied == old(disk.applied)
                  || (old(disk.pending).Some? && disk.applied == Some(old(disk.pending.value.nonce)))
      {
        seen := seen + [disk];
        if disk.pending.None? {
          applied := disk.applied.Some?;
          return;
        }
        if disk.pending.value.nonce in disk.confirmed {
          ghost var log := deeds;
          applied := Finalize();
          RestsKept(log, deeds, [DisableTimer]);
          return;
        }
        Sleep();
      }
      applied := false;
    }

    /** Only the last look can find the record gone or confirmed; it says whether a lockdown is recorded, or
        yes. */
    ghost predicate Decided(seen: seq<Disk>, answer: bool) {
      && (forall i :: 0 <= i < |seen| - 1 ==>
            seen[i].pending.Some? && seen[i].pending.value.nonce !in seen[i].confirmed)
      && (|seen| > 0 ==>
            var last := seen[|seen| - 1];
            answer <==> if last.pending.None? then last.applied.Some? else last.pending.value.nonce in last.confirmed)
      && (answer ==> |seen| > 0)
    }

    /** The looks that gave no answer, after each of which it sleeps. */
    ghost function Undecided(seen: seq<Disk>): nat {
      if |seen| > 0 && WaitAnswer(seen[|seen| - 1]).Some? then |seen| - 1 else |seen|
    }

    /** It looks at least once if it may look at all, goes on looking until a look gives an answer, and
        answers that. */
    ghost predicate Looked(first: Disk, polls: nat, seen: seq<Disk>, answer: bool) {
      && |seen| <= polls && (polls > 0 ==> |seen| > 0 && seen[0] == first)
      && (forall i :: 0 <= i < |seen| - 1 ==> WaitAnswer(seen[i]) == None)
      && (|seen| < polls ==> WaitAnswer(seen[|seen| - 1]).Some?)
      && (answer <==> |seen| > 0 && WaitAnswer(seen[|seen| - 1]) == Some(true))
    }

    /** What the wait leaves after its last look. */
    ghost predicate Waited(last: Disk)
      reads this
    {
      match WaitAnswer(last)
      case None => true   // it slept once more
      case Some(_) =>
        if last.pending.None? then disk == last
        else exists off :: FinalizedTo(last, last.pending.value.nonce, off)
    }

    /** The installer's lockdown step (pskit/linux/steps_net.py): resume a waiting lockdown or apply one,
        confirm it if asked to do that itself, wait, and undo it unless the wait says yes. */
    method LockdownStep(mode: Mode, rules: seq<Rule>, clock: real, polls: nat) returns (r: StepEnd, ghost w: Course)
      requires Valid() && machine.proc.Idle?
      modifies this
      ensures Forward() && machine.proc.Idle?
      // a lockdown is applied exactly if none waits
      ensures old(disk.pending).Some? ==> w.armed == old(disk) && w.log == old(deeds) && !r.ApplyFailed?
      ensures old(disk.pending).None? && !r.ApplyFailed? ==>
                && w.armed.pending == Some(Pending(old(nonces), clock + REVERT_SECONDS, true))
                && w.armed.timer && w.armed.applied == old(disk.applied)
                && Intact(w.armed, old(disk.live)) && w.armed.live.dropin == Some(hardening)
                && Went(old(deeds), w.log, ARMING + Changing(rules, sshd), true)
      ensures r.ApplyFailed? ==>
                && disk.pending.None? && Restored(disk.live, old(disk.live)) && disk.applied == old(disk.applied)
                && Applying(old(deeds), deeds, rules, old(disk.live.running), Err(r.failure))
      // a local test is refused where it is not allowed, and the lockdown is left waiting for its timer
      ensures r.NoTestMode? <==> !r.ApplyFailed? && mode == TestLocal(false)
      ensures r.NoTestMode? ==> disk == w.armed
      // otherwise it waits, and the lockdown stays exactly if the wait says yes
      ensures r.LockedDown? || r.NotConfirmed? ==>
                && Looked(w.asked, polls, w.seen, r.LockedDown?) && Decided(w.seen, r.LockedDown?)
                && Rests(w.waited) == Rests(w.log) + Undecided(w.seen)
      ensures r.LockedDown? || r.NotConfirmed? ==>
                w.asked == if mode.TestLocal? && w.armed.pending.value.applied
                           then w.armed.(confirmed := w.armed.confirmed + {w.armed.pending.value.nonce}) else w.armed
      ensures r.LockedDown? ==> disk == w.left && deeds == w.waited && disk.pending.None? && disk.applied.Some?
      ensures r.NotConfirmed? ==> EndsIn(w.left, w.waited, r.verdict) && !r.verdict.NotDue? && disk.pending.None?
      ensures r.LockedDown? && old(disk.applied).None? ==> disk.applied == Some(w.armed.pending.value.nonce)
    {
      hide Run;
      hide Fresh;
      hide Went;
      hide Intact;
      hide Restored;
      hide EndsIn;
      hide Changing;
      hide Rests;
      hide Looked;
      hide Decided;
      hide Undecided;
      hide Waited;
      w := Course(disk, deeds, disk, [], disk, deeds);
      if disk.pending.None? {
        var a := Apply(rules, clock);
        if a.Err? { return ApplyFailed(a.error), w; }
      }
      w := w.(armed := disk, log := deeds);
      if mode.TestLocal? {
        if !mode.testMode { return NoTestMode, w; }
        var _ := Confirm(false, true);
      }
      w := w.(asked := disk);
      ghost var seen;
      var done;
      done, seen := WaitForConfirmation(polls);
      w := w.(seen := seen, left := disk, waited := deeds);
      if done { return LockedDown, w; }
      var now := if disk.pending.Some? then disk.pending.value.deadline else 0.0;  // any time past the deadline
      var v := RevertIfDue(now, false);
      return NotConfirmed(v), w;
    }
  }
}
