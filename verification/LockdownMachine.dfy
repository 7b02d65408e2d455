/**
 The lockdown of pskit/lockdown.py as a machine of atomic disk writes.

 A root command (`apply`, `revert_if_due`, `finalize`) is a program counter that advances by one
 write or one external command per `Proceed`. A crash or reboot (`Crash`) forgets the program
 counter and keeps the disk. Confirmations from the laptop read the pending record in one event
 and write their file in a later one, so they interleave anywhere.
 */
module LockdownMachine {
  import opened Common

  /** What `secrets.token_hex` returned; a nonce never drawn before is the next number. */
  type Nonce = nat

  // ---------- the disk ----------

  datatype UfwFile = UserRules | User6Rules | UfwConf | DefaultUfw

  const UFW_FILES: seq<UfwFile> := [UserRules, User6Rules, UfwConf, DefaultUfw]

  /** The settings a lockdown changes: the ufw files, the sshd drop-in, and whether ufw is active. */
  datatype Settings = Settings(ufw: map<UfwFile, Bytes>, dropin: Option<Bytes>, running: bool)

  datatype Pending = Pending(nonce: Nonce, deadline: real, applied: bool)

  datatype Meta = Meta(ufwEnabled: bool, files: set<UfwFile>, dropin: Option<Bytes>)

  datatype Disk = Disk(
    live: Settings,
    pending: Option<Pending>,     // pending.json
    confirmed: set<Nonce>,        // the confirmed-<nonce> files
    applied: Option<Nonce>,       // applied.json
    reverted: Option<Nonce>,      // reverted.json
    saved: map<UfwFile, Bytes>,   // snapshot/<name>
    meta: Option<Meta>,           // snapshot/meta.json
    timer: bool                   // the revert timer is enabled
  )

  /** The settings at snapshot time are back: every ufw file that existed then, and the drop-in. */
  ghost predicate Restored(live: Settings, base: Settings) {
    && (forall f :: f in base.ufw ==> f in live.ufw && live.ufw[f] == base.ufw[f])
    && live.dropin == base.dropin
  }

  /** The snapshot on disk holds exactly `base`. */
  ghost predicate Intact(d: Disk, base: Settings) {
    && d.meta == Some(Meta(base.running, base.ufw.Keys, base.dropin))
    && (forall f :: f in base.ufw ==> f in d.saved && d.saved[f] == base.ufw[f])
  }

  // ---------- the machine ----------

  datatype Why = AfterFailure | Reverting

  datatype Proc =
    | Idle
    | Saving(i: nat, meta: Meta)               // snapshot, about to look at file i, or to write meta.json
    | WritingPending                           // _arm
    | EnablingTimer(n: Nonce)
    | WritingDropin(n: Nonce)                  // _apply_changes
    | TestingSshd(n: Nonce)
    | RunningUfw(n: Nonce)
    | MarkingApplied(n: Nonce)
    | Restoring(n: Nonce, i: nat, why: Why)    // restore_snapshot: four files, the drop-in, the ufw command
    | AbortDisarm(n: Nonce)                    // _abort
    | AbortRemove(n: Nonce)
    | RevertRemove(n: Nonce)                   // the rest of revert_if_due
    | RevertRecord(n: Nonce)
    | Disarming
    | FinDisarm(n: Nonce)                      // finalize
    | FinApplied(n: Nonce)
    | FinRemove(n: Nonce)
    | FinForget(n: Nonce)

  /** History of the latest armed attempt, kept for stating properties only. */
  datatype Attempt = Attempt(
    nonce: Nonce,
    base: Settings,              // when it was armed
    target: Option<Settings>,    // once every change is applied
    undoing: bool,               // a restore was started for it
    kept: bool                   // confirmed before any restore was started
  )

  datatype State = State(disk: Disk, proc: Proc, inflight: set<Nonce>, next: Nonce,
                         hardening: Bytes, attempt: Option<Attempt>)

  datatype Event =
    | StartApply
    | StartRevert(now: real, fromTimer: bool)
    | StartFinalize
    | Proceed(ok: bool, clock: real)           // the next write or command of the running program
    | UfwChanges(ufw: map<UfwFile, Bytes>, running: bool)  // one ufw command, whatever it does
    | UfwDone
    | Raise(timerOn: bool)                     // the running `apply` raises instead of its next write
    | Crash                                    // process death or reboot
    | ConfirmRead                              // a laptop finds the record ready
    | ConfirmWrite(n: Nonce)                   // and writes its confirmation later
    | ConfirmDies(n: Nonce)

  const REVERT_SECONDS: real := 600.0

  function SaveStep(s: State): State
    requires s.proc.Saving?
  {
    var i, m, d := s.proc.i, s.proc.meta, s.disk;
    if i < |UFW_FILES| then
      var f := UFW_FILES[i];
      if f in d.live.ufw then
        s.(disk := d.(saved := d.saved[f := d.live.ufw[f]]), proc := Saving(i + 1, m.(files := m.files + {f})))
      else
        s.(proc := Saving(i + 1, m))
    else
      s.(disk := d.(meta := Some(m)), proc := WritingPending)
  }

  function RestoreStep(s: State, ok: bool): State
    requires s.proc.Restoring?
  {
    var n, i, why, d := s.proc.n, s.proc.i, s.proc.why, s.disk;
    if d.meta.None? then
      s.(proc := Idle)  // "no snapshot to restore" is raised
    else if i < |UFW_FILES| then
      var f := UFW_FILES[i];
      var next := Restoring(n, i + 1, why);
      if f in d.meta.value.files && f in d.saved then
        s.(disk := d.(live := d.live.(ufw := d.live.ufw[f := d.saved[f]])), proc := next)
      else
        s.(proc := next)
    else if i == |UFW_FILES| then
      s.(disk := d.(live := d.live.(dropin := d.meta.value.dropin)), proc := Restoring(n, i + 1, why))
    else
      var running := if ok then d.meta.value.ufwEnabled else d.live.running;
      s.(disk := d.(live := d.live.(running := running)),
         proc := if why == AfterFailure then AbortDisarm(n) else RevertRemove(n))
  }

  function Disarm(d: Disk, ok: bool): Disk {
    if ok then d.(timer := false) else d
  }

  /** One write or command of the running program. */
  function Advance(s: State, ok: bool, clock: real): State {
    var d := s.disk;
    match s.proc
    case Idle => s
    case Saving(_, _) => SaveStep(s)
    case WritingPending =>
      var n := s.next;
      s.(disk := d.(pending := Some(Pending(n, clock + REVERT_SECONDS, false))), proc := EnablingTimer(n),
         next := n + 1, attempt := Some(Attempt(n, d.live, None, false, false)))
    case EnablingTimer(n) => s.(disk := d.(timer := true), proc := WritingDropin(n))
    case WritingDropin(n) =>
      s.(disk := d.(live := d.live.(dropin := Some(s.hardening))), proc := TestingSshd(n))
    case TestingSshd(n) => s.(proc := RunningUfw(n))
    case RunningUfw(_) => s
    case MarkingApplied(n) =>
      if d.pending.Some? && s.attempt.Some? then
        s.(disk := d.(pending := Some(d.pending.value.(applied := true))), proc := Idle,
           attempt := Some(s.attempt.value.(target := Some(d.live))))
      else s.(proc := Idle)
    case Restoring(_, _, _) => RestoreStep(s, ok)
    case AbortDisarm(n) => s.(disk := Disarm(d, ok), proc := AbortRemove(n))
    case AbortRemove(_) => s.(disk := d.(pending := None), proc := Idle)
    case RevertRemove(n) => s.(disk := d.(pending := None), proc := RevertRecord(n))
    case RevertRecord(n) => s.(disk := d.(reverted := Some(n)), proc := Disarming)
    case Disarming => s.(disk := Disarm(d, ok), proc := Idle)
    case FinDisarm(n) => s.(disk := Disarm(d, ok), proc := FinApplied(n))
    case FinApplied(n) => s.(disk := d.(applied := Some(n)), proc := FinRemove(n))
    case FinRemove(n) => s.(disk := d.(pending := None), proc := FinForget(n))
    case FinForget(n) => s.(disk := d.(confirmed := d.confirmed - {n}), proc := Idle)
  }

  function Undo(a: Option<Attempt>): Option<Attempt> {
    if a.Some? then Some(a.value.(undoing := true)) else None
  }

  /** What an exception inside `apply` does to the running program. */
  function Raised(s: State, timerOn: bool): State {
    var d := s.disk;
    match s.proc
    case Saving(_, _) => s.(proc := Idle)
    case WritingPending => s.(proc := AbortDisarm(s.next))
    case EnablingTimer(n) => s.(disk := d.(timer := d.timer || timerOn), proc := AbortDisarm(n))
    case WritingDropin(n) => s.(proc := Restoring(n, 0, AfterFailure), attempt := Undo(s.attempt))
    case TestingSshd(n) => s.(proc := Restoring(n, 0, AfterFailure), attempt := Undo(s.attempt))
    case RunningUfw(n) => s.(proc := Restoring(n, 0, AfterFailure), attempt := Undo(s.attempt))
    case MarkingApplied(_) => s.(proc := Idle)  // past the try block: the record stays, not ready
    case _ => s
  }

  /** `revert_if_due`: what it decides to do with the record it reads. */
  function RevertDecision(s: State, now: real, fromTimer: bool): State {
    var d := s.disk;
    if d.pending.None? then s.(proc := Disarming)
    else
      var p := d.pending.value;
      if p.nonce in d.confirmed then s.(proc := FinDisarm(p.nonce))
      else if !fromTimer && now + 5.0 < p.deadline then s
      else s.(proc := Restoring(p.nonce, 0, Reverting), attempt := Undo(s.attempt))
  }

  function Confirmed(s: State, n: Nonce): State {
    var a := if s.attempt.Some? && s.attempt.value.nonce == n && !s.attempt.value.undoing
             then Some(s.attempt.value.(kept := true)) else s.attempt;
    s.(disk := s.disk.(confirmed := s.disk.confirmed + {n}), inflight := s.inflight - {n}, attempt := a)
  }

  /** One event. An event that is not possible in `s` changes nothing. */
  function Next(s: State, e: Event): State {
    var d := s.disk;
    match e
    case StartApply =>
      if s.proc.Idle? && d.pending.None? then s.(proc := Saving(0, Meta(d.live.running, {}, d.live.dropin))) else s
    case StartRevert(now, fromTimer) => if s.proc.Idle? then RevertDecision(s, now, fromTimer) else s
    case StartFinalize =>
      if s.proc.Idle? && d.pending.Some? && d.pending.value.nonce in d.confirmed
      then s.(proc := FinDisarm(d.pending.value.nonce)) else s
    case Proceed(ok, clock) => Advance(s, ok, clock)
    case UfwChanges(ufw, running) =>
      if s.proc.RunningUfw? then s.(disk := d.(live := d.live.(ufw := ufw, running := running))) else s
    case UfwDone => if s.proc.RunningUfw? then s.(proc := MarkingApplied(s.proc.n)) else s
    case Raise(timerOn) => Raised(s, timerOn)
    case Crash => s.(proc := Idle)
    case ConfirmRead =>
      if d.pending.Some? && d.pending.value.applied
      then s.(inflight := s.inflight + {d.pending.value.nonce}) else s
    case ConfirmWrite(n) => if n in s.inflight then Confirmed(s, n) else s
    case ConfirmDies(n) => s.(inflight := s.inflight - {n})
  }

  function Run(s: State, es: seq<Event>): State {
    if |es| == 0 then s else Next(Run(s, es[..|es| - 1]), es[|es| - 1])
  }

  /** A machine on which no lockdown was ever applied. Everything else on the disk is arbitrary. */
  ghost predicate Fresh(s: State) {
    && s.proc.Idle? && s.inflight == {} && s.attempt.None?
    && s.disk.pending.None? && s.disk.confirmed == {} && s.disk.applied.None?
  }

  // ---------- the invariant ----------

  /** The promise of the module: a changed machine always has its safety net, or somebody's word. */
  ghost predicate Safe(d: Disk, a: Attempt) {
    || Restored(d.live, a.base)
    || (d.pending.Some? && d.pending.value.nonce == a.nonce && Intact(d, a.base) && d.timer)
    || a.nonce in d.confirmed
    || d.applied == Some(a.nonce)
  }

  ghost predicate Bounded(s: State) {
    && (forall n :: n in s.disk.confirmed ==> n < s.next)
    && (forall n :: n in s.inflight ==> n < s.next)
    && (s.disk.applied.Some? ==> s.disk.applied.value < s.next)
    && (s.attempt.Some? ==> s.attempt.value.nonce < s.next)
  }

  /** The pending record always belongs to the latest attempt, whose snapshot is intact. */
  ghost predicate RecordInv(s: State) {
    var d := s.disk;
    d.pending.Some? ==>
      && s.attempt.Some?
      && var p, a := d.pending.value, s.attempt.value;
      && p.nonce == a.nonce
      && Intact(d, a.base)
      && (p.applied <==> a.target.Some?)
      && (d.applied == Some(a.nonce) ==> a.nonce in d.confirmed)
      && (a.kept ==> a.nonce in d.confirmed)
  }

  /** Nobody vouches for an attempt before all of its changes are in place. */
  ghost predicate AttemptInv(s: State) {
    s.attempt.Some? ==>
      var d, a := s.disk, s.attempt.value;
      && (a.nonce in d.confirmed || a.nonce in s.inflight || d.applied == Some(a.nonce) ==> a.target.Some?)
      && (a.target.Some? && !a.undoing ==> d.live == a.target.value)
      && (a.kept ==> !a.undoing && a.target.Some? && (a.nonce in d.confirmed || d.applied == Some(a.nonce)))
  }

  ghost predicate RestoredUpTo(live: Settings, base: Settings, i: nat) {
    && (forall j :: 0 <= j < i && j < |UFW_FILES| && UFW_FILES[j] in base.ufw ==>
          UFW_FILES[j] in live.ufw && live.ufw[UFW_FILES[j]] == base.ufw[UFW_FILES[j]])
    && (i > |UFW_FILES| ==> live.dropin == base.dropin)
  }

  ghost predicate SavedUpTo(d: Disk, m: Meta, i: nat) {
    && m.ufwEnabled == d.live.running && m.dropin == d.live.dropin
    && (forall f :: f in m.files <==> f in d.live.ufw && f in UFW_FILES[..Min(i, |UFW_FILES|)])
    && (forall f :: f in m.files ==> f in d.saved && d.saved[f] == d.live.ufw[f])
  }

  /** The pending record is the one of attempt `n`. */
  ghost predicate Owns(s: State, n: Nonce) {
    && s.attempt.Some? && s.attempt.value.nonce == n
    && s.disk.pending.Some? && s.disk.pending.value.nonce == n
  }

  ghost predicate ProcInv(s: State) {
    var d := s.disk;
    match s.proc
    case Idle => s.attempt.Some? ==> Safe(d, s.attempt.value)
    case Saving(i, m) => d.pending.None? && i <= |UFW_FILES| && SavedUpTo(d, m, i)
                         && (s.attempt.Some? ==> Safe(d, s.attempt.value))
    case WritingPending => d.pending.None? && Intact(d, d.live)
                           && (s.attempt.Some? ==> Safe(d, s.attempt.value))
    case EnablingTimer(n) => Owns(s, n) && s.attempt.value.target.None? && d.live == s.attempt.value.base
    case WritingDropin(n) => Owns(s, n) && s.attempt.value.target.None? && d.timer
    case TestingSshd(n) => Owns(s, n) && s.attempt.value.target.None? && d.timer
    case RunningUfw(n) => Owns(s, n) && s.attempt.value.target.None? && d.timer
    case MarkingApplied(n) => Owns(s, n) && s.attempt.value.target.None? && d.timer
    case Restoring(n, i, why) =>
      && Owns(s, n) && s.attempt.value.undoing && i <= |UFW_FILES| + 1
      && RestoredUpTo(d.live, s.attempt.value.base, i)
      && Safe(d, s.attempt.value)
    case AbortDisarm(n) => (d.pending.Some? ==> Owns(s, n)) && (s.attempt.Some? ==> Safe(d, s.attempt.value))
                           && (d.pending.Some? ==> Restored(d.live, s.attempt.value.base))
    case AbortRemove(n) => (d.pending.Some? ==> Owns(s, n)) && (s.attempt.Some? ==> Safe(d, s.attempt.value))
                           && (d.pending.Some? ==> Restored(d.live, s.attempt.value.base))
    case RevertRemove(n) => Owns(s, n) && Restored(d.live, s.attempt.value.base)
    case RevertRecord(n) => d.pending.None? && (s.attempt.Some? ==> Safe(d, s.attempt.value))
    case Disarming => d.pending.None? && (s.attempt.Some? ==> Safe(d, s.attempt.value))
    case FinDisarm(n) => Owns(s, n) && n in d.confirmed
    case FinApplied(n) => Owns(s, n) && n in d.confirmed
    case FinRemove(n) => Owns(s, n) && n in d.confirmed && d.applied == Some(n)
    case FinForget(n) => d.pending.None? && s.attempt.Some? && s.attempt.value.nonce == n && d.applied == Some(n)
  }

  ghost predicate Inv(s: State) {
    Bounded(s) && RecordInv(s) && AttemptInv(s) && ProcInv(s)
  }

  lemma AllFiles(f: UfwFile)
    ensures f in UFW_FILES
    ensures exists j :: 0 <= j < |UFW_FILES| && UFW_FILES[j] == f
  {
    assert UFW_FILES[0] == UserRules && UFW_FILES[1] == User6Rules;
    assert UFW_FILES[2] == UfwConf && UFW_FILES[3] == DefaultUfw;
    match f case UserRules => case User6Rules => case UfwConf => case DefaultUfw =>
  }

  lemma RestoredAll(live: Settings, base: Settings)
    requires RestoredUpTo(live, base, |UFW_FILES| + 1)
    ensures Restored(live, base)
  {
    forall f | f in base.ufw ensures f in live.ufw && live.ufw[f] == base.ufw[f] {
      AllFiles(f);
    }
  }

  lemma SaveKeepsInv(s: State, ok: bool, clock: real)
    requires Inv(s) && s.proc.Saving?
    ensures Inv(Advance(s, ok, clock))
  {
    hide Restored;
    var i, m, d := s.proc.i, s.proc.meta, s.disk;
    if i < |UFW_FILES| {
      SavedOneMore(d, m, i);
      hide SavedUpTo;
      hide Intact;
    } else {
      SavedWhole(d, m);
      hide SavedUpTo;
      hide Intact;
    }
  }

  lemma SavedOneMore(d: Disk, m: Meta, i: nat)
    requires i < |UFW_FILES| && SavedUpTo(d, m, i)
    ensures var f := UFW_FILES[i];
            if f in d.live.ufw
            then SavedUpTo(d.(saved := d.saved[f := d.live.ufw[f]]), m.(files := m.files + {f}), i + 1)
            else SavedUpTo(d, m, i + 1)
  {
    assert UFW_FILES[..i + 1] == UFW_FILES[..i] + [UFW_FILES[i]];
  }

  lemma SavedWhole(d: Disk, m: Meta)
    requires SavedUpTo(d, m, |UFW_FILES|)
    ensures Intact(d.(meta := Some(m)), d.live)
  {
    assert UFW_FILES[..|UFW_FILES|] == UFW_FILES;
    forall f ensures f in m.files <==> f in d.live.ufw { AllFiles(f); }
    assert m.files == d.live.ufw.Keys;
  }

  lemma RestoreFileKeepsInv(s: State, ok: bool)
    requires Inv(s) && s.proc.Restoring? && s.proc.i < |UFW_FILES|
    ensures Inv(RestoreStep(s, ok))
  {
    var d, a, t := s.disk, s.attempt.value, RestoreStep(s, ok);
    assert Intact(d, a.base);
    FileIsPutBack(d, a.base, s.proc.i);
    hide RestoredUpTo;
    hide Restored;
  }

  lemma FileIsPutBack(d: Disk, base: Settings, i: nat)
    requires Intact(d, base) && i < |UFW_FILES| && RestoredUpTo(d.live, base, i)
    ensures var f := UFW_FILES[i];
            var live := if f in d.meta.value.files && f in d.saved
                        then d.live.(ufw := d.live.ufw[f := d.saved[f]]) else d.live;
            RestoredUpTo(live, base, i + 1) && (Restored(d.live, base) ==> Restored(live, base))
  {
  }

  lemma RestoreLastKeepsInv(s: State, ok: bool)
    requires Inv(s) && s.proc.Restoring? && s.proc.i >= |UFW_FILES|
    ensures Inv(RestoreStep(s, ok))
  {
    if s.proc.i > |UFW_FILES| {
      RestoredAll(s.disk.live, s.attempt.value.base);
    }
  }

  lemma RestoreKeepsInv(s: State, ok: bool, clock: real)
    requires Inv(s) && s.proc.Restoring?
    ensures Inv(Advance(s, ok, clock))
  {
    if s.proc.i < |UFW_FILES| { RestoreFileKeepsInv(s, ok); } else { RestoreLastKeepsInv(s, ok); }
  }

  lemma ArmKeepsInv(s: State, ok: bool, clock: real)
    requires Inv(s) && (s.proc.WritingPending? || s.proc.EnablingTimer?)
    ensures Inv(Advance(s, ok, clock))
  {
  }

  lemma ChangeKeepsInv(s: State, ok: bool, clock: real)
    requires Inv(s) && (s.proc.WritingDropin? || s.proc.TestingSshd? || s.proc.RunningUfw? || s.proc.MarkingApplied?)
    ensures Inv(Advance(s, ok, clock))
  {
  }

  lemma UndoneKeepsInv(s: State, ok: bool, clock: real)
    requires Inv(s) && (s.proc.AbortDisarm? || s.proc.AbortRemove? || s.proc.RevertRemove?
                        || s.proc.RevertRecord? || s.proc.Disarming?)
    ensures Inv(Advance(s, ok, clock))
  {
  }

  lemma FinalizeKeepsInv(s: State, ok: bool, clock: real)
    requires Inv(s) && (s.proc.FinDisarm? || s.proc.FinApplied? || s.proc.FinRemove? || s.proc.FinForget?)
    ensures Inv(Advance(s, ok, clock))
  {
  }

  lemma AdvanceKeepsInv(s: State, ok: bool, clock: real)
    requires Inv(s)
    ensures Inv(Advance(s, ok, clock))
  {
    match s.proc
    case Idle =>
    case Saving(_, _) => SaveKeepsInv(s, ok, clock);
    case WritingPending => ArmKeepsInv(s, ok, clock);
    case EnablingTimer(_) => ArmKeepsInv(s, ok, clock);
    case WritingDropin(_) => ChangeKeepsInv(s, ok, clock);
    case TestingSshd(_) => ChangeKeepsInv(s, ok, clock);
    case RunningUfw(_) => ChangeKeepsInv(s, ok, clock);
    case MarkingApplied(_) => ChangeKeepsInv(s, ok, clock);
    case Restoring(_, _, _) => RestoreKeepsInv(s, ok, clock);
    case AbortDisarm(_) => UndoneKeepsInv(s, ok, clock);
    case AbortRemove(_) => UndoneKeepsInv(s, ok, clock);
    case RevertRemove(_) => UndoneKeepsInv(s, ok, clock);
    case RevertRecord(_) => UndoneKeepsInv(s, ok, clock);
    case Disarming => UndoneKeepsInv(s, ok, clock);
    case FinDisarm(_) => FinalizeKeepsInv(s, ok, clock);
    case FinApplied(_) => FinalizeKeepsInv(s, ok, clock);
    case FinRemove(_) => FinalizeKeepsInv(s, ok, clock);
    case FinForget(_) => FinalizeKeepsInv(s, ok, clock);
  }

  lemma StartKeepsInv(s: State, e: Event)
    requires Inv(s) && (e.StartApply? || e.StartRevert? || e.StartFinalize?)
    ensures Inv(Next(s, e))
  {
  }

  lemma RaiseKeepsInv(s: State, e: Event)
    requires Inv(s) && e.Raise?
    ensures Inv(Next(s, e))
  {
    if s.proc.WritingDropin? || s.proc.TestingSshd? || s.proc.RunningUfw? {
      RaiseUndoes(s, e);
    } else {
      hide Intact;
      hide SavedUpTo;
      hide Restored;
    }
  }

  lemma RaiseUndoes(s: State, e: Event)
    requires Inv(s) && e.Raise? && (s.proc.WritingDropin? || s.proc.TestingSshd? || s.proc.RunningUfw?)
    ensures Inv(Next(s, e))
  {
    hide Intact;
    hide SavedUpTo;
    hide Restored;
  }

  lemma UfwOrCrashKeepsInv(s: State, e: Event)
    requires Inv(s) && (e.Crash? || e.UfwChanges? || e.UfwDone?)
    ensures Inv(Next(s, e))
  {
  }

  lemma ConfirmKeepsInv(s: State, e: Event)
    requires Inv(s) && (e.ConfirmRead? || e.ConfirmWrite? || e.ConfirmDies?)
    ensures Inv(Next(s, e))
  {
    hide Restored;
    hide RestoredUpTo;
  }

  lemma NextKeepsInv(s: State, e: Event)
    requires Inv(s)
    ensures Inv(Next(s, e))
  {
    match e
    case Proceed(ok, clock) => AdvanceKeepsInv(s, ok, clock);
    case StartApply => StartKeepsInv(s, e);
    case StartRevert(_, _) => StartKeepsInv(s, e);
    case StartFinalize => StartKeepsInv(s, e);
    case ConfirmRead => ConfirmKeepsInv(s, e);
    case ConfirmWrite(_) => ConfirmKeepsInv(s, e);
    case ConfirmDies(_) => ConfirmKeepsInv(s, e);
    case Raise(_) => RaiseKeepsInv(s, e);
    case _ => UfwOrCrashKeepsInv(s, e);
  }

  lemma {:induction false} RunKeepsInv(s: State, es: seq<Event>)
    requires Fresh(s) || Inv(s)
    ensures Inv(Run(s, es))
  {
    if |es| > 0 {
      RunKeepsInv(s, es[..|es| - 1]);
      NextKeepsInv(Run(s, es[..|es| - 1]), es[|es| - 1]);
    }
  }

  // ---------- main results ----------

  /** In every reachable state, after any number of attempts, crashes, reboots and confirmations. */
  lemma SafetyNet(s: State, es: seq<Event>)
    requires Fresh(s)
    ensures var t := Run(s, es); t.attempt.Some? ==> Safe(t.disk, t.attempt.value)
  {
    RunKeepsInv(s, es);
  }
}
