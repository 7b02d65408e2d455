/** What the lockdown machine guarantees over whole runs. */
module LockdownTheorems {
  import opened Common
  import opened LockdownMachine

  lemma RunSnoc(s: State, es: seq<Event>, e: Event)
    ensures Run(s, es + [e]) == Next(Run(s, es), e)
  {
    assert (es + [e])[..|es|] == es;
  }

  // ---------- a confirmation in time ----------

  /** A confirmation written before any restore began keeps exactly the settings that were applied,
      from then on, whatever crashes and timers follow. */
  lemma ConfirmedInTimeStays(s: State, es: seq<Event>)
    requires Fresh(s)
    ensures var t := Run(s, es);
            t.attempt.Some? && t.attempt.value.kept ==>
              var a := t.attempt.value;
              && Some(t.disk.live) == a.target
              && (a.nonce in t.disk.confirmed || t.disk.applied == Some(a.nonce))
  {
    RunKeepsInv(s, es);
  }

  /** The attempt `n` is vouched for, or followed by a later one. */
  ghost predicate VouchedFor(t: State, n: Nonce, target: Option<Settings>) {
    && t.attempt.Some? && n <= t.attempt.value.nonce < t.next
    && (t.attempt.value.nonce == n ==> t.attempt.value.kept && t.attempt.value.target == target)
  }

  lemma NextKeepsVouched(t: State, e: Event, n: Nonce, target: Option<Settings>)
    requires Inv(t) && VouchedFor(t, n, target)
    ensures VouchedFor(Next(t, e), n, target)
  {
    hide Safe;
    hide Intact;
    hide Restored;
    hide RestoredUpTo;
    hide SavedUpTo;
  }

  lemma {:induction false} RunKeepsVouched(t: State, es: seq<Event>, n: Nonce, target: Option<Settings>)
    requires Inv(t) && VouchedFor(t, n, target)
    ensures Inv(Run(t, es)) && VouchedFor(Run(t, es), n, target)
  {
    hide VouchedFor;
    hide Inv;
    if |es| > 0 {
      RunKeepsVouched(t, es[..|es| - 1], n, target);
      NextKeepsVouched(Run(t, es[..|es| - 1]), es[|es| - 1], n, target);
      NextKeepsInv(Run(t, es[..|es| - 1]), es[|es| - 1]);
    }
  }

  /** In events: a laptop that has read the record of an attempt writes its confirmation before any restore
      for it has begun. Then, whatever happens, the settings are those applied for as long as no later
      attempt is armed, and the lockdown is confirmed or recorded. */
  lemma ConfirmedInTimeHolds(s: State, past: seq<Event>, n: Nonce, later: seq<Event>)
    requires Fresh(s)
    requires var t := Run(s, past);
             t.attempt.Some? && t.attempt.value.nonce == n && !t.attempt.value.undoing && n in t.inflight
    ensures var t := Run(s, past);
            var u := Run(Next(t, ConfirmWrite(n)), later);
            && t.attempt.value.target == Some(t.disk.live)
            && u.attempt.Some?
            && (u.attempt.value.nonce == n ==>
                  u.disk.live == t.disk.live && (n in u.disk.confirmed || u.disk.applied == Some(n)))
  {
    RunKeepsInv(s, past);
    var t := Run(s, past);
    hide Run;
    var v := Next(t, ConfirmWrite(n));
    NextKeepsInv(t, ConfirmWrite(n));
    assert VouchedFor(v, n, t.attempt.value.target);
    RunKeepsVouched(v, later, n, t.attempt.value.target);
  }

  /** Nobody can vouch for, or record, a lockdown whose changes were not all in place. */
  lemma NoEarlyConfirmation(s: State, es: seq<Event>)
    requires Fresh(s)
    ensures var t := Run(s, es);
            && t.attempt.Some?
            && (t.attempt.value.nonce in t.disk.confirmed || t.disk.applied == Some(t.attempt.value.nonce))
            ==> t.attempt.value.target.Some?
  {
    RunKeepsInv(s, es);
  }

  // ---------- an uninterrupted revert ----------

  predicate Quiet(es: seq<Event>) {
    forall i :: 0 <= i < |es| ==> es[i].Proceed? || es[i].ConfirmRead? || es[i].ConfirmWrite? || es[i].ConfirmDies?
  }

  function Proceeds(es: seq<Event>): nat {
    if |es| == 0 then 0 else Proceeds(es[..|es| - 1]) + (if es[|es| - 1].Proceed? then 1 else 0)
  }

  /** Writes and commands left before the program ends by itself. */
  function Left(p: Proc): nat {
    match p
    case Disarming => 1
    case RevertRecord(_) => 2
    case RevertRemove(_) => 3
    case Restoring(_, i, Reverting) => if i <= |UFW_FILES| + 1 then 5 + |UFW_FILES| - i else 4
    case FinForget(_) => 1
    case FinRemove(_) => 2
    case FinApplied(_) => 3
    case FinDisarm(_) => 4
    case _ => 0
  }

  const REVERT_STEPS: nat := 9

  ghost predicate UndoingPhase(t: State, n: Nonce, base: Settings) {
    match t.proc
    case Restoring(m, _, why) => m == n && why == Reverting && Owns(t, n) && t.attempt.value.base == base
    case RevertRemove(m) => m == n && Owns(t, n) && t.attempt.value.base == base && Restored(t.disk.live, base)
    case RevertRecord(m) => m == n && t.disk.pending.None? && Restored(t.disk.live, base)
    case Disarming => t.disk.pending.None? && Restored(t.disk.live, base) && t.disk.reverted == Some(n)
    case Idle => t.disk.pending.None? && Restored(t.disk.live, base) && t.disk.reverted == Some(n)
    case _ => false
  }

  ghost predicate FinalizingPhase(t: State, n: Nonce, live: Settings) {
    && t.disk.live == live
    && match t.proc
       case FinDisarm(m) => m == n && Owns(t, n)
       case FinApplied(m) => m == n && Owns(t, n)
       case FinRemove(m) => m == n && Owns(t, n) && t.disk.applied == Some(n)
       case FinForget(m) => m == n && t.disk.pending.None? && t.disk.applied == Some(n)
       case Idle => t.disk.pending.None? && t.disk.applied == Some(n)
       case _ => false
  }

  lemma UndoingStep(t: State, e: Event, n: Nonce, base: Settings)
    requires Inv(t) && UndoingPhase(t, n, base)
    requires e.Proceed? || e.ConfirmRead? || e.ConfirmWrite? || e.ConfirmDies?
    ensures UndoingPhase(Next(t, e), n, base)
    ensures e.Proceed? && Left(t.proc) > 0 ==> Left(Next(t, e).proc) == Left(t.proc) - 1
    ensures !e.Proceed? ==> Next(t, e).proc == t.proc
  {
    if t.proc.Restoring? && t.proc.i > |UFW_FILES| {
      RestoredAll(t.disk.live, base);
    }
  }

  lemma FinalizingStep(t: State, e: Event, n: Nonce, live: Settings)
    requires Inv(t) && FinalizingPhase(t, n, live)
    requires e.Proceed? || e.ConfirmRead? || e.ConfirmWrite? || e.ConfirmDies?
    ensures FinalizingPhase(Next(t, e), n, live)
    ensures e.Proceed? && Left(t.proc) > 0 ==> Left(Next(t, e).proc) == Left(t.proc) - 1
    ensures !e.Proceed? ==> Next(t, e).proc == t.proc
  {
  }

  lemma {:induction false} UndoingRun(t: State, es: seq<Event>, n: Nonce, base: Settings)
    requires Inv(t) && UndoingPhase(t, n, base) && Quiet(es)
    ensures Inv(Run(t, es)) && UndoingPhase(Run(t, es), n, base)
    ensures Left(Run(t, es).proc) == Max(0, Left(t.proc) - Proceeds(es))
  {
    if |es| > 0 {
      var front, u := es[..|es| - 1], Run(t, es[..|es| - 1]);
      UndoingRun(t, front, n, base);
      UndoingStep(u, es[|es| - 1], n, base);
      NextKeepsInv(u, es[|es| - 1]);
    }
  }

  lemma {:induction false} FinalizingRun(t: State, es: seq<Event>, n: Nonce, live: Settings)
    requires Inv(t) && FinalizingPhase(t, n, live) && Quiet(es)
    ensures Inv(Run(t, es)) && FinalizingPhase(Run(t, es), n, live)
    ensures Left(Run(t, es).proc) == Max(0, Left(t.proc) - Proceeds(es))
  {
    if |es| > 0 {
      var front, u := es[..|es| - 1], Run(t, es[..|es| - 1]);
      FinalizingRun(t, front, n, live);
      FinalizingStep(u, es[|es| - 1], n, live);
      NextKeepsInv(u, es[|es| - 1]);
    }
  }

  /** From any reachable state with a pending record, the timer's run removes the record within nine
      writes, confirmations arriving meanwhile or not. Unconfirmed when it starts: the settings of
      before are back. Confirmed: nothing is touched and the lockdown is recorded as applied. */
  lemma TimerSettles(s: State, past: seq<Event>, now: real, es: seq<Event>)
    requires Fresh(s)
    requires var t := Run(s, past); t.proc.Idle? && t.disk.pending.Some?
    requires Quiet(es) && Proceeds(es) >= REVERT_STEPS
    ensures var t := Run(s, past);
            var u := Run(Next(t, StartRevert(now, true)), es);
            var n := t.disk.pending.value.nonce;
            && t.attempt.Some? && t.attempt.value.nonce == n
            && u.proc.Idle? && u.disk.pending.None?
            && (n !in t.disk.confirmed ==>
                  Restored(u.disk.live, t.attempt.value.base) && u.disk.reverted == Some(n))
            && (n in t.disk.confirmed ==> u.disk.live == t.disk.live && u.disk.applied == Some(n))
            && (t.attempt.value.kept ==> Some(u.disk.live) == t.attempt.value.target && u.disk.applied == Some(n))
  {
    RunKeepsInv(s, past);
    var t := Run(s, past);
    var n := t.disk.pending.value.nonce;
    var v := Next(t, StartRevert(now, true));
    NextKeepsInv(t, StartRevert(now, true));
    if n in t.disk.confirmed {
      FinalizingRun(v, es, n, t.disk.live);
    } else {
      UndoingRun(v, es, n, t.attempt.value.base);
    }
  }

  // ---------- what a restore writes, piece by piece ----------

  /** Answers of the commands of one run: putting ufw back, and disabling the timer. */
  datatype Replies = Replies(ufw: bool, off: bool)

  /** The running program left alone for `k` steps. */
  function Drive(s: State, k: nat, r: Replies): State {
    if k == 0 then s
    else var t := Drive(s, k - 1, r); Advance(t, if t.proc.Restoring? then r.ufw else r.off, 0.0)
  }

  /** Four ufw files, the sshd drop-in, and the command that switches ufw. */
  const PIECES: nat := |UFW_FILES| + 2

  /** Piece `j` of `live` is what the snapshot on `d` says, as far as it says anything. */
  ghost predicate Holds(live: Settings, d: Disk, ufw: bool, j: nat)
    requires d.meta.Some?
  {
    if j < |UFW_FILES| then
      var f := UFW_FILES[j];
      f in d.meta.value.files && f in d.saved ==> f in live.ufw && live.ufw[f] == d.saved[f]
    else if j == |UFW_FILES| then live.dropin == d.meta.value.dropin
    else ufw ==> live.running == d.meta.value.ufwEnabled
  }

  /** The settings after the first `k` pieces of a restore. */
  ghost function Partial(d: Disk, ufw: bool, k: nat): Settings
    requires d.meta.Some? && k <= PIECES
  {
    if k == 0 then d.live
    else
      var live, j := Partial(d, ufw, k - 1), k - 1;
      if j < |UFW_FILES| then
        var f := UFW_FILES[j];
        if f in d.meta.value.files && f in d.saved then live.(ufw := live.ufw[f := d.saved[f]]) else live
      else if j == |UFW_FILES| then live.(dropin := d.meta.value.dropin)
      else if ufw then live.(running := d.meta.value.ufwEnabled) else live
  }

  lemma {:induction false} PartialHolds(d: Disk, ufw: bool, k: nat, j: nat)
    requires d.meta.Some? && j < k <= PIECES
    ensures Holds(Partial(d, ufw, k), d, ufw, j)
  {
    if j < k - 1 { PartialHolds(d, ufw, k - 1, j); }
  }

  lemma {:induction false} PartialSame(d: Disk, ufw: bool, k: nat)
    requires d.meta.Some? && k <= PIECES
    requires forall j :: 0 <= j < k ==> Holds(d.live, d, ufw, j)
    ensures Partial(d, ufw, k) == d.live
  {
    if k > 0 {
      PartialSame(d, ufw, k - 1);
      assert Holds(d.live, d, ufw, k - 1);
    }
  }

  /** A restore cut after `k` pieces leaves the settings as they were if and only if each of the pieces
      was as in the snapshot already. */
  lemma PartialSameIff(d: Disk, ufw: bool, k: nat)
    requires d.meta.Some? && k <= PIECES
    ensures Partial(d, ufw, k) == d.live <==> forall j :: 0 <= j < k ==> Holds(d.live, d, ufw, j)
  {
    hide Partial;
    hide Holds;
    if Partial(d, ufw, k) == d.live {
      forall j | 0 <= j < k ensures Holds(d.live, d, ufw, j) { PartialHolds(d, ufw, k, j); }
    } else if forall j :: 0 <= j < k ==> Holds(d.live, d, ufw, j) {
      PartialSame(d, ufw, k);
    }
  }

  /** What a complete restore makes of the settings on disk `d`. */
  ghost function Goal(d: Disk): Settings
    requires d.meta.Some?
  {
    var m := d.meta.value;
    Settings(map f | f in d.live.ufw.Keys + (m.files * d.saved.Keys) ::
               if f in m.files && f in d.saved then d.saved[f] else d.live.ufw[f],
             m.dropin, m.ufwEnabled)
  }

  /** The same, the last command perhaps failing. */
  ghost function Settled(d: Disk, ufw: bool): Settings
    requires d.meta.Some?
  {
    if ufw then Goal(d) else Goal(d).(running := d.live.running)
  }

  ghost predicate Copied(d: Disk, i: nat)
    requires d.meta.Some?
  {
    forall j :: 0 <= j < i && j < |UFW_FILES| && UFW_FILES[j] in d.meta.value.files && UFW_FILES[j] in d.saved ==>
      UFW_FILES[j] in d.live.ufw && d.live.ufw[UFW_FILES[j]] == d.saved[UFW_FILES[j]]
  }

  lemma CopiedAll(d: Disk)
    requires d.meta.Some? && Copied(d, |UFW_FILES|) && d.live.dropin == d.meta.value.dropin
    ensures Goal(d) == d.live.(running := d.meta.value.ufwEnabled)
  {
    forall f | f in d.meta.value.files && f in d.saved
      ensures f in d.live.ufw && d.live.ufw[f] == d.saved[f]
    {
      AllFiles(f);
    }
    assert Goal(d).ufw == d.live.ufw;
  }

  /** The goal of a restore stays the same while it is approached. */
  lemma {:induction false} GoalStays(d: Disk, ufw: bool, k: nat)
    requires d.meta.Some? && k <= PIECES
    ensures Goal(d.(live := Partial(d, ufw, k))) == Goal(d)
    ensures k < PIECES ==> Partial(d, ufw, k).running == d.live.running
    ensures k == PIECES ==> Partial(d, ufw, k).running == if ufw then d.meta.value.ufwEnabled else d.live.running
  {
    if k > 0 {
      GoalStays(d, ufw, k - 1);
      PieceKeepsGoal(d, ufw, k);
      hide Goal;
    }
  }

  lemma PieceKeepsGoal(d: Disk, ufw: bool, k: nat)
    requires d.meta.Some? && 0 < k <= PIECES
    ensures Goal(d.(live := Partial(d, ufw, k))) == Goal(d.(live := Partial(d, ufw, k - 1)))
  {
    var live := Partial(d, ufw, k - 1);
    if k <= |UFW_FILES| {
      var f := UFW_FILES[k - 1];
      if f in d.meta.value.files && f in d.saved { FileKeepsGoal(d.(live := live), f); }
    }
  }

  lemma FileKeepsGoal(d: Disk, f: UfwFile)
    requires d.meta.Some? && f in d.meta.value.files && f in d.saved
    ensures Goal(d.(live := d.live.(ufw := d.live.ufw[f := d.saved[f]]))) == Goal(d)
  {
    assert Goal(d.(live := d.live.(ufw := d.live.ufw[f := d.saved[f]]))).ufw == Goal(d).ufw;
  }

  lemma PartialIsSettled(d: Disk, ufw: bool)
    requires d.meta.Some?
    ensures Partial(d, ufw, PIECES) == Settled(d, ufw)
  {
    hide Partial;
    var e := d.(live := Partial(d, ufw, PIECES));
    GoalStays(d, ufw, PIECES);
    forall j | 0 <= j < |UFW_FILES| && UFW_FILES[j] in d.meta.value.files && UFW_FILES[j] in d.saved
      ensures UFW_FILES[j] in e.live.ufw && e.live.ufw[UFW_FILES[j]] == d.saved[UFW_FILES[j]]
    {
      PartialHolds(d, ufw, PIECES, j);
    }
    PartialHolds(d, ufw, PIECES, |UFW_FILES|);
    CopiedAll(e);
  }

  /** Going on from a restore that was cut. */
  lemma SettledAgain(d: Disk, k: nat, first: bool, second: bool)
    requires d.meta.Some? && k <= PIECES
    ensures Settled(d.(live := Partial(d, first, k)), second)
            == Goal(d).(running := if second || (k == PIECES && first) then d.meta.value.ufwEnabled else d.live.running)
  {
    GoalStays(d, first, k);
  }

  // ---------- doing it again after a crash ----------

  /** The disk of a revert that started on `d` and has done `k` of its nine steps. */
  ghost predicate RevertAt(d: Disk, u: State, n: Nonce, k: nat, r: Replies)
    requires d.meta.Some?
  {
    if k < PIECES then u.proc == Restoring(n, k, Reverting) && u.disk == d.(live := Partial(d, r.ufw, k))
    else
      var live := Partial(d, r.ufw, PIECES);
      if k == 6 then u.proc == RevertRemove(n) && u.disk == d.(live := live)
      else if k == 7 then u.proc == RevertRecord(n) && u.disk == d.(live := live, pending := None)
      else if k == 8 then u.proc == Disarming && u.disk == d.(live := live, pending := None, reverted := Some(n))
      else u.proc == Idle && u.disk == Disarm(d.(live := live, pending := None, reverted := Some(n)), r.off)
  }

  lemma RevertNext(d: Disk, u: State, n: Nonce, k: nat, r: Replies)
    requires d.meta.Some? && RevertAt(d, u, n, k, r)
    ensures var t := Advance(u, if u.proc.Restoring? then r.ufw else r.off, 0.0);
            RevertAt(d, t, n, k + 1, r) && t == u.(disk := t.disk, proc := t.proc)
  {
    if k < PIECES {
      RestoreNext(d, u, n, k, r);
    } else {
      hide Partial;
    }
  }

  lemma RestoreNext(d: Disk, u: State, n: Nonce, k: nat, r: Replies)
    requires d.meta.Some? && k < PIECES && RevertAt(d, u, n, k, r)
    ensures var t := RestoreStep(u, r.ufw);
            RevertAt(d, t, n, k + 1, r) && t == u.(disk := t.disk, proc := t.proc)
  {
  }

  lemma {:induction false} RevertDriven(d: Disk, v: State, n: Nonce, k: nat, r: Replies)
    requires d.meta.Some? && RevertAt(d, v, n, 0, r)
    ensures RevertAt(d, Drive(v, k, r), n, k, r)
    ensures Drive(v, k, r) == v.(disk := Drive(v, k, r).disk, proc := Drive(v, k, r).proc)
  {
    hide RevertAt;
    hide Advance;
    if k > 0 {
      RevertDriven(d, v, n, k - 1, r);
      RevertNext(d, Drive(v, k - 1, r), n, k - 1, r);
    }
  }

  /** The whole of `revert_if_due`, from a crash-free start: the root command of the timer. */
  function TimerRun(s: State, r: Replies): State {
    Drive(Next(s, StartRevert(0.0, true)), REVERT_STEPS, r)
  }

  /** The same, cut by a crash after `k` steps. */
  function CutRun(s: State, k: nat, r: Replies): State {
    Next(Drive(Next(s, StartRevert(0.0, true)), k, r), Crash)
  }

  lemma {:induction false} DriveDisarm(w: State, k: nat, r: Replies)
    requires w.proc.Disarming? && k > 0
    ensures Drive(w, k, r) == w.(disk := Disarm(w.disk, r.off), proc := Idle)
  {
    if k > 1 { DriveDisarm(w, k - 1, r); }
  }

  lemma CutIs(s: State, k: nat, r: Replies)
    requires s.proc.Idle? && s.disk.pending.Some? && s.disk.meta.Some? && k <= PIECES
    requires s.disk.pending.value.nonce !in s.disk.confirmed
    ensures var cut := CutRun(s, k, r);
            && cut.proc.Idle? && cut.inflight == s.inflight
            && cut.disk == s.disk.(live := Partial(s.disk, r.ufw, k))
  {
    hide Drive;
    var v := Next(s, StartRevert(0.0, true));
    assert RevertAt(s.disk, v, s.disk.pending.value.nonce, 0, r);
    hide Partial;
    RevertDriven(s.disk, v, s.disk.pending.value.nonce, k, r);
  }

  lemma CutLate(s: State, k: nat, r: Replies)
    requires s.proc.Idle? && s.disk.pending.Some? && s.disk.meta.Some? && k > PIECES
    requires s.disk.pending.value.nonce !in s.disk.confirmed
    ensures var d, cut := s.disk, CutRun(s, k, r);
            && cut.proc.Idle?
            && cut.disk == d.(live := Settled(d, r.ufw), pending := None,
                              timer := d.timer && !(k >= REVERT_STEPS && r.off),
                              reverted := if k == 7 then d.reverted else Some(d.pending.value.nonce))
  {
    hide Drive;
    hide Settled;
    var v := Next(s, StartRevert(0.0, true));
    assert RevertAt(s.disk, v, s.disk.pending.value.nonce, 0, r);
    hide Partial;
    RevertDriven(s.disk, v, s.disk.pending.value.nonce, k, r);
    PartialIsSettled(s.disk, r.ufw);
  }

  lemma RevertWhole(s: State, r: Replies)
    requires s.proc.Idle? && s.disk.pending.Some? && s.disk.meta.Some?
    requires s.disk.pending.value.nonce !in s.disk.confirmed
    ensures TimerRun(s, r).proc == Idle
    ensures TimerRun(s, r).disk == Disarm(s.disk.(live := Settled(s.disk, r.ufw), pending := None,
                                                  reverted := Some(s.disk.pending.value.nonce)), r.off)
  {
    hide Settled;
    hide Drive;
    RevertDriven(s.disk, Next(s, StartRevert(0.0, true)), s.disk.pending.value.nonce, REVERT_STEPS, r);
    PartialIsSettled(s.disk, r.ufw);
  }

  /** A revert cut after any step and then run again, its commands working or not: the files and the
      record end as if it had never been cut. ufw is switched if either run got to switch it, and the
      timer is off if either run got to disable it. The reverted record is the exception: it is lost
      by a cut between removing the pending record and writing it. */
  lemma RevertAgain(s: State, k: nat, first: Replies, second: Replies)
    requires s.proc.Idle? && s.disk.pending.Some? && s.disk.meta.Some?
    requires s.disk.pending.value.nonce !in s.disk.confirmed
    ensures var d, u := s.disk, TimerRun(CutRun(s, k, first), second);
            var switched := (k <= PIECES && second.ufw) || (k >= PIECES && first.ufw);
            && u.proc.Idle?
            && u.disk == d.(live := Settled(d, switched), pending := None,
                            timer := d.timer && !second.off && !(k >= REVERT_STEPS && first.off),
                            reverted := if k == 7 then d.reverted else Some(d.pending.value.nonce))
  {
    var n, d := s.disk.pending.value.nonce, s.disk;
    var cut := CutRun(s, k, first);
    if k <= PIECES {
      hide Partial;
      hide CutRun;
      hide TimerRun;
      CutIs(s, k, first);
      RevertWhole(cut, second);
      SettledAgain(d, k, first.ufw, second.ufw);
    } else {
      hide Settled;
      hide Drive;
      CutLate(s, k, first);
      DriveDisarm(Next(cut, StartRevert(0.0, true)), REVERT_STEPS, second);
    }
  }

  ghost predicate FinalizeAt(d: Disk, u: State, n: Nonce, k: nat, r: Replies) {
    var off := Disarm(d, r.off);
    if k == 0 then u.proc == FinDisarm(n) && u.disk == d
    else if k == 1 then u.proc == FinApplied(n) && u.disk == off
    else if k == 2 then u.proc == FinRemove(n) && u.disk == off.(applied := Some(n))
    else if k == 3 then u.proc == FinForget(n) && u.disk == off.(applied := Some(n), pending := None)
    else u.proc == Idle && u.disk == off.(applied := Some(n), pending := None, confirmed := d.confirmed - {n})
  }

  lemma {:induction false} FinalizeDriven(d: Disk, v: State, n: Nonce, k: nat, r: Replies)
    requires FinalizeAt(d, v, n, 0, r)
    ensures FinalizeAt(d, Drive(v, k, r), n, k, r)
    ensures Drive(v, k, r) == v.(disk := Drive(v, k, r).disk, proc := Drive(v, k, r).proc)
  {
    if k > 0 { FinalizeDriven(d, v, n, k - 1, r); }
  }

  lemma FinalizeWhole(s: State, r: Replies)
    requires s.proc.Idle? && s.disk.pending.Some?
    requires s.disk.pending.value.nonce in s.disk.confirmed
    ensures var n := s.disk.pending.value.nonce;
            && TimerRun(s, r) == s.(disk := TimerRun(s, r).disk)
            && TimerRun(s, r).disk
               == Disarm(s.disk, r.off).(applied := Some(n), pending := None, confirmed := s.disk.confirmed - {n})
  {
    FinalizeDriven(s.disk, Next(s, StartRevert(0.0, true)), s.disk.pending.value.nonce, REVERT_STEPS, r);
  }

  /** The same for a confirmed lockdown: cut anywhere and run again, the new settings stay and the
      record is written. Only a used confirmation file can be left behind. */
  lemma FinalizeAgain(s: State, k: nat, first: Replies, second: Replies)
    requires s.proc.Idle? && s.disk.pending.Some?
    requires s.disk.pending.value.nonce in s.disk.confirmed
    ensures var n, u := s.disk.pending.value.nonce, TimerRun(CutRun(s, k, first), second);
            && u.proc.Idle?
            && u.disk == s.disk.(timer := s.disk.timer && !second.off && !(k >= 1 && first.off),
                                 applied := Some(n), pending := None,
                                 confirmed := if k == 3 then s.disk.confirmed else s.disk.confirmed - {n})
  {
    FinalizeDriven(s.disk, Next(s, StartRevert(0.0, true)), s.disk.pending.value.nonce, k, first);
    var cut := CutRun(s, k, first);
    hide Drive;
    if k <= 2 {
      FinalizeWhole(cut, second);
    } else {
      DriveDisarm(Next(cut, StartRevert(0.0, true)), REVERT_STEPS, second);
    }
  }

  // ---------- exactly as it was ----------

  /** The documentation promises that an unconfirmed lockdown is undone "exactly". It is, if and only if
      ufw has no settings file that was not there before and the command that switches it works or has
      nothing to switch. */
  lemma ExactlyAsBefore(s: State, past: seq<Event>, r: Replies)
    requires Fresh(s)
    requires var t := Run(s, past);
             t.proc.Idle? && t.disk.pending.Some? && t.disk.pending.value.nonce !in t.disk.confirmed
    ensures var t := Run(s, past);
            && t.attempt.Some?
            && (TimerRun(t, r).disk.live == t.attempt.value.base
                <==> && t.disk.live.ufw.Keys <= t.attempt.value.base.ufw.Keys
                     && (r.ufw || t.disk.live.running == t.attempt.value.base.running))
  {
    RunKeepsInv(s, past);
    var t := Run(s, past);
    var d, base := t.disk, t.attempt.value.base;
    RevertWhole(t, r);
    hide Run;
    hide TimerRun;
    assert Intact(d, base);
    assert Goal(d).ufw.Keys == d.live.ufw.Keys + base.ufw.Keys;
    if d.live.ufw.Keys <= base.ufw.Keys { assert Goal(d).ufw == base.ufw; }
  }

  // ---------- waiting ----------

  /** What one look of `wait_for_confirmation` makes of the disk: an answer, or keep waiting. */
  function WaitAnswer(d: Disk): Option<bool> {
    if d.pending.None? then Some(d.applied.Some?)
    else if d.pending.value.nonce in d.confirmed then Some(true)
    else None
  }

  /** `wait_for_confirmation` finds the record gone and asks whether *a* lockdown was applied. After
      the timer undid this one, the answer is yes exactly if an earlier one was on record: the wait
      then reports success for a lockdown that was reverted. */
  lemma WaitAnswersForTheWrongLockdown(s: State, r: Replies)
    requires s.proc.Idle? && s.disk.pending.Some? && s.disk.meta.Some?
    requires s.disk.pending.value.nonce !in s.disk.confirmed
    ensures var t := TimerRun(s, r);
            && WaitAnswer(s.disk) == None
            && WaitAnswer(t.disk) == Some(s.disk.applied.Some?)
            && t.disk.live == Settled(s.disk, r.ufw) && t.disk.applied == s.disk.applied
  {
    RevertWhole(s, r);
  }

  // ---------- a confirmation that comes too late ----------

  /** Every setting is the applied one or the one of before; nothing else, nothing lost. */
  ghost predicate Mixed(live: Settings, base: Settings, target: Settings) {
    && (forall f :: f in live.ufw ==> || (f in target.ufw && live.ufw[f] == target.ufw[f])
                                      || (f in base.ufw && live.ufw[f] == base.ufw[f]))
    && target.ufw.Keys <= live.ufw.Keys
    && (live.dropin == target.dropin || live.dropin == base.dropin)
  }

  ghost predicate MixInv(s: State) {
    s.attempt.Some? && s.attempt.value.target.Some? ==>
      Mixed(s.disk.live, s.attempt.value.base, s.attempt.value.target.value)
  }

  lemma RestoreKeepsMix(s: State, ok: bool)
    requires Inv(s) && MixInv(s) && s.proc.Restoring?
    ensures MixInv(RestoreStep(s, ok))
  {
    assert Intact(s.disk, s.attempt.value.base);
  }

  lemma NextKeepsMix(s: State, e: Event)
    requires Inv(s) && MixInv(s)
    ensures MixInv(Next(s, e))
  {
    if e.Proceed? {
      AdvanceKeepsMix(s, e.ok, e.clock);
    } else {
      hide Mixed;
      hide Intact;
      hide Safe;
      hide Restored;
      hide RestoredUpTo;
      hide SavedUpTo;
    }
  }

  lemma MixedSelf(live: Settings, base: Settings)
    ensures Mixed(live, base, live)
  {
  }

  lemma AdvanceKeepsMix(s: State, ok: bool, clock: real)
    requires Inv(s) && MixInv(s)
    ensures MixInv(Advance(s, ok, clock))
  {
    hide Safe;
    hide Restored;
    hide RestoredUpTo;
    hide SavedUpTo;
    if s.proc.Restoring? {
      hide MixInv;
      hide Inv;
      RestoreKeepsMix(s, ok);
    } else {
      hide Intact;
      hide Bounded;
      hide RecordInv;
      if s.attempt.Some? { MixedSelf(s.disk.live, s.attempt.value.base); }
      hide Mixed;
      match s.proc case _ =>
    }
  }

  lemma {:induction false} RunKeepsMix(s: State, es: seq<Event>)
    requires Fresh(s)
    ensures MixInv(Run(s, es))
  {
    if |es| > 0 {
      RunKeepsMix(s, es[..|es| - 1]);
      RunKeepsInv(s, es[..|es| - 1]);
      NextKeepsMix(Run(s, es[..|es| - 1]), es[|es| - 1]);
    }
  }

  /** What a recorded lockdown can look like: exactly the applied settings if no restore was started
      for it, and otherwise a mixture of the applied and the former ones. */
  lemma RecordedSettings(s: State, es: seq<Event>)
    requires Fresh(s)
    ensures var t := Run(s, es);
            t.attempt.Some? && t.disk.applied == Some(t.attempt.value.nonce) ==>
              var a := t.attempt.value;
              && a.target.Some?
              && (!a.undoing ==> t.disk.live == a.target.value)
              && Mixed(t.disk.live, a.base, a.target.value)
  {
    RunKeepsInv(s, es);
    RunKeepsMix(s, es);
  }

  /** Applied, and waiting for its confirmation. */
  ghost predicate Waiting(t: State) {
    && t.proc.Idle? && t.disk.pending.Some? && t.disk.pending.value.applied
    && t.disk.pending.value.nonce !in t.disk.confirmed
  }

  /** A laptop reads the ready record, the timer's restore dies after `k` pieces, the laptop's confirmation
      lands, and the timer runs again. */
  function Late(t: State, k: nat, first: Replies, second: Replies): State
    requires t.disk.pending.Some?
  {
    TimerRun(Next(CutRun(Next(t, ConfirmRead), k, first), ConfirmWrite(t.disk.pending.value.nonce)), second)
  }

  lemma LateIs(t: State, k: nat, first: Replies, second: Replies)
    requires Waiting(t) && t.disk.meta.Some? && k <= PIECES
    ensures var n, u := t.disk.pending.value.nonce, Late(t, k, first, second);
            && u.proc.Idle?
            && u.disk == Disarm(t.disk.(live := Partial(t.disk, first.ufw, k), pending := None, applied := Some(n)),
                                second.off)
  {
    var n, d := t.disk.pending.value.nonce, t.disk;
    var read := Next(t, ConfirmRead);
    assert read == t.(inflight := t.inflight + {n});
    hide Partial;
    hide CutRun;
    hide TimerRun;
    CutIs(read, k, first);
    var cut := CutRun(read, k, first);
    var m := Next(cut, ConfirmWrite(n));
    assert m.disk == cut.disk.(confirmed := d.confirmed + {n});
    FinalizeWhole(m, second);
    assert d.confirmed + {n} - {n} == d.confirmed;
  }

  /** The mixture, and exactly when there is none. For every reachable waiting lockdown: a confirmation
      that lands after `k` pieces of its undoing still makes it the recorded one, with those pieces as
      before and the others as applied. It records the applied settings if and only if each of the
      pieces was as before already. */
  lemma LateConfirmationKeepsMixture(s: State, past: seq<Event>, k: nat, first: Replies, second: Replies)
    requires Fresh(s) && Waiting(Run(s, past)) && k <= PIECES
    ensures var t := Run(s, past);
            var n, u := t.disk.pending.value.nonce, Late(t, k, first, second);
            && t.disk.meta.Some?
            && u.proc.Idle? && u.disk.pending.None? && u.disk.applied == Some(n)
            && u.disk.live == Partial(t.disk, first.ufw, k)
            && (u.disk.live == t.disk.live <==> forall j :: 0 <= j < k ==> Holds(t.disk.live, t.disk, first.ufw, j))
  {
    RunKeepsInv(s, past);
    var t := Run(s, past);
    hide Run;
    LateIs(t, k, first, second);
    hide Late;
    PartialSameIff(t.disk, first.ufw, k);
  }

  // ---------- such lockdowns are reached ----------

  /** An undisturbed `apply` whose ufw commands leave `ufw` and `running`. */
  function ApplyEvents(ufw: map<UfwFile, Bytes>, running: bool): seq<Event> {
    var go := Proceed(true, 0.0);
    [StartApply, go, go, go, go] + [go, go, go, go, go, UfwChanges(ufw, running)] + [UfwDone, go]
  }

  /** On any machine at rest, whatever was there and whatever ufw makes of it. */
  lemma ApplyReachesReady(s: State, ufw: map<UfwFile, Bytes>, running: bool)
    requires s.proc.Idle? && s.disk.pending.None?
    ensures var t := Run(s, ApplyEvents(ufw, running));
            && t.proc.Idle? && t.next == s.next + 1 && t.inflight == s.inflight && t.hardening == s.hardening
            && t.disk == s.disk.(saved := s.disk.saved + s.disk.live.ufw,
                                 meta := Some(Meta(s.disk.live.running, s.disk.live.ufw.Keys, s.disk.live.dropin)),
                                 pending := Some(Pending(s.next, REVERT_SECONDS, true)), timer := true,
                                 live := Settings(ufw, Some(s.hardening), running))
            && Intact(t.disk, s.disk.live)
            && t.attempt == Some(Attempt(s.next, s.disk.live, Some(t.disk.live), false, false))
  {
    hide Run;
    var go := Proceed(true, 0.0);
    var s1 := FilesSaved(s);
    var s2 := ChangesMade(s1, ufw, running);
    RunConcat(s, [StartApply, go, go, go, go] + [go, go, go, go, go, UfwChanges(ufw, running)], [UfwDone, go]);
    RunConcat(s, [StartApply, go, go, go, go], [go, go, go, go, go, UfwChanges(ufw, running)]);
    Run2(s2, UfwDone, go);
  }

  /** What the snapshot holds after looking at the first `i` files of `live`. */
  function SavedSome(live: Settings, saved: map<UfwFile, Bytes>, i: nat): map<UfwFile, Bytes>
    requires i <= |UFW_FILES|
  {
    if i == 0 then saved
    else
      var f, m := UFW_FILES[i - 1], SavedSome(live, saved, i - 1);
      if f in live.ufw then m[f := live.ufw[f]] else m
  }

  function NamedSome(live: Settings, i: nat): set<UfwFile>
    requires i <= |UFW_FILES|
  {
    if i == 0 then {}
    else NamedSome(live, i - 1) + if UFW_FILES[i - 1] in live.ufw then {UFW_FILES[i - 1]} else {}
  }

  lemma {:induction false} SavedFile(live: Settings, saved: map<UfwFile, Bytes>, i: nat, f: UfwFile)
    requires i <= |UFW_FILES|
    ensures var m, seen := SavedSome(live, saved, i), exists j :: 0 <= j < i && UFW_FILES[j] == f;
            && (f in m <==> f in saved || (f in live.ufw && seen))
            && (f in m ==> m[f] == if f in live.ufw && seen then live.ufw[f] else saved[f])
            && (f in NamedSome(live, i) <==> f in live.ufw && seen)
  {
    if i > 0 {
      SavedFile(live, saved, i - 1, f);
      if UFW_FILES[i - 1] != f {
        forall j | 0 <= j < i && UFW_FILES[j] == f ensures j < i - 1 {}
      }
    }
  }

  lemma SavedAll(live: Settings, saved: map<UfwFile, Bytes>)
    ensures SavedSome(live, saved, |UFW_FILES|) == saved + live.ufw && NamedSome(live, |UFW_FILES|) == live.ufw.Keys
  {
    hide SavedSome;
    hide NamedSome;
    forall f
      ensures var m := SavedSome(live, saved, |UFW_FILES|);
              && (f in m <==> f in saved + live.ufw) && (f in m ==> m[f] == (saved + live.ufw)[f])
              && (f in NamedSome(live, |UFW_FILES|) <==> f in live.ufw.Keys)
    {
      SavedFile(live, saved, |UFW_FILES|, f);
      AllFiles(f);
    }
  }

  ghost predicate SavedAt(s: State, t: State, i: nat)
    requires i <= |UFW_FILES|
  {
    var live := s.disk.live;
    t == s.(proc := Saving(i, Meta(live.running, NamedSome(live, i), live.dropin)),
            disk := s.disk.(saved := SavedSome(live, s.disk.saved, i)))
  }

  lemma SavedNext(s: State, t: State, i: nat)
    requires i < |UFW_FILES| && SavedAt(s, t, i)
    ensures SavedAt(s, Next(t, Proceed(true, 0.0)), i + 1)
  {
    var live := s.disk.live;
    assert NamedSome(live, i) + {} == NamedSome(live, i);
  }

  lemma FilesSaved(s: State) returns (t: State)
    requires s.proc.Idle? && s.disk.pending.None?
    ensures var go := Proceed(true, 0.0); t == Run(s, [StartApply, go, go, go, go])
    ensures t == s.(proc := Saving(4, Meta(s.disk.live.running, s.disk.live.ufw.Keys, s.disk.live.dropin)),
                    disk := s.disk.(saved := s.disk.saved + s.disk.live.ufw))
  {
    hide Run;
    var go := Proceed(true, 0.0);
    t := Next(s, StartApply);
    assert SavedAt(s, t, 0);
    hide Next;
    SavedNext(s, t, 0);
    t := Next(t, go);
    SavedNext(s, t, 1);
    t := Next(t, go);
    SavedNext(s, t, 2);
    t := Next(t, go);
    SavedNext(s, t, 3);
    t := Next(t, go);
    SavedAll(s.disk.live, s.disk.saved);
    Run5(s, StartApply, go, go, go, go);
  }

  lemma ChangesMade(s: State, ufw: map<UfwFile, Bytes>, running: bool) returns (t: State)
    requires s.proc.Saving? && s.proc.i == 4 && s.disk.pending.None?
    ensures var go := Proceed(true, 0.0); t == Run(s, [go, go, go, go, go, UfwChanges(ufw, running)])
    ensures t.proc == RunningUfw(s.next) && t.hardening == s.hardening
    ensures t.attempt == Some(Attempt(s.next, s.disk.live, None, false, false))
    ensures t.next == s.next + 1 && t.inflight == s.inflight
    ensures t.disk == s.disk.(meta := Some(s.proc.meta), timer := true,
                              pending := Some(Pending(s.next, REVERT_SECONDS, false)),
                              live := Settings(ufw, Some(s.hardening), running))
  {
    hide Run;
    var go := Proceed(true, 0.0);
    t := Next(s, go);
    assert t.proc == WritingPending && t.next == s.next;
    t := Next(t, go);
    assert t.proc == EnablingTimer(s.next);
    t := Next(t, go);
    t := Next(t, go);
    assert t.proc.TestingSshd?;
    t := Next(t, go);
    assert t.proc.RunningUfw?;
    t := Next(t, UfwChanges(ufw, running));
    Run5(s, go, go, go, go, go);
    RunSnoc(s, [go, go, go, go, go], UfwChanges(ufw, running));
    assert [go, go, go, go, go] + [UfwChanges(ufw, running)] == [go, go, go, go, go, UfwChanges(ufw, running)];
  }

  lemma Run2(s: State, a: Event, b: Event)
    ensures Run(s, [a, b]) == Next(Next(s, a), b)
  {
    RunSnoc(s, [], a);
    assert [] + [a] == [a];
    RunSnoc(s, [a], b);
    assert [a] + [b] == [a, b];
  }

  lemma Run5(s: State, a: Event, b: Event, c: Event, d: Event, e: Event)
    ensures Run(s, [a, b, c, d, e]) == Next(Next(Next(Next(Next(s, a), b), c), d), e)
  {
    hide Next;
    Run2(s, a, b);
    RunSnoc(s, [a, b], c);
    assert [a, b] + [c] == [a, b, c];
    RunSnoc(s, [a, b, c], d);
    assert [a, b, c] + [d] == [a, b, c, d];
    RunSnoc(s, [a, b, c, d], e);
    assert [a, b, c, d] + [e] == [a, b, c, d, e];
  }

  lemma {:induction false} RunConcat(s: State, a: seq<Event>, b: seq<Event>)
    ensures Run(s, a + b) == Run(Run(s, a), b)
  {
    if |b| == 0 {
      assert a + b == a;
    } else {
      assert (a + b)[..|a + b| - 1] == a + b[..|b| - 1];
      RunConcat(s, a, b[..|b| - 1]);
    }
  }

  /** The steps of `Drive` as events. */
  function DriveEvents(s: State, k: nat, r: Replies): seq<Event> {
    if k == 0 then []
    else DriveEvents(s, k - 1, r) + [Proceed(if Drive(s, k - 1, r).proc.Restoring? then r.ufw else r.off, 0.0)]
  }

  lemma {:induction false} DriveIsRun(s: State, k: nat, r: Replies)
    ensures Run(s, DriveEvents(s, k, r)) == Drive(s, k, r)
  {
    hide Advance;
    if k > 0 {
      DriveIsRun(s, k - 1, r);
      RunSnoc(s, DriveEvents(s, k - 1, r), Proceed(if Drive(s, k - 1, r).proc.Restoring? then r.ufw else r.off, 0.0));
    }
  }

  lemma TimerRunIsRun(s: State, r: Replies) returns (es: seq<Event>)
    ensures Run(s, es) == TimerRun(s, r)
  {
    hide Next;
    var start := StartRevert(0.0, true);
    var v := Next(s, start);
    DriveIsRun(v, REVERT_STEPS, r);
    RunConcat(s, [start], DriveEvents(v, REVERT_STEPS, r));
    assert Run(s, [start]) == v by { RunSnoc(s, [], start); assert [] + [start] == [start]; }
    es := [start] + DriveEvents(v, REVERT_STEPS, r);
  }

  lemma LateIsRun(t: State, k: nat, first: Replies, second: Replies) returns (es: seq<Event>)
    requires t.disk.pending.Some?
    ensures Run(t, es) == Late(t, k, first, second)
  {
    hide Next;
    hide Drive;
    var n, start := t.disk.pending.value.nonce, StartRevert(0.0, true);
    var v := Next(Next(t, ConfirmRead), start);
    Run2(t, ConfirmRead, start);
    DriveIsRun(v, k, first);
    RunConcat(t, [ConfirmRead, start], DriveEvents(v, k, first));
    var w := Drive(v, k, first);
    Run2(w, Crash, ConfirmWrite(n));
    RunConcat(t, [ConfirmRead, start] + DriveEvents(v, k, first), [Crash, ConfirmWrite(n)]);
    var m := Next(Next(w, Crash), ConfirmWrite(n));
    var last := TimerRunIsRun(m, second);
    es := [ConfirmRead, start] + DriveEvents(v, k, first) + [Crash, ConfirmWrite(n)];
    assert Run(t, es) == m;
    RunConcat(t, es, last);
    es := es + last;
  }

  /** The mixture is real: on any machine with a user.rules that the lockdown changes, a run ends with
      the lockdown recorded, the new drop-in, and the old user.rules. */
  lemma MixtureIsReached(s: State, ufw: map<UfwFile, Bytes>) returns (es: seq<Event>)
    requires Fresh(s) && UserRules in s.disk.live.ufw && UserRules in ufw
             && ufw[UserRules] != s.disk.live.ufw[UserRules]
    ensures var u, base := Run(s, es), s.disk.live;
            && u.proc.Idle? && u.disk.pending.None? && u.disk.applied == Some(s.next)
            && u.disk.live == Settings(ufw[UserRules := base.ufw[UserRules]], Some(s.hardening), true)
            && UserRules in u.disk.live.ufw && u.disk.live.ufw[UserRules] != ufw[UserRules]
  {
    var up := ApplyEvents(ufw, true);
    ApplyReachesReady(s, ufw, true);
    var t, all := Run(s, up), Replies(true, true);
    assert UFW_FILES[0] == UserRules;
    assert Partial(t.disk, true, 0) == t.disk.live;
    assert Partial(t.disk, true, 1) == t.disk.live.(ufw := ufw[UserRules := s.disk.live.ufw[UserRules]]);
    LateIs(t, 1, all, all);
    hide Partial;
    hide Late;
    var late := LateIsRun(t, 1, all, all);
    RunConcat(s, up, late);
    es := up + late;
  }

  /** And so is the wrong answer: on any machine, a first lockdown that is confirmed and recorded, and a
      second one that nobody confirms. The timer undoes the second, and the wait for it says yes. */
  lemma WrongAnswerIsReached(s: State, ufw1: map<UfwFile, Bytes>, ufw2: map<UfwFile, Bytes>, r: Replies)
    returns (es: seq<Event>)
    requires Fresh(s)
    ensures var t := Run(s, es);
            && Waiting(t) && t.disk.pending.value.nonce == s.next + 1 && t.disk.applied == Some(s.next)
            && t.disk.meta.Some? && t.disk.live == Settings(ufw2, Some(s.hardening), true)
            && WaitAnswer(TimerRun(t, r).disk) == Some(true)
            && TimerRun(t, r).disk.live == Settled(t.disk, r.ufw)
  {
    var first := ApplyEvents(ufw1, true);
    ApplyReachesReady(s, ufw1, true);
    var t1, all := Run(s, first), Replies(true, true);
    hide Run;
    Run2(t1, ConfirmRead, ConfirmWrite(s.next));
    var m := Next(Next(t1, ConfirmRead), ConfirmWrite(s.next));
    assert m.disk == t1.disk.(confirmed := {s.next}) && m.proc.Idle? && m.next == s.next + 1;
    FinalizeWhole(m, all);
    var fin := TimerRunIsRun(m, all);
    var t2 := Run(m, fin);
    assert t2.disk.confirmed == {} && t2.disk.pending.None? && t2.disk.applied == Some(s.next);
    ApplyReachesReady(t2, ufw2, true);
    var second := ApplyEvents(ufw2, true);
    RunConcat(s, first, [ConfirmRead, ConfirmWrite(s.next)]);
    RunConcat(s, first + [ConfirmRead, ConfirmWrite(s.next)], fin);
    RunConcat(s, first + [ConfirmRead, ConfirmWrite(s.next)] + fin, second);
    es := first + [ConfirmRead, ConfirmWrite(s.next)] + fin + second;
    WaitAnswersForTheWrongLockdown(Run(s, es), r);
  }
}
