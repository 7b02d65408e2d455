/** The pressure guard of pskit/runtime/pressure.py: what one cycle does, and bounds over all runs. */
module Pressure {
  import opened Common

  const BAD_CYCLES := 6
  const GOOD_CYCLES := 2
  const CPU_BAD := 80.0
  const IO_BAD := 40.0
  const FORK_BAD_MS := 500.0
  const MAX_FREEZE_S := 1800.0
  const HOLD_AFTER_S := 1800.0

  datatype Sample = Sample(force: bool, listener: bool, cpu: Option<real>, io: Option<real>, forkMs: real)

  predicate IsBad(s: Sample) {
    if s.force || !s.listener then true
    else if s.cpu.None? || s.io.None? then false
    else s.forkMs >= FORK_BAD_MS && (s.cpu.value >= CPU_BAD || s.io.value >= IO_BAD)
  }

  datatype Slice = Brain | Ci

  datatype Outcome = Released | Froze | Bad | Thawed | Good

  /** The guard's fields, the marker files, and the slices the kernel has stopped. */
  datatype State = State(bad: nat, good: nat, frozenAt: Option<real>, holdUntil: real, markers: set<Slice>,
                         stopped: set<Slice>)

  function Start(): State {
    State(0, 0, None, 0.0, {}, {})
  }

  /** One cycle's inputs: clock, sample, the slices systemd would freeze and those it would thaw. */
  datatype Tick = Tick(now: real, sample: Sample, freezable: set<Slice>, thawable: set<Slice>)

  function Freeze(s: State, t: Tick): State {
    s.(markers := s.markers + t.freezable, stopped := s.stopped + t.freezable)
  }

  function Thaw(s: State, t: Tick): State {
    s.(markers := {}, stopped := s.stopped - s.markers * t.thawable)
  }

  function Cycle(s: State, t: Tick): (State, Outcome) {
    if s.frozenAt.Some? && t.now - s.frozenAt.value >= MAX_FREEZE_S then
      (Thaw(s, t).(frozenAt := None, holdUntil := t.now + HOLD_AFTER_S, bad := 0, good := 0), Released)
    else if IsBad(t.sample) then
      if s.bad + 1 >= BAD_CYCLES && t.now >= s.holdUntil && s.frozenAt.None? then
        (Freeze(s, t).(frozenAt := Some(t.now), bad := 0, good := 0), Froze)
      else (s.(bad := s.bad + 1, good := 0), Bad)
    else if s.good + 1 >= GOOD_CYCLES then
      (Thaw(s, t).(frozenAt := None, bad := 0, good := 0), Thawed)
    else (s.(bad := 0, good := s.good + 1), Good)
  }

  function After(ticks: seq<Tick>): State {
    if |ticks| == 0 then Start() else Cycle(After(ticks[..|ticks| - 1]), ticks[|ticks| - 1]).0
  }

  /** What cycle `i` of a run did. */
  function At(ticks: seq<Tick>, i: nat): Outcome
    requires i < |ticks|
  {
    Cycle(After(ticks[..i]), ticks[i]).1
  }

  /** A monotone clock with at most `gap` between cycles. */
  ghost predicate Clock(ticks: seq<Tick>, gap: real) {
    && (forall i, j :: 0 <= i < j < |ticks| ==> ticks[i].now <= ticks[j].now)
    && (forall i :: 0 < i < |ticks| ==> ticks[i].now - ticks[i - 1].now <= gap)
  }

  // ---------- the guard as an object ----------

  class Guard {
    var bad: nat
    var good: nat
    var frozenAt: Option<real>
    var holdUntil: real
    var markers: set<Slice>
    var stopped: set<Slice>

    function Now(): State
      reads this
    {
      State(bad, good, frozenAt, holdUntil, markers, stopped)
    }

    constructor ()
      ensures Now() == Start()
    {
      bad, good, frozenAt, holdUntil, markers, stopped := 0, 0, None, 0.0, {}, {};
    }

    method FreezeSlices(freezable: set<Slice>)
      modifies this`markers, this`stopped
      ensures markers == old(markers) + freezable && stopped == old(stopped) + freezable
    {
      assert forall x: Slice :: x in freezable ==> x == Ci || x == Brain;
      if Ci in freezable { stopped := stopped + {Ci}; markers := markers + {Ci}; }
      if Brain in freezable { stopped := stopped + {Brain}; markers := markers + {Brain}; }
    }

    method ThawSlices(thawable: set<Slice>)
      modifies this`markers, this`stopped
      ensures markers == {} && stopped == old(stopped) - old(markers) * thawable
    {
      assert forall x: Slice :: x in markers ==> x == Ci || x == Brain;
      if Ci in markers {
        if Ci in thawable { stopped := stopped - {Ci}; }
        markers := markers - {Ci};
      }
      if Brain in markers {
        if Brain in thawable { stopped := stopped - {Brain}; }
        markers := markers - {Brain};
      }
    }

    method RunCycle(t: Tick) returns (outcome: Outcome)
      modifies this
      ensures (Now(), outcome) == Cycle(old(Now()), t)
    {
      if frozenAt.Some? && t.now - frozenAt.value >= MAX_FREEZE_S {
        ThawSlices(t.thawable);
        frozenAt := None;
        holdUntil := t.now + HOLD_AFTER_S;
        bad, good := 0, 0;
        return Released;
      }
      if IsBad(t.sample) {
        bad := bad + 1;
        good := 0;
        if bad >= BAD_CYCLES && t.now >= holdUntil && frozenAt.None? {
          FreezeSlices(t.freezable);
          frozenAt := Some(t.now);
          bad := 0;
          return Froze;
        }
        return Bad;
      }
      bad := 0;
      good := good + 1;
      if good >= GOOD_CYCLES {
        ThawSlices(t.thawable);
        frozenAt := None;
        good := 0;
        return Thawed;
      }
      return Good;
    }
  }

  // ---------- bounds ----------

  ghost predicate FrozenSince(ticks: seq<Tick>, i: int, at: real) {
    && 0 <= i < |ticks| && At(ticks, i) == Froze && ticks[i].now == at
    && forall j :: i < j < |ticks| ==> At(ticks, j) == Bad || At(ticks, j) == Good
  }

  ghost predicate FreezeInv(ticks: seq<Tick>, s: State) {
    s.frozenAt.Some? ==>
      (exists i :: FrozenSince(ticks, i, s.frozenAt.value)) && ticks[|ticks| - 1].now - s.frozenAt.value < MAX_FREEZE_S
  }

  /** Cycle `i` ended whatever freeze there was. */
  ghost predicate Ends(ticks: seq<Tick>, i: int) {
    0 <= i < |ticks| && (At(ticks, i) == Thawed || At(ticks, i) == Released)
  }

  ghost predicate ThawInv(ticks: seq<Tick>, s: State) {
    s.frozenAt.None? ==> forall i :: 0 <= i < |ticks| && At(ticks, i) == Froze ==> exists j :: i < j && Ends(ticks, j)
  }

  ghost predicate BadInv(ticks: seq<Tick>, s: State) {
    && s.bad <= |ticks| && (forall k :: |ticks| - s.bad <= k < |ticks| ==> At(ticks, k) == Bad)
    && (s.bad < |ticks| ==> At(ticks, |ticks| - 1 - s.bad) != Bad)
    && (s.good > 0 <==> |ticks| > 0 && At(ticks, |ticks| - 1) == Good)
  }

  ghost predicate HoldInv(ticks: seq<Tick>, s: State) {
    && (forall i :: 0 <= i < |ticks| && At(ticks, i) == Released ==> s.holdUntil >= ticks[i].now + HOLD_AFTER_S)
    && (s.holdUntil == 0.0
        || exists i :: 0 <= i < |ticks| && At(ticks, i) == Released && s.holdUntil == ticks[i].now + HOLD_AFTER_S)
  }

  ghost predicate Inv(ticks: seq<Tick>) {
    var s := After(ticks);
    && FreezeInv(ticks, s) && ThawInv(ticks, s) && BadInv(ticks, s) && HoldInv(ticks, s)
    && (s.markers != {} ==> s.frozenAt.Some?)
  }

  ghost predicate Monotone(ticks: seq<Tick>) {
    forall i, j :: 0 <= i < j < |ticks| ==> ticks[i].now <= ticks[j].now
  }

  /** What earlier cycles did does not depend on later ones. */
  ghost predicate SameFront(ticks: seq<Tick>, front: seq<Tick>) {
    && |ticks| == |front| + 1
    && forall i :: 0 <= i < |front| ==> ticks[i] == front[i] && At(front, i) == At(ticks, i)
  }

  lemma FrontIsSame(ticks: seq<Tick>)
    requires |ticks| > 0
    ensures SameFront(ticks, ticks[..|ticks| - 1])
  {
    var n := |ticks| - 1;
    forall i | 0 <= i < n ensures At(ticks[..n], i) == At(ticks, i) {
      assert ticks[..n][..i] == ticks[..i];
    }
  }

  lemma FreezeStep(ticks: seq<Tick>, front: seq<Tick>, s: State)
    requires SameFront(ticks, front) && Monotone(ticks) && FreezeInv(front, s)
    requires Cycle(s, ticks[|front|]).1 == At(ticks, |front|)
    ensures FreezeInv(ticks, Cycle(s, ticks[|front|]).0)
  {
    hide At;
    var n, t := |front|, Cycle(s, ticks[|front|]).0;
    if t.frozenAt.Some? {
      if At(ticks, n) == Froze {
        assert FrozenSince(ticks, n, t.frozenAt.value);
      } else {
        var i :| FrozenSince(front, i, s.frozenAt.value);
        assert FrozenSince(ticks, i, t.frozenAt.value);
      }
    }
  }

  lemma ThawStep(ticks: seq<Tick>, front: seq<Tick>, s: State)
    requires SameFront(ticks, front) && ThawInv(front, s)
    requires Cycle(s, ticks[|front|]).1 == At(ticks, |front|)
    ensures ThawInv(ticks, Cycle(s, ticks[|front|]).0)
  {
    hide At;
    var n, t := |front|, Cycle(s, ticks[|front|]).0;
    if t.frozenAt.None? {
      forall i | 0 <= i < |ticks| && At(ticks, i) == Froze ensures exists j :: i < j && Ends(ticks, j) {
        if s.frozenAt.Some? {
          assert Ends(ticks, n);
        } else {
          assert At(front, i) == Froze;
          var j :| i < j && Ends(front, j);
          assert Ends(ticks, j);
        }
      }
    }
  }

  lemma OtherSteps(ticks: seq<Tick>, front: seq<Tick>, s: State)
    requires SameFront(ticks, front) && Monotone(ticks) && BadInv(front, s) && HoldInv(front, s)
    requires s.markers != {} ==> s.frozenAt.Some?
    requires Cycle(s, ticks[|front|]).1 == At(ticks, |front|)
    ensures var t := Cycle(s, ticks[|front|]).0;
            BadInv(ticks, t) && HoldInv(ticks, t) && (t.markers != {} ==> t.frozenAt.Some?)
  {
    hide At;
  }

  lemma {:induction false} RunKeepsInv(ticks: seq<Tick>)
    requires Monotone(ticks)
    ensures Inv(ticks)
  {
    if |ticks| > 0 {
      var front := ticks[..|ticks| - 1];
      RunKeepsInv(front);
      FrontIsSame(ticks);
      var s := After(front);
      assert Cycle(s, ticks[|front|]).1 == At(ticks, |front|);
      hide FreezeInv;
      hide ThawInv;
      hide BadInv;
      hide HoldInv;
      hide SameFront;
      hide Monotone;
      FreezeStep(ticks, front, s);
      ThawStep(ticks, front, s);
      OtherSteps(ticks, front, s);
    }
  }

  // ---------- main results ----------

  /** When a sample is bad: always when asked to count it so, or when nobody listens for SSH any more;
      otherwise if starting a process takes half a second, and the processors or the disks are under
      pressure; never without both of those readings. */
  lemma BadExactly(s: Sample)
    ensures s.force || !s.listener ==> IsBad(s)
    ensures !s.force && s.listener && s.cpu.Some? && s.io.Some? ==>
              (IsBad(s) <==> s.forkMs >= 500.0 && !(s.cpu.value < 80.0 && s.io.value < 40.0))
    ensures !s.force && s.listener && !(s.cpu.Some? && s.io.Some?) ==> !IsBad(s)
  {
  }

  lemma MonotoneFront(ticks: seq<Tick>, n: nat)
    requires Monotone(ticks) && n <= |ticks|
    ensures Monotone(ticks[..n])
  {
  }

  lemma FrontAt(ticks: seq<Tick>, n: nat)
    requires n <= |ticks|
    ensures forall i :: 0 <= i < n ==> At(ticks[..n], i) == At(ticks, i)
    ensures forall i :: Ends(ticks[..n], i) <==> i < n && Ends(ticks, i)
  {
    forall i | 0 <= i < n ensures At(ticks[..n], i) == At(ticks, i) {
      assert ticks[..n][..i] == ticks[..i];
    }
  }

  /** Between two freezes there is a thaw or a release. */
  lemma FreezesAlternate(ticks: seq<Tick>, i: nat, j: nat)
    requires Monotone(ticks) && i < j < |ticks| && At(ticks, i) == Froze && At(ticks, j) == Froze
    ensures exists k :: i < k < j && Ends(ticks, k)
  {
    RunKeepsInv(ticks[..j]);
    FrontAt(ticks, j);
    assert After(ticks[..j]).frozenAt.None?;
    hide At;
    hide After;
    var k :| i < k && Ends(ticks[..j], k);
    assert k < j && Ends(ticks, k);
  }

  /** From the cycle that freezes on, as long as nothing was thawed or released, less than the maximum
      and one gap between cycles has passed: no frozen stretch is longer. */
  lemma FrozenBriefly(ticks: seq<Tick>, i: nat, j: nat, gap: real)
    requires Clock(ticks, gap) && i < j < |ticks| && At(ticks, i) == Froze
    requires forall k :: i < k < j ==> !Ends(ticks, k)
    ensures ticks[j].now - ticks[i].now < MAX_FREEZE_S + gap
  {
    var front := ticks[..j];
    RunKeepsInv(front);
    FrontAt(ticks, j);
    hide At;
    hide After;
    var s := After(front);
    assert At(front, i) == Froze && forall k :: i < k ==> !Ends(front, k);
    var m :| FrozenSince(front, m, s.frozenAt.value);
    assert At(ticks, m) == Froze;
    if m > i {
      FreezesAlternate(ticks, i, m);
      assert false;
    }
    assert m == i;
    assert ticks[j].now - ticks[j - 1].now <= gap;
  }

  /** No freeze within the hold-off after a forced release. */
  lemma NoFreezeAfterRelease(ticks: seq<Tick>, i: nat, j: nat)
    requires Monotone(ticks) && i < j < |ticks| && At(ticks, i) == Released && At(ticks, j) == Froze
    ensures ticks[j].now - ticks[i].now >= HOLD_AFTER_S
  {
    RunKeepsInv(ticks[..j]);
    FrontAt(ticks, j);
    assert ticks[j].now >= After(ticks[..j]).holdUntil;
    hide At;
    hide After;
    assert At(ticks[..j], i) == Released;
  }

  /** A freeze comes only after six bad samples in six cycles on end. */
  lemma FreezeNeedsSixBad(ticks: seq<Tick>, j: nat)
    requires Monotone(ticks) && j < |ticks| && At(ticks, j) == Froze
    ensures j >= BAD_CYCLES - 1
    ensures forall k :: j - BAD_CYCLES < k <= j ==> IsBad(ticks[k].sample) && (k < j ==> At(ticks, k) == Bad)
  {
    StreakIs(ticks, j);
    CycleSays(After(ticks[..j]), ticks[j]);
    hide After;
    hide IsBad;
    assert At(ticks, j) == Cycle(After(ticks[..j]), ticks[j]).1;
    hide Cycle;
    forall k | j - BAD_CYCLES < k < j ensures IsBad(ticks[k].sample) && At(ticks, k) == Bad {
      CycleSays(After(ticks[..k]), ticks[k]);
      assert At(ticks, k) == Cycle(After(ticks[..k]), ticks[k]).1;
    }
  }

  /** Marker files exist only while a freeze is on. */
  lemma MarkersOnlyWhileFrozen(ticks: seq<Tick>)
    requires Monotone(ticks) && After(ticks).markers != {}
    ensures exists i :: 0 <= i < |ticks| && At(ticks, i) == Froze && forall k :: i < k < |ticks| ==> !Ends(ticks, k)
  {
    RunKeepsInv(ticks);
    hide At;
    hide After;
    hide ThawInv;
    hide BadInv;
    hide HoldInv;
    var i :| FrozenSince(ticks, i, After(ticks).frozenAt.value);
    assert At(ticks, i) == Froze;
  }

  ghost predicate ThawsWork(ticks: seq<Tick>) {
    forall i :: 0 <= i < |ticks| ==> After(ticks[..i]).markers <= ticks[i].thawable
  }

  lemma ThawedAll(s: State, t: Tick)
    requires s.stopped == s.markers && s.markers <= t.thawable
    ensures Cycle(s, t).0.stopped == Cycle(s, t).0.markers
  {
    assert s.stopped - s.markers * t.thawable == {};
  }

  /** While no thaw fails, the stopped slices are the marked ones: none is left stopped without a freeze on. */
  lemma {:induction false} StoppedAreMarked(ticks: seq<Tick>)
    requires ThawsWork(ticks)
    ensures After(ticks).stopped == After(ticks).markers
  {
    hide Cycle;
    if |ticks| > 0 {
      var n := |ticks| - 1;
      forall i | 0 <= i < n ensures After(ticks[..n][..i]).markers <= ticks[..n][i].thawable {
        assert ticks[..n][..i] == ticks[..i];
      }
      StoppedAreMarked(ticks[..n]);
      ThawedAll(After(ticks[..n]), ticks[n]);
    }
  }

  ghost predicate Stuck(s: State, x: Slice) {
    x in s.stopped && x !in s.markers
  }

  /** Cycle `n` thaws, or means to: it drops the marker of a stopped slice that systemd does not thaw. */
  ghost predicate Loses(ticks: seq<Tick>, n: int, x: Slice) {
    && Ends(ticks, n) && x !in ticks[n].thawable
    && x in After(ticks[..n]).stopped && x in After(ticks[..n]).markers
  }

  ghost predicate Refreezes(ticks: seq<Tick>, n: nat, x: Slice)
    requires n < |ticks|
  {
    At(ticks, n) == Froze && x in ticks[n].freezable
  }

  /** One cycle. */
  lemma StuckNext(ticks: seq<Tick>, x: Slice)
    requires |ticks| > 0
    ensures var n := |ticks| - 1;
            Stuck(After(ticks), x)
            <==> Loses(ticks, n, x) || (Stuck(After(ticks[..n]), x) && !Refreezes(ticks, n, x))
  {
  }

  /** The result of a thaw is not looked at. Over any run, a slice is stopped without a marker, so that no
      later thaw will release it, if and only if some thaw of it failed and it was not frozen again since. */
  lemma {:induction false} FailedThawStays(ticks: seq<Tick>, x: Slice)
    ensures Stuck(After(ticks), x)
            <==> exists n :: Loses(ticks, n, x) && forall m :: n < m < |ticks| ==> !Refreezes(ticks, m, x)
  {
    if |ticks| > 0 {
      var last := |ticks| - 1;
      var front := ticks[..last];
      StuckNext(ticks, x);
      FailedThawStays(front, x);
      FrontAt(ticks, last);
      forall n | n < last ensures Loses(front, n, x) <==> Loses(ticks, n, x) {
        if 0 <= n { assert front[..n] == ticks[..n]; }
      }
      hide At;
      hide After;
      hide Loses;
      hide Stuck;
      if Loses(ticks, last, x) { return; }
      StuckEarlier(ticks, front, x);
    }
  }

  /** Unless the last cycle loses the slice itself, it is lost as before, or frozen again. */
  lemma StuckEarlier(ticks: seq<Tick>, front: seq<Tick>, x: Slice)
    requires |ticks| > 0 && front == ticks[..|ticks| - 1] && !Loses(ticks, |front|, x)
    requires forall n :: n < |front| ==> (Loses(front, n, x) <==> Loses(ticks, n, x))
    requires forall m :: 0 <= m < |front| ==> At(front, m) == At(ticks, m)
    ensures (exists n :: Loses(ticks, n, x) && forall m :: n < m < |ticks| ==> !Refreezes(ticks, m, x))
            <==> !Refreezes(ticks, |front|, x)
                 && exists n :: Loses(front, n, x) && forall m :: n < m < |front| ==> !Refreezes(front, m, x)
  {
    hide At;
    hide After;
    forall m | 0 <= m < |front| ensures Refreezes(front, m, x) <==> Refreezes(ticks, m, x) {}
    if n :| Loses(ticks, n, x) && forall m :: n < m < |ticks| ==> !Refreezes(ticks, m, x) {
      assert n < |front| && Loses(front, n, x);
    }
    if !Refreezes(ticks, |front|, x) {
      if n :| Loses(front, n, x) && forall m :: n < m < |front| ==> !Refreezes(front, m, x) {
        assert Loses(ticks, n, x);
        assert forall m :: n < m < |ticks| ==> !Refreezes(ticks, m, x);
      }
    }
  }

  /** Six bad cycles that freeze the brain, and two good ones in which systemd refuses to thaw it. */
  function FailingThaw(): seq<Tick> {
    var bad := Tick(0.0, Sample(true, true, None, None, 0.0), {Brain}, {});
    var good := Tick(0.0, Sample(false, true, None, None, 0.0), {Brain}, {});
    [bad, bad, bad, bad, bad, bad] + [good, good]
  }

  lemma AfterSnoc(ticks: seq<Tick>, t: Tick)
    ensures After(ticks + [t]) == Cycle(After(ticks), t).0
  {
    assert (ticks + [t])[..|ticks|] == ticks;
  }

  lemma FailingThawLeaves()
    ensures Stuck(After(FailingThaw()), Brain)
  {
    var bad := Tick(0.0, Sample(true, true, None, None, 0.0), {Brain}, {});
    var good := Tick(0.0, Sample(false, true, None, None, 0.0), {Brain}, {});
    hide After;
    BadCycles(bad, 5);
    var five := seq(5, _ => bad);
    AfterSnoc(five, bad);
    assert five + [bad] == [bad, bad, bad, bad, bad, bad];
    var six := [bad, bad, bad, bad, bad, bad];
    assert After(six).stopped == {Brain};
    AfterSnoc(six, good);
    AfterSnoc(six + [good], good);
    assert six + [good] + [good] == FailingThaw();
  }

  lemma {:induction false} BadCycles(t: Tick, n: nat)
    requires n < BAD_CYCLES && IsBad(t.sample)
    ensures After(seq(n, _ => t)) == Start().(bad := n)
  {
    if n > 0 {
      BadCycles(t, n - 1);
      AfterSnoc(seq(n - 1, _ => t), t);
      assert seq(n - 1, _ => t) + [t] == seq(n, _ => t);
    }
  }

  /** Two good samples on end leave nothing frozen. */
  lemma TwoGoodThaw(ticks: seq<Tick>)
    requires |ticks| >= 2 && Monotone(ticks)
    requires !IsBad(ticks[|ticks| - 1].sample) && !IsBad(ticks[|ticks| - 2].sample)
    ensures After(ticks).markers == {} && After(ticks).frozenAt == None
  {
    var n := |ticks| - 1;
    assert ticks[..n][..n - 1] == ticks[..n - 1];
    var s, t := After(ticks[..n - 1]), After(ticks[..n]);
    assert t == Cycle(s, ticks[n - 1]).0;
    MonotoneFront(ticks, n);
    RunKeepsInv(ticks[..n]);
    assert t.good >= 1 || t.frozenAt.None?;
  }

  // ---------- the cycle by its history ----------

  /** A freeze is on before cycle `j`, since cycle `i`. */
  ghost predicate FrozenBefore(ticks: seq<Tick>, i: int, j: int) {
    && 0 <= i < j <= |ticks| && At(ticks, i) == Froze
    && forall k :: i < k < j ==> !Ends(ticks, k)
  }

  /** A forced release is less than the hold-off ago. */
  ghost predicate HeldBack(ticks: seq<Tick>, j: nat)
    requires j < |ticks|
  {
    exists i :: 0 <= i < j && At(ticks, i) == Released && ticks[j].now - ticks[i].now < HOLD_AFTER_S
  }

  ghost predicate Streak(ticks: seq<Tick>, j: nat)
    requires j < |ticks|
  {
    j >= BAD_CYCLES - 1 && forall k :: j - BAD_CYCLES < k < j ==> At(ticks, k) == Bad
  }

  lemma EndedBefore(ticks: seq<Tick>, i: nat, j: nat)
    requires Monotone(ticks) && i < j <= |ticks| && After(ticks[..j]).frozenAt.None? && At(ticks, i) == Froze
    ensures exists k :: i < k < j && Ends(ticks, k)
  {
    MonotoneFront(ticks, j);
    RunKeepsInv(ticks[..j]);
    FrontAt(ticks, j);
    hide After;
    assert At(ticks[..j], i) == Froze;
    var k :| i < k && Ends(ticks[..j], k);
    assert Ends(ticks, k);
  }

  lemma SinceBefore(ticks: seq<Tick>, j: nat) returns (m: nat)
    requires Monotone(ticks) && j <= |ticks| && After(ticks[..j]).frozenAt.Some?
    ensures FrozenBefore(ticks, m, j) && After(ticks[..j]).frozenAt == Some(ticks[m].now)
  {
    var front, at := ticks[..j], After(ticks[..j]).frozenAt.value;
    MonotoneFront(ticks, j);
    RunKeepsInv(front);
    FrontAt(ticks, j);
    hide After;
    m :| FrozenSince(front, m, at);
    forall k | m < k < j ensures !Ends(ticks, k) { assert At(front, k) == At(ticks, k); }
  }

  lemma FrozenIs(ticks: seq<Tick>, j: nat)
    requires Monotone(ticks) && j <= |ticks|
    ensures After(ticks[..j]).frozenAt.Some? <==> exists i :: FrozenBefore(ticks, i, j)
    ensures forall i :: FrozenBefore(ticks, i, j) ==> After(ticks[..j]).frozenAt == Some(ticks[i].now)
  {
    hide After;
    hide At;
    hide Ends;
    if After(ticks[..j]).frozenAt.Some? {
      var m := SinceBefore(ticks, j);
      forall i | FrozenBefore(ticks, i, j) ensures i == m { OneFreeze(ticks, i, m, j); }
    } else {
      forall i | 0 <= i < j && At(ticks, i) == Froze ensures exists k :: i < k < j && Ends(ticks, k) {
        EndedBefore(ticks, i, j);
      }
    }
  }

  lemma OneFreeze(ticks: seq<Tick>, a: int, b: int, j: int)
    requires Monotone(ticks) && FrozenBefore(ticks, a, j) && FrozenBefore(ticks, b, j)
    ensures a == b
  {
    hide At;
    if a < b {
      FreezesAlternate(ticks, a, b);
    } else if b < a {
      FreezesAlternate(ticks, b, a);
    }
  }

  lemma HeldIs(ticks: seq<Tick>, j: nat)
    requires Monotone(ticks) && j < |ticks| && ticks[j].now >= 0.0
    ensures ticks[j].now < After(ticks[..j]).holdUntil <==> HeldBack(ticks, j)
  {
    var front, s := ticks[..j], After(ticks[..j]);
    MonotoneFront(ticks, j);
    RunKeepsInv(front);
    FrontAt(ticks, j);
    hide After;
    hide At;
    if ticks[j].now < s.holdUntil {
      var i :| 0 <= i < |front| && At(front, i) == Released && s.holdUntil == front[i].now + HOLD_AFTER_S;
      assert At(ticks, i) == Released;
    }
    if i :| 0 <= i < j && At(ticks, i) == Released && ticks[j].now - ticks[i].now < HOLD_AFTER_S {
      assert At(front, i) == Released;
    }
  }

  lemma StreakIs(ticks: seq<Tick>, j: nat)
    requires Monotone(ticks) && j < |ticks|
    ensures After(ticks[..j]).bad + 1 >= BAD_CYCLES <==> Streak(ticks, j)
    ensures After(ticks[..j]).good > 0 <==> j > 0 && At(ticks, j - 1) == Good
  {
    MonotoneFront(ticks, j);
    RunKeepsInv(ticks[..j]);
    FrontAt(ticks, j);
    hide After;
    hide At;
    hide FreezeInv;
    hide ThawInv;
    hide HoldInv;
    StreakOf(ticks, j, ticks[..j], After(ticks[..j]));
  }

  lemma StreakOf(ticks: seq<Tick>, j: nat, front: seq<Tick>, s: State)
    requires j < |ticks| && |front| == j && BadInv(front, s)
    requires forall i :: 0 <= i < j ==> At(front, i) == At(ticks, i)
    ensures s.bad + 1 >= BAD_CYCLES <==> Streak(ticks, j)
    ensures s.good > 0 <==> j > 0 && At(ticks, j - 1) == Good
  {
    hide At;
    if s.bad < j { assert At(front, j - 1 - s.bad) == At(ticks, j - 1 - s.bad) != Bad; }
    if s.bad + 1 >= BAD_CYCLES {
      forall k | j - BAD_CYCLES < k < j ensures At(ticks, k) == Bad { assert At(front, k) == Bad; }
    }
  }

  /** What every cycle of every run does, told from what the cycles before it did. It releases exactly when a
      freeze has lasted the maximum; freezes exactly on the sixth bad sample on end, outside the hold-off
      and with nothing frozen; and thaws exactly on the second good one on end. */
  lemma OutcomeExactly(ticks: seq<Tick>, j: nat)
    requires Monotone(ticks) && j < |ticks| && ticks[j].now >= 0.0
    ensures var o, bad := At(ticks, j), IsBad(ticks[j].sample);
            && (o == Released
                <==> exists i :: FrozenBefore(ticks, i, j) && ticks[j].now - ticks[i].now >= MAX_FREEZE_S)
            && (o == Froze
                <==> bad && Streak(ticks, j) && !HeldBack(ticks, j) && !exists i :: FrozenBefore(ticks, i, j))
            && (o == Thawed <==> o != Released && !bad && j > 0 && At(ticks, j - 1) == Good)
            && (o == Bad ==> bad) && (o == Good ==> !bad)
  {
    FrozenIs(ticks, j);
    HeldIs(ticks, j);
    StreakIs(ticks, j);
    var s := After(ticks[..j]);
    CycleSays(s, ticks[j]);
    assert At(ticks, j) == Cycle(s, ticks[j]).1;
    hide After;
    hide At;
    hide Cycle;
    hide IsBad;
    hide HeldBack;
    hide Streak;
    hide FrozenBefore;
    if s.frozenAt.Some? {
      var i :| FrozenBefore(ticks, i, j);
      assert s.frozenAt == Some(ticks[i].now);
    }
  }

  lemma CycleSays(s: State, t: Tick)
    ensures var o, bad := Cycle(s, t).1, IsBad(t.sample);
            && (o == Released <==> s.frozenAt.Some? && t.now - s.frozenAt.value >= MAX_FREEZE_S)
            && (o == Froze <==> bad && s.bad + 1 >= BAD_CYCLES && t.now >= s.holdUntil && s.frozenAt.None?)
            && (o == Thawed <==> o != Released && !bad && s.good > 0)
            && (o == Bad ==> bad) && (o == Good ==> !bad)
  {
    hide IsBad;
    hide Freeze;
    hide Thaw;
  }

  /** Which slices carry a marker: those systemd would freeze at the freeze that is on. */
  lemma {:induction false} MarkedExactly(ticks: seq<Tick>, x: Slice)
    requires Monotone(ticks)
    ensures x in After(ticks).markers <==> exists i :: FrozenBefore(ticks, i, |ticks|) && x in ticks[i].freezable
  {
    if |ticks| > 0 {
      var n := |ticks| - 1;
      MonotoneFront(ticks, n);
      MarkedExactly(ticks[..n], x);
      MarkedNext(ticks, x);
      FrozenIs(ticks, |ticks|);
      FrozenIs(ticks, n);
      FrontAt(ticks, n);
      hide After;
      hide Ends;
      forall i ensures FrozenBefore(ticks[..n], i, n) <==> FrozenBefore(ticks, i, n) {
        hide At;
        if 0 <= i < n { assert At(ticks[..n], i) == At(ticks, i); }
      }
      hide FrozenBefore;
      MarkedLater(ticks, x);
    }
  }

  lemma MarkedNext(ticks: seq<Tick>, x: Slice)
    requires |ticks| > 0
    ensures var n := |ticks| - 1;
            x in After(ticks).markers
            <==> if Ends(ticks, n) then false
                 else x in After(ticks[..n]).markers || (At(ticks, n) == Froze && x in ticks[n].freezable)
  {
  }

  lemma MarkedLater(ticks: seq<Tick>, x: Slice)
    requires |ticks| > 0
    ensures var n := |ticks| - 1;
            (exists i :: FrozenBefore(ticks, i, |ticks|) && x in ticks[i].freezable)
            <==> if Ends(ticks, n) then false
                 else (exists i :: FrozenBefore(ticks, i, n) && x in ticks[i].freezable)
                      || (At(ticks, n) == Froze && x in ticks[n].freezable)
  {
    hide At;
    var n := |ticks| - 1;
    forall i ensures FrozenBefore(ticks, i, |ticks|) <==> (FrozenBefore(ticks, i, n) && !Ends(ticks, n))
                                                          || (i == n && At(ticks, n) == Froze)
    {
    }
  }
}
