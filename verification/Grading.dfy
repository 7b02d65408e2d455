/** The hysteresis of pskit/alerts.py: `graded` and `graded_low`, over exact values. */
module Grading {

  datatype Level = Fine | Info | Warn | Crit

  function Rank(l: Level): nat {
    match l
    case Fine => 0
    case Info => 1
    case Warn => 2
    case Crit => 3
  }

  function Graded(value: real, previous: Level, warn: real, crit: real, margin: real): Level {
    if previous == Crit && value >= crit - margin then Crit
    else if value >= crit then Crit
    else if (previous == Warn || previous == Crit) && value >= warn - margin then Warn
    else if value >= warn then Warn
    else Fine
  }

  function GradedLow(value: real, previous: Level, warn: real, crit: real, margin: real): Level {
    Graded(-value, previous, -warn, -crit, margin)
  }

  // ---------- samples one after the other ----------

  function LevelAfter(samples: seq<real>, first: Level, warn: real, crit: real, margin: real): Level {
    if |samples| == 0 then first
    else
      Graded(samples[|samples| - 1], LevelAfter(samples[..|samples| - 1], first, warn, crit, margin),
             warn, crit, margin)
  }

  function LowLevelAfter(samples: seq<real>, first: Level, warn: real, crit: real, margin: real): Level {
    if |samples| == 0 then first
    else
      GradedLow(samples[|samples| - 1], LowLevelAfter(samples[..|samples| - 1], first, warn, crit, margin),
                warn, crit, margin)
  }

  /** A Schmitt trigger: on at the threshold, off only below it by more than the margin. */
  function Trigger(samples: seq<real>, on: bool, threshold: real, margin: real): bool {
    if |samples| == 0 then on
    else
      var held := Trigger(samples[..|samples| - 1], on, threshold, margin);
      samples[|samples| - 1] >= if held then threshold - margin else threshold
  }

  /** One that goes on downwards. */
  function LowTrigger(samples: seq<real>, on: bool, threshold: real, margin: real): bool {
    if |samples| == 0 then on
    else
      var held := LowTrigger(samples[..|samples| - 1], on, threshold, margin);
      samples[|samples| - 1] <= if held then threshold + margin else threshold
  }

  function Both(warn: bool, crit: bool): Level {
    if crit then Crit else if warn then Warn else Fine
  }

  lemma {:induction false} CritIsWarn(samples: seq<real>, warnOn: bool, critOn: bool, warn: real, crit: real,
                                      margin: real)
    requires warn <= crit && margin >= 0.0 && (critOn ==> warnOn)
    ensures Trigger(samples, critOn, crit, margin) ==> Trigger(samples, warnOn, warn, margin)
  {
    if |samples| > 0 {
      CritIsWarn(samples[..|samples| - 1], warnOn, critOn, warn, crit, margin);
    }
  }

  /** Over any samples the graded level is that of two triggers that do not know of each other. */
  lemma {:induction false} TwoTriggers(samples: seq<real>, first: Level, warn: real, crit: real, margin: real)
    requires warn <= crit && margin >= 0.0 && first != Info
    ensures LevelAfter(samples, first, warn, crit, margin)
            == Both(Trigger(samples, first == Warn || first == Crit, warn, margin),
                    Trigger(samples, first == Crit, crit, margin))
  {
    if |samples| > 0 {
      var front := samples[..|samples| - 1];
      TwoTriggers(front, first, warn, crit, margin);
      CritIsWarn(front, first == Warn || first == Crit, first == Crit, warn, crit, margin);
    }
  }

  // ---------- reflection ----------

  function Negated(samples: seq<real>): (r: seq<real>)
    ensures |r| == |samples| && forall i :: 0 <= i < |r| ==> r[i] == -samples[i]
  {
    seq(|samples|, i requires 0 <= i < |samples| => -samples[i])
  }

  lemma NegatedFront(samples: seq<real>)
    requires |samples| > 0
    ensures Negated(samples)[..|samples| - 1] == Negated(samples[..|samples| - 1])
  {
  }

  lemma {:induction false} LowIsReflected(samples: seq<real>, first: Level, warn: real, crit: real, margin: real)
    ensures LowLevelAfter(samples, first, warn, crit, margin)
            == LevelAfter(Negated(samples), first, -warn, -crit, margin)
  {
    if |samples| > 0 {
      NegatedFront(samples);
      LowIsReflected(samples[..|samples| - 1], first, warn, crit, margin);
    }
  }

  lemma {:induction false} LowTriggerIsReflected(samples: seq<real>, on: bool, threshold: real, margin: real)
    ensures LowTrigger(samples, on, threshold, margin) == Trigger(Negated(samples), on, -threshold, margin)
  {
    if |samples| > 0 {
      NegatedFront(samples);
      LowTriggerIsReflected(samples[..|samples| - 1], on, threshold, margin);
    }
  }

  /** The same for metrics where lower is worse. */
  lemma TwoLowTriggers(samples: seq<real>, first: Level, warn: real, crit: real, margin: real)
    requires crit <= warn && margin >= 0.0 && first != Info
    ensures LowLevelAfter(samples, first, warn, crit, margin)
            == Both(LowTrigger(samples, first == Warn || first == Crit, warn, margin),
                    LowTrigger(samples, first == Crit, crit, margin))
  {
    LowIsReflected(samples, first, warn, crit, margin);
    LowTriggerIsReflected(samples, first == Warn || first == Crit, warn, margin);
    LowTriggerIsReflected(samples, first == Crit, crit, margin);
    TwoTriggers(Negated(samples), first, -warn, -crit, margin);
  }

  // ---------- reversals ----------

  function Abs(x: real): real {
    if x < 0.0 then -x else x
  }

  function TotalVariation(samples: seq<real>): real {
    if |samples| <= 1 then 0.0
    else TotalVariation(samples[..|samples| - 1]) + Abs(samples[|samples| - 1] - samples[|samples| - 2])
  }

  /** The last change of level: where, and upwards or not. */
  datatype Change = Never | Change(value: real, up: bool)

  function LastChange(samples: seq<real>, first: Level, warn: real, crit: real, margin: real): Change {
    if |samples| == 0 then Never
    else
      var front := samples[..|samples| - 1];
      var was, now := LevelAfter(front, first, warn, crit, margin), LevelAfter(samples, first, warn, crit, margin);
      if was == now then LastChange(front, first, warn, crit, margin)
      else Change(samples[|samples| - 1], Rank(now) > Rank(was))
  }

  /** Does the last sample change the level against the direction of the change before? */
  predicate Reverses(samples: seq<real>, first: Level, warn: real, crit: real, margin: real)
    requires |samples| > 0
  {
    var front := samples[..|samples| - 1];
    var before := LastChange(front, first, warn, crit, margin);
    var was, now := LevelAfter(front, first, warn, crit, margin), LevelAfter(samples, first, warn, crit, margin);
    before.Change? && was != now && before.up != (Rank(now) > Rank(was))
  }

  function Reversals(samples: seq<real>, first: Level, warn: real, crit: real, margin: real): nat {
    if |samples| == 0 then 0
    else Reversals(samples[..|samples| - 1], first, warn, crit, margin)
         + if Reverses(samples, first, warn, crit, margin) then 1 else 0
  }

  /** Where the last change happened tells on which side of the thresholds it was. */
  lemma {:induction false} ChangeTells(samples: seq<real>, first: Level, warn: real, crit: real, margin: real)
    requires warn <= crit && margin >= 0.0 && first != Info
    ensures LevelAfter(samples, first, warn, crit, margin) != Info
    ensures var c, l := LastChange(samples, first, warn, crit, margin), LevelAfter(samples, first, warn, crit, margin);
            && (c.Change? && c.up ==> l != Fine && c.value >= if l == Crit then crit else warn)
            && (c.Change? && !c.up ==> l != Crit && c.value < if l == Warn then crit - margin else warn - margin)
  {
    if |samples| > 0 {
      ChangeTells(samples[..|samples| - 1], first, warn, crit, margin);
    }
  }

  /** Two changes of level in opposite directions, with none between, are more than the margin apart. */
  lemma ReversalIsWide(samples: seq<real>, first: Level, warn: real, crit: real, margin: real)
    requires warn <= crit && margin >= 0.0 && first != Info
    requires |samples| > 0 && Reverses(samples, first, warn, crit, margin)
    ensures Abs(samples[|samples| - 1] - LastChange(samples[..|samples| - 1], first, warn, crit, margin).value) > margin
  {
    ChangeTells(samples[..|samples| - 1], first, warn, crit, margin);
    ChangeTells(samples, first, warn, crit, margin);
  }

  function Times(n: nat, margin: real): real {
    n as real * margin
  }

  lemma OneMore(n: nat, margin: real)
    ensures Times(n + 1, margin) == Times(n, margin) + margin
  {
  }

  lemma Far(now: real, was: real, change: real)
    ensures 0.0 <= Abs(now - change) <= Abs(was - change) + Abs(now - was)
    ensures Abs(now - now) == 0.0
  {
  }

  /** Since the last change the metric has moved at least as far as it now is from there. */
  lemma {:induction false} VariationPays(samples: seq<real>, first: Level, warn: real, crit: real, margin: real)
    requires warn <= crit && margin >= 0.0 && first != Info && |samples| > 0
    ensures var r := Times(Reversals(samples, first, warn, crit, margin), margin);
            var c := LastChange(samples, first, warn, crit, margin);
            TotalVariation(samples) >= r + if c.Change? then Abs(samples[|samples| - 1] - c.value) else 0.0
  {
    hide Graded;
    hide LevelAfter;
    hide Abs;
    var n := |samples| - 1;
    var front := samples[..n];
    if n == 0 {
      assert Reversals(front, first, warn, crit, margin) == 0 && LastChange(front, first, warn, crit, margin) == Never;
      Far(samples[0], samples[0], samples[0]);
      ZeroTimes(margin);
    } else {
      VariationPays(front, first, warn, crit, margin);
      hide Times;
      var now, was, c := samples[n], samples[n - 1], LastChange(front, first, warn, crit, margin);
      Far(now, was, if c.Change? then c.value else was);
      OneMore(Reversals(front, first, warn, crit, margin), margin);
      if Reverses(samples, first, warn, crit, margin) {
        ReversalIsWide(samples, first, warn, crit, margin);
      }
    }
  }

  lemma ZeroTimes(margin: real)
    ensures Times(0, margin) == 0.0
  {
  }

  /** So a metric has to move by the margin for each time the alert turns around. */
  lemma ReversalsCost(samples: seq<real>, first: Level, warn: real, crit: real, margin: real)
    requires warn <= crit && margin >= 0.0 && first != Info
    ensures Reversals(samples, first, warn, crit, margin) as real * margin <= TotalVariation(samples)
  {
    if |samples| > 0 {
      VariationPays(samples, first, warn, crit, margin);
      var last := LastChange(samples, first, warn, crit, margin);
      Far(samples[|samples| - 1], 0.0, match last case Never => 0.0 case Change(v, _) => v);
    }
  }

  lemma {:induction false} VariationIsReflected(samples: seq<real>)
    ensures TotalVariation(Negated(samples)) == TotalVariation(samples)
  {
    if |samples| > 1 {
      NegatedFront(samples);
      VariationIsReflected(samples[..|samples| - 1]);
    }
  }

  /** And likewise where lower is worse. */
  lemma LowReversalsCost(samples: seq<real>, first: Level, warn: real, crit: real, margin: real)
    requires crit <= warn && margin >= 0.0 && first != Info
    ensures Reversals(Negated(samples), first, -warn, -crit, margin) as real * margin <= TotalVariation(samples)
    ensures LowLevelAfter(samples, first, warn, crit, margin)
            == LevelAfter(Negated(samples), first, -warn, -crit, margin)
  {
    hide Reversals;
    hide LevelAfter;
    hide LowLevelAfter;
    hide TotalVariation;
    LowIsReflected(samples, first, warn, crit, margin);
    VariationIsReflected(samples);
    ReversalsCost(Negated(samples), first, -warn, -crit, margin);
  }
}
