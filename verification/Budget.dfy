/** The memory budget of pskit/budget.py, over exact reals. */
module Budget {
  import opened Common

  const MIB := 1024 * 1024
  const GIB := 1024 * 1024 * 1024
  const STEP := 256 * MIB
  const GIB_R := GIB as real

  datatype Limits = Limits(ram: int, margin: int, systemLow: int, userHigh: int, userMax: int,
                           brainLow: int, brainHigh: int, brainMax: int, ciHigh: int, ciMax: int,
                           swapMax: int, parentLow: int, parentMax: int)
  {
    function CeilingsSum(): int {
      userMax + brainMax + ciMax
    }
  }

  datatype Refusal = TooSmall | NoRoomForOwner

  function MinR(a: real, b: real): real {
    if a <= b then a else b
  }

  function MaxR(a: real, b: real): real {
    if a >= b then a else b
  }

  /** `int(value // step * step)`. */
  function RoundDown(value: real): (r: int)
    ensures r % STEP == 0 && r as real <= value < (r + STEP) as real
  {
    var n := (value / STEP as real).Floor;
    n * STEP
  }

  function Margin(ram: real): real {
    MaxR(GIB_R, 0.106 * ram)
  }

  function CiMax(ram: real, withCi: bool): real {
    if withCi then 0.1277 * ram else 0.0
  }

  /** The brain's ceiling; a declared peak of 0 counts as none. */
  function BrainMax(ram: real, peak: Option<int>): real {
    if peak.Some? && peak.value != 0 then MinR(MaxR(peak.value as real * 1.25, GIB_R), ram / 3.0)
    else 0.3191 * ram
  }

  function UserMax(ram: real, peak: Option<int>, withCi: bool): real {
    ram - Margin(ram) - BrainMax(ram, peak) - CiMax(ram, withCi)
  }

  function Compute(ramBytes: int, peak: Option<int>, withCi: bool): Result<Limits, Refusal> {
    if ramBytes < 2 * GIB then Err(TooSmall)
    else
      var ram := ramBytes as real;
      var ci := CiMax(ram, withCi);
      var brain := BrainMax(ram, peak);
      var user := UserMax(ram, peak, withCi);
      if user < GIB_R then Err(NoRoomForOwner)
      else
        var b := Limits(ramBytes, 0,
                        RoundDown(MinR(2.0 * GIB_R, 0.064 * ram)), RoundDown(user * (12.0 / 14.0)), RoundDown(user),
                        RoundDown(brain * 0.4), RoundDown(brain * 0.8), RoundDown(brain),
                        RoundDown(ci * 0.75), RoundDown(ci),
                        RoundDown(MinR(2.0 * GIB_R, 0.064 * ram)), 0, 0);
        var c := b.(parentLow := b.brainLow, parentMax := b.brainMax + b.ciMax);
        Ok(c.(margin := c.ram - c.CeilingsSum()))
  }

  lemma RoundDownMonotone(a: real, b: real)
    requires a <= b
    ensures RoundDown(a) <= RoundDown(b)
  {
    var x, y := RoundDown(a), RoundDown(b);
    MultiplesApart(x, y);
  }

  lemma MultiplesApart(x: int, y: int)
    requires x % STEP == 0 && y % STEP == 0 && x < y + STEP
    ensures x <= y
  {
    var i, j := x / STEP, y / STEP;
    assert x == i * STEP && y == j * STEP;
  }

  /** A value of at least one step is not rounded to nothing. */
  lemma RoundDownKeeps(v: real)
    requires v >= STEP as real
    ensures RoundDown(v) >= STEP
  {
    MultiplesApart(STEP, RoundDown(v));
  }

  /** The shares before rounding. */
  lemma Shares(r: real, peak: Option<int>, withCi: bool)
    requires r >= 2.0 * GIB_R && UserMax(r, peak, withCi) >= GIB_R
    ensures BrainMax(r, peak) <= r / 3.0 && BrainMax(r, peak) * 0.4 >= STEP as real
    ensures withCi ==> CiMax(r, withCi) * 0.75 >= STEP as real
  {
    var brain := BrainMax(r, peak);
    assert brain >= MinR(GIB_R, 0.3191 * r);
    assert withCi ==> r >= 3.0 * GIB_R;
  }

  /** Rounding four shares of one whole. */
  lemma SliceRounds(low: real, high: real, max: real)
    requires low <= high <= max
    ensures RoundDown(low) <= RoundDown(high) <= RoundDown(max)
    ensures low >= STEP as real ==> RoundDown(low) > 0
  {
    RoundDownMonotone(low, high);
    RoundDownMonotone(high, max);
    if low >= STEP as real { RoundDownKeeps(low); }
  }

  /** `limit` is a share rounded down to whole steps. */
  predicate Rounds(limit: int, share: real) {
    limit % STEP == 0 && limit as real <= share < (limit + STEP) as real
  }

  lemma RoundsTo(share: real, limit: int)
    ensures Rounds(limit, share) <==> RoundDown(share) == limit
  {
    var r := RoundDown(share);
    if Rounds(limit, share) {
      MultiplesApart(r, limit);
      MultiplesApart(limit, r);
    }
  }

  lemma RoundDownRounds(share: real)
    ensures Rounds(RoundDown(share), share)
  {
  }

  /** Which share each limit is, the brain's being a quarter over its declared peak within a GiB and a third
      of all, or a fixed part, and the owner's what the others and the margin leave. */
  lemma LimitsAreShares(ram: int, peak: Option<int>, withCi: bool)
    requires Compute(ram, peak, withCi).Ok?
    ensures var b, all := Compute(ram, peak, withCi).value, ram as real;
            var brain := if peak == None || peak == Some(0) then 0.3191 * all
                         else MinR(MaxR(peak.value as real * 1.25, GIB_R), all / 3.0);
            var ci := if withCi then 0.1277 * all else 0.0;
            var owner := all - MaxR(GIB_R, 0.106 * all) - brain - ci;
            && b.ram == ram && owner >= GIB_R
            && Rounds(b.brainMax, brain) && Rounds(b.brainHigh, brain * 0.8) && Rounds(b.brainLow, brain * 0.4)
            && Rounds(b.ciMax, ci) && Rounds(b.ciHigh, ci * 0.75)
            && Rounds(b.userMax, owner) && Rounds(b.userHigh, owner * (12.0 / 14.0))
            && Rounds(b.systemLow, MinR(2.0 * GIB_R, 0.064 * all)) && b.swapMax == b.systemLow
            && b.margin == ram - b.brainMax - b.ciMax - b.userMax
            && b.parentLow == b.brainLow && b.parentMax == b.brainMax + b.ciMax
  {
    hide RoundDown;
    hide Rounds;
    var all := ram as real;
    var brain, ci, owner := BrainMax(all, peak), CiMax(all, withCi), UserMax(all, peak, withCi);
    RoundDownRounds(brain);
    RoundDownRounds(brain * 0.8);
    RoundDownRounds(brain * 0.4);
    RoundDownRounds(ci);
    RoundDownRounds(ci * 0.75);
    RoundDownRounds(owner);
    RoundDownRounds(owner * (12.0 / 14.0));
    RoundDownRounds(MinR(2.0 * GIB_R, 0.064 * all));
  }

  /** The machine of the documentation: 32 GiB with CI. Brain 4, 8 and 10 GiB, owner 12.25 and 14.25, CI 3 and
      4, system 2, margin 3.75. */
  lemma ReferenceMachine()
    ensures Compute(32 * GIB, None, true)
            == Ok(Limits(32 * GIB, 15 * STEP, 8 * STEP, 49 * STEP, 57 * STEP, 16 * STEP, 32 * STEP, 40 * STEP,
                         12 * STEP, 16 * STEP, 8 * STEP, 16 * STEP, 56 * STEP))
  {
    var all := (32 * GIB) as real;
    var brain, ci, owner := BrainMax(all, None), CiMax(all, true), UserMax(all, None, true);
    ReferenceShares(all);
    hide RoundDown;
    hide Rounds;
    RoundsTo(MinR(2.0 * GIB_R, 0.064 * all), 8 * STEP);
    RoundsTo(owner * (12.0 / 14.0), 49 * STEP);
    RoundsTo(owner, 57 * STEP);
    RoundsTo(brain * 0.4, 16 * STEP);
    RoundsTo(brain * 0.8, 32 * STEP);
    RoundsTo(brain, 40 * STEP);
    RoundsTo(ci * 0.75, 12 * STEP);
    RoundsTo(ci, 16 * STEP);
  }

  lemma ReferenceShares(all: real)
    requires all == 32.0 * GIB_R
    ensures var brain, ci, owner := BrainMax(all, None), CiMax(all, true), UserMax(all, None, true);
            && Rounds(8 * STEP, MinR(2.0 * GIB_R, 0.064 * all))
            && Rounds(49 * STEP, owner * (12.0 / 14.0)) && Rounds(57 * STEP, owner)
            && Rounds(16 * STEP, brain * 0.4) && Rounds(32 * STEP, brain * 0.8) && Rounds(40 * STEP, brain)
            && Rounds(12 * STEP, ci * 0.75) && Rounds(16 * STEP, ci)
  {
  }

  /** Whenever limits come out: the ceilings leave the margin free and waste less than three steps on
      rounding, low <= high <= max in each slice, the brain has at most a third, the owner at least a GiB,
      and nobody's limit is rounded to nothing. */
  lemma LimitsAreSound(ram: int, peak: Option<int>, withCi: bool)
    requires Compute(ram, peak, withCi).Ok?
    ensures var b := Compute(ram, peak, withCi).value;
            && Margin(ram as real) <= b.margin as real < Margin(ram as real) + (3 * STEP) as real
            && b.CeilingsSum() + b.margin == ram
            && 0 < b.brainLow <= b.brainHigh <= b.brainMax && 0 < b.userHigh <= b.userMax && b.ciHigh <= b.ciMax
            && b.brainMax * 3 <= ram && GIB <= b.userMax
            && (if withCi then b.ciHigh > 0 else b.ciMax == 0)
            && b.parentLow == b.brainLow && b.parentMax == b.brainMax + b.ciMax
  {
    hide RoundDown;
    var r := ram as real;
    var brain, ci, user := BrainMax(r, peak), CiMax(r, withCi), UserMax(r, peak, withCi);
    Shares(r, peak, withCi);
    assert brain + ci + user == r - Margin(r);
    assert ci >= 0.0 && (!withCi ==> ci == 0.0);
    SliceRounds(brain * 0.4, brain * 0.8, brain);
    SliceRounds(user * (12.0 / 14.0), user * (12.0 / 14.0), user);
    SliceRounds(ci * 0.75, ci * 0.75, ci);
    RoundDownMonotone(GIB_R, user);
    WholeGib();
    hide BrainMax;
    hide CiMax;
    hide UserMax;
    hide Margin;
  }

  lemma WholeGib()
    ensures RoundDown(GIB_R) == GIB && RoundDown(0.0) == 0
  {
    MultiplesApart(GIB, RoundDown(GIB_R));
    MultiplesApart(0, RoundDown(0.0));
  }

  // ---------- when it refuses ----------

  /** Below 2 GiB there are no limits, and above none if less than a GiB would be left to the owner. */
  lemma RefusedExactly(ram: int, peak: Option<int>, withCi: bool)
    ensures var all := ram as real;
            var brain := if peak == None || peak == Some(0) then 0.3191 * all
                         else MinR(MaxR(peak.value as real * 1.25, GIB_R), all / 3.0);
            var owner := all - MaxR(GIB_R, 0.106 * all) - brain - if withCi then 0.1277 * all else 0.0;
            && (Compute(ram, peak, withCi) == Err(TooSmall) <==> ram < 2 * 1024 * 1024 * 1024)
            && (Compute(ram, peak, withCi) == Err(NoRoomForOwner)
                <==> ram >= 2 * 1024 * 1024 * 1024 && owner < GIB_R)
  {
    hide RoundDown;
    var all := ram as real;
    assert UserMax(all, peak, withCi) == all - Margin(all) - BrainMax(all, peak) - CiMax(all, withCi);
  }

  /** From 3 GiB on it never refuses without CI, whatever the brain declares. */
  lemma NeverRefusesWithoutCi(ram: int, peak: Option<int>)
    requires ram >= 3 * GIB
    ensures Compute(ram, peak, false).Ok?
  {
    assert BrainMax(ram as real, peak) <= ram as real / 3.0;
  }

  /** With CI the bound is 2 / (2/3 - 0.1277) GiB. */
  lemma NeverRefusesWithCi(ram: int, peak: Option<int>)
    requires ram as real * (2.0 / 3.0 - 0.1277) >= 2.0 * GIB_R
    ensures Compute(ram, peak, true).Ok?
  {
    assert BrainMax(ram as real, peak) <= ram as real / 3.0;
  }

  /** Both bounds are sharp: for a brain that asks for a third or more they decide. */
  lemma BoundsAreSharp(ram: int, peak: int, withCi: bool)
    requires ram >= 2 * GIB && peak as real * 1.25 >= ram as real / 3.0
    ensures Compute(ram, Some(peak), withCi).Ok?
            <==> if withCi then ram as real * (2.0 / 3.0 - 0.1277) >= 2.0 * GIB_R else ram >= 3 * GIB
  {
    var r := ram as real;
    assert BrainMax(r, Some(peak)) == r / 3.0;
    if r <= 4.0 * GIB_R { assert Margin(r) == GIB_R; }
  }

  // ---------- systemd sizes ----------

  function Digits(n: nat): string {
    if n < 10 then [Digit(n)] else Digits(n / 10) + [Digit(n % 10)]
  }

  function Digit(n: nat): char
    requires n < 10
  {
    "0123456789"[n]
  }

  function ToSystemd(value: int): string {
    if value <= 0 then "0"
    else
      var mib := value / MIB;
      if mib % 1024 == 0 then Digits(mib / 1024) + "G" else Digits(mib) + "M"
  }

  function Value(c: char): Option<nat> {
    if '0' <= c <= '9' then Some((c as int) - ('0' as int)) else None
  }

  function ParseDigits(s: string): Option<nat> {
    if |s| == 0 then None
    else
      match Value(s[|s| - 1])
      case None => None
      case Some(d) =>
        if |s| == 1 then Some(d)
        else match ParseDigits(s[..|s| - 1]) case None => None case Some(n) => Some(n * 10 + d)
  }

  /** A size as systemd reads it: digits and perhaps a unit, in powers of 1024. */
  function Parse(s: string): Option<nat> {
    if |s| == 0 then None
    else
      var unit := if s[|s| - 1] == 'G' then GIB else if s[|s| - 1] == 'M' then MIB else 1;
      match ParseDigits(if unit == 1 then s else s[..|s| - 1])
      case None => None
      case Some(n) => Some(n * unit)
  }

  lemma DigitParses(n: nat)
    requires n < 10
    ensures Value(Digit(n)) == Some(n)
  {
  }

  lemma {:induction false} DigitsParse(n: nat)
    ensures |Digits(n)| > 0 && ParseDigits(Digits(n)) == Some(n)
  {
    DigitParses(n % 10);
    hide Value;
    hide Digit;
    if n >= 10 {
      DigitsParse(n / 10);
      assert Digits(n)[..|Digits(n)| - 1] == Digits(n / 10) && Digits(n)[|Digits(n)| - 1] == Digit(n % 10);
      assert n == n / 10 * 10 + n % 10;
    }
  }

  lemma UnitParses(n: nat)
    ensures Parse(Digits(n) + "G") == Some(n * GIB) && Parse(Digits(n) + "M") == Some(n * MIB)
  {
    DigitsParse(n);
    hide Digits;
    hide ParseDigits;
    var g, m := Digits(n) + "G", Digits(n) + "M";
    assert g[|g| - 1] == 'G' && m[|m| - 1] == 'M';
    assert g[..|g| - 1] == Digits(n) && m[..|m| - 1] == Digits(n);
  }

  /** What systemd reads is the value cut to whole MiB, so it is the value itself exactly for those. */
  lemma SizesReadBack(value: int)
    ensures Parse(ToSystemd(value)) == Some(if value <= 0 then 0 else value - value % MIB)
    ensures Parse(ToSystemd(value)) == Some(value as int) <==> value >= 0 && value % MIB == 0
  {
    if value <= 0 {
      assert "0"[|"0"| - 1] == '0' && ParseDigits("0") == Some(0);
    } else {
      SizeParses(value / MIB, ToSystemd(value));
      hide *;
      WholeMibs(value);
    }
  }

  lemma WholeMibs(value: nat)
    ensures value / MIB * MIB == value - value % MIB
  {
  }

  lemma SizeParses(mib: nat, text: string)
    requires text == if mib % 1024 == 0 then Digits(mib / 1024) + "G" else Digits(mib) + "M"
    ensures Parse(text) == Some(mib * MIB)
  {
    hide *;
    UnitParses(mib / 1024);
    UnitParses(mib);
    if mib % 1024 == 0 { GibIsMibs(mib); }
  }

  lemma GibIsMibs(mib: nat)
    requires mib % 1024 == 0
    ensures mib / 1024 * GIB == mib * MIB
  {
  }

  lemma StepsAreExact(value: int)
    requires WholeSteps(value)
    ensures Parse(ToSystemd(value)) == Some(value)
  {
    hide Parse;
    hide ToSystemd;
    StepsAreMibs(value);
    SizesReadBack(value);
  }

  lemma StepsAreMibs(value: int)
    requires WholeSteps(value)
    ensures value % MIB == 0
  {
    var mibs := value / STEP * 256;
    assert value == mibs * MIB;
    MultipleOfMib(mibs);
  }

  lemma MultipleOfMib(n: int)
    ensures n * MIB % MIB == 0
  {
  }

  predicate WholeSteps(v: int) {
    v >= 0 && v % STEP == 0
  }

  lemma RoundDownIsWhole(v: real)
    requires v >= 0.0
    ensures WholeSteps(RoundDown(v))
  {
    WholeGib();
    RoundDownMonotone(0.0, v);
  }

  lemma LimitsAreWhole(ram: int, peak: Option<int>, withCi: bool)
    requires Compute(ram, peak, withCi).Ok?
    ensures var b := Compute(ram, peak, withCi).value;
            && WholeSteps(b.systemLow) && WholeSteps(b.userHigh) && WholeSteps(b.userMax)
            && WholeSteps(b.brainLow) && WholeSteps(b.brainHigh) && WholeSteps(b.brainMax)
            && WholeSteps(b.ciHigh) && WholeSteps(b.ciMax) && WholeSteps(b.swapMax)
            && WholeSteps(b.parentLow) && WholeSteps(b.parentMax)
  {
    hide RoundDown;
    hide WholeSteps;
    var r := ram as real;
    var brain, ci, user := BrainMax(r, peak), CiMax(r, withCi), UserMax(r, peak, withCi);
    var low := MinR(2.0 * GIB_R, 0.064 * r);
    Shares(r, peak, withCi);
    assert ci >= 0.0 && low >= 0.0 && brain >= 0.0;
    hide BrainMax;
    hide CiMax;
    hide UserMax;
    hide MinR;
    RoundDownIsWhole(low);
    RoundDownIsWhole(user * (12.0 / 14.0));
    RoundDownIsWhole(user);
    RoundDownIsWhole(brain * 0.4);
    RoundDownIsWhole(brain * 0.8);
    RoundDownIsWhole(brain);
    RoundDownIsWhole(ci * 0.75);
    RoundDownIsWhole(ci);
    SumIsWhole(RoundDown(brain), RoundDown(ci));
  }

  lemma SumIsWhole(a: int, b: int)
    requires WholeSteps(a) && WholeSteps(b)
    ensures WholeSteps(a + b)
  {
  }

  /** Every limit that comes out reaches systemd unchanged. */
  lemma LimitsReachSystemd(ram: int, peak: Option<int>, withCi: bool)
    requires Compute(ram, peak, withCi).Ok?
    ensures var b := Compute(ram, peak, withCi).value;
            forall v :: v in {b.systemLow, b.userHigh, b.userMax, b.brainLow, b.brainHigh, b.brainMax,
                              b.ciHigh, b.ciMax, b.swapMax, b.parentLow, b.parentMax} ==>
              v >= 0 && Parse(ToSystemd(v)) == Some(v)
  {
    LimitsAreWhole(ram, peak, withCi);
    hide Compute;
    hide Parse;
    hide ToSystemd;
    var b := Compute(ram, peak, withCi).value;
    forall v: int | WholeSteps(v) ensures Parse(ToSystemd(v)) == Some(v) {
      StepsAreExact(v);
    }
  }

  // ---------- swap ----------

  function SwapLimit(ramBytes: int, freeDisk: int): real {
    MinR(MinR(ramBytes as real / 2.0, 16.0 * GIB_R), freeDisk as real * 0.10)
  }

  function SwapSize(ramBytes: int, freeDisk: int): int {
    var size := SwapLimit(ramBytes, freeDisk);
    if size >= GIB_R then (size / GIB_R).Floor * GIB else 0
  }

  lemma WholeGibs(size: real, k: int)
    ensures ((size / GIB_R).Floor * GIB) as real <= size
    ensures (k * GIB) as real <= size ==> k <= (size / GIB_R).Floor
  {
    var n := (size / GIB_R).Floor;
    assert n as real <= size / GIB_R;
    assert (n * GIB) as real == n as real * GIB_R;
    assert (k * GIB) as real == k as real * GIB_R;
    if (k * GIB) as real <= size {
      assert k as real <= size / GIB_R;
    }
  }

  /** The swap file is the largest whole number of GiB within half the memory, 16 GiB and a tenth of the disk. */
  lemma SwapIsLargest(ram: int, freeDisk: int, k: nat)
    ensures var s := SwapSize(ram, freeDisk);
            && s % GIB == 0 && 0 <= s <= 16 * GIB
            && (s > 0 ==> 2 * s <= ram && 10 * s <= freeDisk)
            && (k <= 16 && 2 * k * GIB <= ram && 10 * k * GIB <= freeDisk ==> k * GIB <= s)
  {
    var size := SwapLimit(ram, freeDisk);
    WholeGibs(size, k);
    WholeGibs(size, 1);
    var n := (size / GIB_R).Floor;
    SwapLimitIs(ram, freeDisk, k);
    hide SwapLimit;
    GibsBelow(size, n, SwapSize(ram, freeDisk), k);
  }

  lemma SwapLimitIs(ram: int, freeDisk: int, k: nat)
    ensures var size := SwapLimit(ram, freeDisk);
            && size <= 16.0 * GIB_R && size * 2.0 <= ram as real && size * 10.0 <= freeDisk as real
            && ((k * GIB) as real <= size <==> k <= 16 && 2 * k * GIB <= ram && 10 * k * GIB <= freeDisk)
  {
  }

  lemma GibsBelow(size: real, n: int, s: int, k: nat)
    requires s == if size >= GIB_R then n * GIB else 0
    requires (n * GIB) as real <= size && (size >= GIB_R ==> n >= 1)
    requires (k * GIB) as real <= size ==> k <= n
    ensures s % GIB == 0 && 0 <= s && (s > 0 ==> s as real <= size) && ((k * GIB) as real <= size ==> k * GIB <= s)
  {
    if size < GIB_R && k >= 1 { assert (k * GIB) as real >= GIB_R; }
  }
}
