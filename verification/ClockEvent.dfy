/** Clock event devices: the conversion of tick limits to nanoseconds and the programming of the
    next event (kernel/clockevent.c). All values are unsigned 64-bit unless stated. */
module ClockEvent {
  import opened Arith
  import opened ClockScale

  const SIGN := 0x8000_0000_0000_0000

  // ---------------------------------------------------------------- ticks to nanoseconds

  /** delta << shift, or all ones when that shifts bits out. */
  function Saturated(delta: nat, shift: nat): nat {
    var clc := Wrap(delta * Pow2(shift));
    if Shr(clc, shift) != delta then WORD - 1 else clc
  }

  /** Whether cev_delta2ns rounds up. */
  predicate RoundsUp(mult: nat, shift: nat, clc: nat, isMax: bool) {
    WORD - 1 - clc > mult - 1 && (!isMax || mult <= Pow2(shift))
  }

  /** cev_delta2ns. */
  function Delta2Ns(mult: nat, shift: nat, delta: nat, isMax: bool): nat
    requires mult > 0
  {
    var clc := Saturated(delta, shift);
    var rounded := if RoundsUp(mult, shift, clc, isMax) then clc + mult - 1 else clc;
    var ns := rounded / mult;
    if ns > 1000 then ns else 1000
  }

  lemma ShrAtLeast(x: nat, shift: nat, t: nat)
    ensures t <= Shr(x, shift) <==> t * Pow2(shift) <= x
  {
    ShrIsQuotient(x, shift);
    var q, p := Shr(x, shift), Pow2(shift);
    if t <= q { Grows(t, q, p, p); } else { Grows(q + 1, t, p, p); }
  }

  /** The shift test finds exactly the overflows. */
  lemma SaturatedIs(delta: nat, shift: nat)
    requires delta < WORD
    ensures var x := delta * Pow2(shift); Saturated(delta, shift) == if x < WORD then x else WORD - 1
  {
    var x := delta * Pow2(shift);
    ShrAtLeast(Wrap(x), shift, delta);
    ShrAtLeast(Wrap(x), shift, delta + 1);
    assert (delta + 1) * Pow2(shift) == x + Pow2(shift);
  }

  /** The largest multiple of a positive mult up to x. */
  lemma Floor(x: nat, mult: nat)
    requires mult > 0
    ensures x - mult < x / mult * mult <= x && (x / mult * mult == x <==> x % mult == 0)
  {
    DivMod(x, mult);
  }

  /** The minimum rounds up: its nanoseconds never ask for fewer ticks. */
  ghost predicate MinimumExact(mult: nat, shift: nat, ticks: nat)
    requires mult > 0
  {
    var x := ticks * Pow2(shift);
    x + mult < WORD || (x < WORD && x % mult == 0)
  }

  lemma HugeQuotient(clc: nat, mult: nat)
    requires 0 < mult < WORD32 && WORD - mult <= clc < WORD
    ensures clc / mult > 1000
  {
    Floor(clc, mult);
    var q := clc / mult;
    if q <= 1000 { Grows(q, 1000, mult, mult); }
  }

  lemma MinimumNs(mult: nat, shift: nat, ticks: nat)
    requires 0 < mult < WORD32 && ticks < WORD
    ensures var ns := Delta2Ns(mult, shift, ticks, false);
      && 1000 <= ns && ns * mult < WORD
      && (ticks * Pow2(shift) <= ns * mult <==> MinimumExact(mult, shift, ticks))
  {
    SaturatedIs(ticks, shift);
    var x, clc, ns := ticks * Pow2(shift), Saturated(ticks, shift), Delta2Ns(mult, shift, ticks, false);
    if RoundsUp(mult, shift, clc, false) {
      Floor(clc + mult - 1, mult);
      Grows((clc + mult - 1) / mult, ns, mult, mult);
    } else {
      HugeQuotient(clc, mult);
      Floor(clc, mult);
    }
  }

  /** The maximum stays within the device range unless it was raised to 1000 ns. */
  lemma MaximumNs(mult: nat, shift: nat, ticks: nat)
    requires 0 < mult < WORD32 && ticks < WORD
    ensures var ns := Delta2Ns(mult, shift, ticks, true);
      && 1000 <= ns && ns * mult < WORD
      && (Shr(ns * mult, shift) <= ticks <==> Shr(1000 * mult, shift) <= ticks)
  {
    SaturatedIs(ticks, shift);
    var clc, ns := Saturated(ticks, shift), Delta2Ns(mult, shift, ticks, true);
    var n := if RoundsUp(mult, shift, clc, true) then clc + mult - 1 else clc;
    Floor(n, mult);
    if ns > 1000 {
      assert (ticks + 1) * Pow2(shift) == ticks * Pow2(shift) + Pow2(shift);
      ShrAtLeast(ns * mult, shift, ticks + 1);
      Grows(1000, ns, mult, mult);
      ShrMono(1000 * mult, ns * mult, shift);
    }
  }

  /** A limit is converted to within one nanosecond, unless it was raised to 1000 ns; a limit beyond
      2^64 counts as 2^64 - 1. */
  lemma LimitNear(mult: nat, shift: nat, ticks: nat, isMax: bool)
    requires 0 < mult < WORD32 && ticks < WORD
    ensures var ns, x := Delta2Ns(mult, shift, ticks, isMax), ticks * Pow2(shift);
      var most := if x < WORD then x else WORD - 1;
      ns >= 1000 && most - mult < ns * mult && (ns > 1000 ==> ns * mult < most + mult)
  {
    SaturatedIs(ticks, shift);
    var clc := Saturated(ticks, shift);
    NearLimit(clc, mult, if RoundsUp(mult, shift, clc, isMax) then clc + mult - 1 else clc);
  }

  lemma NearLimit(clc: nat, mult: nat, n: nat)
    requires mult > 0 && clc <= n <= clc + mult - 1
    ensures var q := n / mult; var ns := if q > 1000 then q else 1000;
      clc - mult < ns * mult && (ns > 1000 ==> ns * mult < clc + mult)
  {
    var q := n / mult;
    Floor(n, mult);
    if q <= 1000 { Grows(q, 1000, mult, mult); }
  }

  // ---------------------------------------------------------------- clamping

  /** The bits of x read as a signed number. */
  function Signed(x: nat): int {
    if x < SIGN then x else x - WORD
  }

  /** The bits of a signed number read as unsigned. */
  function Unsigned(x: int): int {
    if x >= 0 then x else x + WORD
  }

  /** The signed min and max that clockevents_program_delta applies to a delta. */
  function Clamped(delta: nat, minNs: nat, maxNs: nat): nat
    requires delta < WORD && minNs < WORD && maxNs < WORD
  {
    var low := if Signed(delta) <= Signed(maxNs) then Signed(delta) else Signed(maxNs);
    Unsigned(if low >= Signed(minNs) then low else Signed(minNs))
  }

  /** Despite the signed comparisons a clamped delta is the minimum or within the limits. */
  lemma ClampedWithin(delta: nat, minNs: nat, maxNs: nat)
    requires delta < WORD && minNs < WORD && maxNs < WORD && (minNs <= maxNs || minNs < SIGN)
    ensures var d := Clamped(delta, minNs, maxNs); d == minNs || minNs <= d <= maxNs
    ensures Clamped(SIGN, minNs, maxNs) == minNs
  {
  }

  /** A delta between the limits is kept, and one outside becomes the nearer limit, exactly as long as
      the upper limit is not negative as a signed number; else all but the lower limit is lost. */
  lemma ClampedIs(delta: nat, minNs: nat, maxNs: nat)
    requires delta < WORD && minNs <= maxNs < WORD && minNs < SIGN
    ensures maxNs < SIGN && delta < SIGN ==>
              Clamped(delta, minNs, maxNs) == if delta < minNs then minNs else if delta > maxNs then maxNs else delta
    ensures delta >= SIGN || maxNs >= SIGN ==> Clamped(delta, minNs, maxNs) == minNs
    ensures minNs <= delta <= maxNs ==>
              (Clamped(delta, minNs, maxNs) == delta <==> maxNs < SIGN || delta == minNs)
  {
  }

  lemma NsFits(ns: nat, mult: nat)
    requires mult > 0 && ns * mult < WORD
    ensures ns < WORD && (ns >= SIGN ==> mult == 1)
  {
    Grows(ns, ns, 1, mult);
    if mult >= 2 { Grows(ns, ns, 2, mult); }
  }

  lemma LimitsOrdered(mult: nat, shift: nat, minTicks: nat, maxTicks: nat)
    requires 0 < mult < WORD32 && minTicks <= maxTicks < WORD
    ensures var minNs, maxNs := Delta2Ns(mult, shift, minTicks, false), Delta2Ns(mult, shift, maxTicks, true);
      minNs < WORD && maxNs < WORD && (minNs <= maxNs || minNs < SIGN)
  {
    MinimumNs(mult, shift, minTicks);
    MaximumNs(mult, shift, maxTicks);
    NsFits(Delta2Ns(mult, shift, minTicks, false), mult);
    NsFits(Delta2Ns(mult, shift, maxTicks, true), mult);
    if mult == 1 {
      SaturatedIs(minTicks, shift);
      SaturatedIs(maxTicks, shift);
      Grows(minTicks, maxTicks, Pow2(shift), Pow2(shift));
    }
  }

  // ---------------------------------------------------------------- programming an event

  /** The tick count clockevents_program_delta asks for. */
  function Ticks(mult: nat, shift: nat, minNs: nat, maxNs: nat, delta: nat): nat
    requires delta < WORD && minNs < WORD && maxNs < WORD
  {
    Shr(Wrap(Clamped(delta, minNs, maxNs) * mult), shift)
  }

  /** Every requested delta gives a tick count that the device accepts. */
  ghost predicate InRange(mult: nat, shift: nat, minNs: nat, maxNs: nat, minTicks: nat, maxTicks: nat)
    requires minNs < WORD && maxNs < WORD
  {
    forall d: nat :: d < WORD ==> minTicks <= Ticks(mult, shift, minNs, maxNs, d) <= maxTicks
  }

  /** The product never overflows, whatever the delta. */
  lemma ProductFitsWord(mult: nat, shift: nat, minTicks: nat, maxTicks: nat, delta: nat)
    requires 0 < mult < WORD32 && minTicks <= maxTicks < WORD && delta < WORD
    ensures var minNs, maxNs := Delta2Ns(mult, shift, minTicks, false), Delta2Ns(mult, shift, maxTicks, true);
      minNs < WORD && maxNs < WORD && Clamped(delta, minNs, maxNs) * mult < WORD
  {
    var minNs, maxNs := Delta2Ns(mult, shift, minTicks, false), Delta2Ns(mult, shift, maxTicks, true);
    LimitsOrdered(mult, shift, minTicks, maxTicks);
    MinimumNs(mult, shift, minTicks);
    MaximumNs(mult, shift, maxTicks);
    ClampedWithin(delta, minNs, maxNs);
    var d := Clamped(delta, minNs, maxNs);
    if d != minNs { Grows(d, maxNs, mult, mult); }
  }

  /** The exact condition for every programmed event to stay in the device range: the minimum is
      converted exactly and an event of the minimum length fits. */
  ghost predicate Programmable(mult: nat, shift: nat, minTicks: nat, maxTicks: nat)
    requires mult > 0
  {
    && MinimumExact(mult, shift, minTicks)
    && Shr(Delta2Ns(mult, shift, minTicks, false) * mult, shift) <= maxTicks
  }

  lemma TicksBelow(mult: nat, shift: nat, minTicks: nat, maxTicks: nat, delta: nat)
    requires 0 < mult < WORD32 && minTicks <= maxTicks < WORD && delta < WORD
    requires Programmable(mult, shift, minTicks, maxTicks)
    ensures var minNs, maxNs := Delta2Ns(mult, shift, minTicks, false), Delta2Ns(mult, shift, maxTicks, true);
      minNs < WORD && maxNs < WORD && minTicks <= Ticks(mult, shift, minNs, maxNs, delta) <= maxTicks
  {
    var minNs, maxNs := Delta2Ns(mult, shift, minTicks, false), Delta2Ns(mult, shift, maxTicks, true);
    LimitsOrdered(mult, shift, minTicks, maxTicks);
    ProductFitsWord(mult, shift, minTicks, maxTicks, delta);
    ClampedWithin(delta, minNs, maxNs);
    MinimumNs(mult, shift, minTicks);
    MaximumNs(mult, shift, maxTicks);
    var d := Clamped(delta, minNs, maxNs);
    Grows(minNs, d, mult, mult);
    ShrAtLeast(d * mult, shift, minTicks);
    Grows(1000, minNs, mult, mult);
    ShrMono(1000 * mult, minNs * mult, shift);
    if d != minNs {
      Grows(d, maxNs, mult, mult);
      ShrMono(d * mult, maxNs * mult, shift);
    }
  }

  lemma InRangeIffProgrammable(mult: nat, shift: nat, minTicks: nat, maxTicks: nat)
    requires 0 < mult < WORD32 && minTicks <= maxTicks < WORD
    ensures var minNs, maxNs := Delta2Ns(mult, shift, minTicks, false), Delta2Ns(mult, shift, maxTicks, true);
      && minNs < WORD && maxNs < WORD
      && (InRange(mult, shift, minNs, maxNs, minTicks, maxTicks) <==> Programmable(mult, shift, minTicks, maxTicks))
  {
    var minNs, maxNs := Delta2Ns(mult, shift, minTicks, false), Delta2Ns(mult, shift, maxTicks, true);
    LimitsOrdered(mult, shift, minTicks, maxTicks);
    if InRange(mult, shift, minNs, maxNs, minTicks, maxTicks) {
      MinimumNs(mult, shift, minTicks);
      ClampedWithin(SIGN, minNs, maxNs);
      assert Ticks(mult, shift, minNs, maxNs, SIGN) == Shr(minNs * mult, shift);
      ShrAtLeast(minNs * mult, shift, minTicks);
    }
    if Programmable(mult, shift, minTicks, maxTicks) {
      forall d: nat | d < WORD ensures minTicks <= Ticks(mult, shift, minNs, maxNs, d) <= maxTicks {
        TicksBelow(mult, shift, minTicks, maxTicks, d);
      }
    }
  }

  /** A device that ticks at least as slowly as its shift resolves, whose minimum is at least a
      microsecond and far from 2^64, is programmable. */
  lemma UsualDevice(mult: nat, shift: nat, minTicks: nat, maxTicks: nat)
    requires 0 < mult < WORD32 && mult <= Pow2(shift) && minTicks <= maxTicks < WORD
    requires 1000 * mult <= minTicks * Pow2(shift) < WORD - mult
    ensures Programmable(mult, shift, minTicks, maxTicks)
  {
    SaturatedIs(minTicks, shift);
    var x, ns := minTicks * Pow2(shift), Delta2Ns(mult, shift, minTicks, false);
    Floor(x + mult - 1, mult);
    var q := (x + mult - 1) / mult;
    assert ns * mult <= x + mult - 1;
    assert (minTicks + 1) * Pow2(shift) == x + Pow2(shift);
    ShrAtLeast(ns * mult, shift, minTicks + 1);
  }

  // ---------------------------------------------------------------- the device

  lemma ConfigBreaks(freq: nat, sec: nat, maxTicks: nat, acc: nat)
    requires 0 < freq < WORD32 && 0 < sec < WORD32 && (sec <= 600 || sec * freq <= maxTicks < WORD32)
    requires Room(sec * NSEC_PER_SEC, acc)
    ensures acc > 0 && Rounded(NSEC_PER_SEC, freq, 1) < Pow2(acc)
  {
    assert Pow2(63) == 0x8000_0000_0000_0000 by { Pow2Words(); assert Pow2(64) == 2 * Pow2(63); }
    assert Pow2(1) == 2;
    if sec <= 600 {
      assert Pow2(40) == 0x100_0000_0000 by { Pow2Words(); assert Pow2(8) == 256; Pow2Add(32, 8); }
      if acc < 24 { Pow2Mono(40, 63 - acc); }
      Pow2Mono(4, acc);
    } else {
      Grows(601, sec, freq, freq);
    }
  }

  /** The multiplier found is never zero. */
  lemma MultiplierPositive(freq: nat, shift: nat, acc: nat)
    requires 0 < freq && 0 < shift <= 32 && acc > 0
    requires shift < 32 ==> Rounded(NSEC_PER_SEC, freq, shift + 1) >= Pow2(acc)
    ensures Rounded(NSEC_PER_SEC, freq, shift) > 0
  {
    RoundedAtLeast(NSEC_PER_SEC, freq, shift, 1);
    if shift == 32 {
      Pow2Words();
      Grows(1, freq, WORD32, WORD32);
    } else {
      Pow2Mono(1, acc);
      RoundedAtLeast(NSEC_PER_SEC, freq, shift + 1, 2);
      assert freq * Pow2(shift + 1) == 2 * (freq * Pow2(shift)) by { Twice(freq, Pow2(shift)); }
    }
  }

  lemma Twice(a: nat, b: nat)
    ensures a * (2 * b) == 2 * (a * b)
  {
  }

  lemma RoundedAtLeast(from: nat, to: nat, shift: nat, n: nat)
    requires from > 0
    ensures n <= Rounded(from, to, shift) <==> n * from <= to * Pow2(shift) + from / 2
  {
    var x := to * Pow2(shift) + from / 2;
    Floor(x, from);
    var q := x / from;
    if n <= q { Grows(n, q, from, from); } else { Grows(q + 1, n, from, from); }
    assert (q + 1) * from == q * from + from;
  }

  /** The seconds clockevents_config asks the multiplier to cover. */
  function Covered(freq: nat, maxTicks: nat): nat
    requires freq > 0
  {
    var sec := maxTicks / freq;
    if sec == 0 then 1 else if sec > 600 && maxTicks > 0xffff_ffff then 600 else sec
  }

  lemma CoveredFits(freq: nat, maxTicks: nat)
    requires freq > 0
    ensures var sec := Covered(freq, maxTicks); 0 < sec < WORD32 && (sec <= 600 || sec * freq <= maxTicks < WORD32)
  {
    Floor(maxTicks, freq);
    Grows(Covered(freq, maxTicks), Covered(freq, maxTicks), 1, freq);
  }

  /** The covered seconds lie in the device's range, unless one second does not, and one second more
      would not lie in it, unless they are the allowed 600. */
  lemma CoveredFill(freq: nat, maxTicks: nat)
    requires freq > 0
    ensures var sec := Covered(freq, maxTicks);
      && (sec == 1 || sec * freq <= maxTicks)
      && (maxTicks < (sec + 1) * freq || (sec == 600 && maxTicks > 0xffff_ffff))
  {
    var sec, q := Covered(freq, maxTicks), maxTicks / freq;
    Floor(maxTicks, freq);
    assert (sec + 1) * freq == sec * freq + freq && (q == 0 ==> q * freq == 0);
    if sec < q { Grows(sec, q, freq, freq); }
  }

  /** What clockevents_config leaves for this frequency and range. */
  ghost predicate Scaled(freq: nat, maxTicks: nat, mult: nat, shift: nat)
    requires freq > 0
  {
    exists acc :: Room(Covered(freq, maxTicks) * NSEC_PER_SEC, acc) && Best(NSEC_PER_SEC, freq, acc, mult, shift)
  }

  /** The multiplier and shift of a device with this frequency and range. */
  method ConfigScale(freq: nat, maxTicks: nat) returns (mult: nat, shift: nat)
    requires 0 < freq < WORD32
    ensures 0 < mult < WORD32 && Scaled(freq, maxTicks, mult, shift)
  {
    var sec := maxTicks / freq;
    if sec == 0 {
      sec := 1;
    } else if sec > 600 && maxTicks > 0xffff_ffff {
      sec := 600;
    }
    CoveredFits(freq, maxTicks);
    var acc;
    mult, shift, acc := MulShift(NSEC_PER_SEC, freq, Wrap32(sec));
    ConfigBreaks(freq, sec, maxTicks, acc);
    MultiplierPositive(freq, shift, acc);
    Pow2Mono(acc, 32);
    Pow2Words();
  }

  // ---------------------------------------------------------------- devices out of range

  /** A device that counts nanoseconds has a power of two as its multiplier. */
  lemma NanosecondScale(maxTicks: nat, acc: nat, mult: nat, shift: nat)
    requires Scaled(NSEC_PER_SEC, maxTicks, mult, shift) && Room(Covered(NSEC_PER_SEC, maxTicks) * NSEC_PER_SEC, acc)
    requires 0 < acc <= 32
    ensures mult == Pow2(shift) && (acc > 1 ==> shift == acc - 1)
  {
    var x := Covered(NSEC_PER_SEC, maxTicks) * NSEC_PER_SEC;
    var a :| Room(x, a) && Best(NSEC_PER_SEC, NSEC_PER_SEC, a, mult, shift);
    RoomUnique(x, acc, a);
    RoundedSame(NSEC_PER_SEC, shift);
    RoundedSame(NSEC_PER_SEC, acc - 1);
    if shift >= acc { Pow2Mono(acc, shift); }
    assert Pow2(acc) == 2 * Pow2(acc - 1);
  }

  /** n nanoseconds are n ticks of such a device. */
  lemma NanosecondTicks(shift: nat, n: nat)
    ensures Shr(n * Pow2(shift), shift) == n
  {
    ShrAtLeast(n * Pow2(shift), shift, n);
    ShrAtLeast(n * Pow2(shift), shift, n + 1);
    assert (n + 1) * Pow2(shift) == n * Pow2(shift) + Pow2(shift);
  }

  /** Raising a limit to 1000 ns breaks the range: a 1 GHz device with 1 to 500 ticks is configured
      with multiplier 2^31 and shift 31, and asked for 1000 ticks. */
  lemma RaisedMaximumFails(mult: nat, shift: nat)
    requires Scaled(NSEC_PER_SEC, 500, mult, shift)
    ensures mult == 0x8000_0000 && shift == 31
    ensures Delta2Ns(mult, shift, 1, false) == 1000 && Delta2Ns(mult, shift, 500, true) == 1000
    ensures Ticks(mult, shift, 1000, 1000, 0) == 1000 && !Programmable(mult, shift, 1, 500)
  {
    Pow2Words();
    NanosecondScale(500, 32, mult, shift);
    assert Pow2(32) == 2 * Pow2(31);
    SaturatedIs(500, 31);
    SaturatedIs(1, 31);
    NanosecondTicks(31, 1000);
  }

  /** A minimum that saturates breaks the range at the other end: a 1 GHz device with a 64-bit range
      is configured with multiplier 2^23 and shift 23, and with a minimum of 2^41 ticks it is asked
      for one less. */
  lemma SaturatedMinimumFails(mult: nat, shift: nat)
    requires Scaled(NSEC_PER_SEC, WORD - 1, mult, shift)
    ensures mult == 0x80_0000 && shift == 23
    ensures !MinimumExact(mult, shift, 0x200_0000_0000)
    ensures Delta2Ns(mult, shift, 0x200_0000_0000, false) == 0x1ff_ffff_ffff
    ensures Shr(0x1ff_ffff_ffff * mult, shift) == 0x1ff_ffff_ffff
    ensures !Programmable(mult, shift, 0x200_0000_0000, WORD - 1)
  {
    SmallPowers();
    NanosecondScale(WORD - 1, 24, mult, shift);
    SaturatedIs(0x200_0000_0000, 23);
    NanosecondTicks(23, 0x1ff_ffff_ffff);
  }

  lemma SmallPowers()
    ensures Pow2(23) == 0x80_0000 && Pow2(24) == 0x100_0000 && Pow2(39) == 0x80_0000_0000 && Pow2(40) == 0x100_0000_0000
  {
    Pow2Words();
    assert Pow2(8) == 256 && Pow2(7) == 128;
    Pow2Add(8, 8);
    Pow2Add(16, 7);
    Pow2Add(16, 8);
    Pow2Add(32, 7);
    Pow2Add(32, 8);
  }

  /** The ticks asked for are those of the clamped delta at the frequency of the device: off by at most
      one, and half a unit of the scale for every nanosecond. */
  lemma TicksAccurate(freq: nat, mult: nat, shift: nat, minTicks: nat, maxTicks: nat, delta: nat)
    requires freq > 0 && 0 < mult < WORD32 && minTicks <= maxTicks < WORD && delta < WORD
    requires Scaled(freq, maxTicks, mult, shift)
    ensures var minNs, maxNs := Delta2Ns(mult, shift, minTicks, false), Delta2Ns(mult, shift, maxTicks, true);
      && minNs < WORD && maxNs < WORD
      && Accurate(NSEC_PER_SEC, freq, shift, Clamped(delta, minNs, maxNs), Ticks(mult, shift, minNs, maxNs, delta))
  {
    var minNs, maxNs := Delta2Ns(mult, shift, minTicks, false), Delta2Ns(mult, shift, maxTicks, true);
    ProductFitsWord(mult, shift, minTicks, maxTicks, delta);
    ConvertAccurate(NSEC_PER_SEC, freq, mult, shift, Clamped(delta, minNs, maxNs));
  }

  /** The clamping and scaling in clockevents_program_delta. */
  method NextTicks(mult: nat, shift: nat, minNs: nat, maxNs: nat, deltaNs: nat) returns (ticks: nat)
    requires deltaNs < WORD && minNs < WORD && maxNs < WORD
    ensures ticks == Ticks(mult, shift, minNs, maxNs, deltaNs)
  {
    var delta := Signed(deltaNs);
    if delta > Signed(maxNs) { delta := Signed(maxNs); }
    if delta < Signed(minNs) { delta := Signed(minNs); }
    ticks := Shr(Wrap(Unsigned(delta) * mult), shift);
  }

  class Device {
    var mult: nat
    var shift: nat
    var minTicks: nat
    var maxTicks: nat
    var minNs: nat
    var maxNs: nat
    var isShutdown: bool

    ghost predicate Configured()
      reads this
    {
      && 0 < mult < WORD32 && 0 < shift <= 32 && minTicks <= maxTicks < WORD && minNs < WORD && maxNs < WORD
      && minNs == Delta2Ns(mult, shift, minTicks, false) && maxNs == Delta2Ns(mult, shift, maxTicks, true)
    }

    constructor ()
      ensures !isShutdown
    {
      mult, shift, minTicks, maxTicks, minNs, maxNs, isShutdown := 0, 0, 0, 0, 0, 0, false;
    }

    /** clockevents_config with the tick limits set as clockevents_config_and_register does. */
    method Config(freq: nat, minDelta: nat, maxDelta: nat)
      requires 0 < freq < WORD32 && minDelta <= maxDelta < WORD
      modifies this
      ensures Configured() && minTicks == minDelta && maxTicks == maxDelta && isShutdown == old(isShutdown)
      ensures Scaled(freq, maxTicks, mult, shift)
      ensures InRange(mult, shift, minNs, maxNs, minTicks, maxTicks) <==> Programmable(mult, shift, minTicks, maxTicks)
    {
      minTicks, maxTicks := minDelta, maxDelta;
      mult, shift := ConfigScale(freq, maxTicks);
      minNs := Delta2Ns(mult, shift, minTicks, false);
      maxNs := Delta2Ns(mult, shift, maxTicks, true);
      InRangeIffProgrammable(mult, shift, minTicks, maxTicks);
    }

    /** clockevents_program_delta: the ticks handed to set_next_event, unless the device is shut
        down. */
    method ProgramDelta(deltaNs: nat, ghost freq: nat) returns (armed: bool, ticks: nat)
      requires Configured() && deltaNs < WORD && freq > 0 && Scaled(freq, maxTicks, mult, shift)
      ensures armed <==> !isShutdown
      ensures armed ==> ticks == Ticks(mult, shift, minNs, maxNs, deltaNs)
      ensures armed && Programmable(mult, shift, minTicks, maxTicks) ==> minTicks <= ticks <= maxTicks
      ensures armed ==> Accurate(NSEC_PER_SEC, freq, shift, Clamped(deltaNs, minNs, maxNs), ticks)
    {
      TicksAccurate(freq, mult, shift, minTicks, maxTicks, deltaNs);
      if isShutdown { return false, 0; }
      armed := true;
      ticks := NextTicks(mult, shift, minNs, maxNs, deltaNs);
      if Programmable(mult, shift, minTicks, maxTicks) {
        TicksBelow(mult, shift, minTicks, maxTicks, deltaNs);
      }
    }
  }
}
