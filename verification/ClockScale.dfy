/** Fixed-point scaling of clock rates: the search for a multiplier and a shift, and the
    conversion of cycle counts to nanoseconds (kernel/clocksource.c, clocksource.h). */
module ClockScale {
  import opened Arith

  const WORD32 := 0x1_0000_0000
  const WORD := 0x1_0000_0000_0000_0000
  const NSEC_PER_SEC := 1_000_000_000

  function Pow2(n: nat): (p: nat)
    ensures p > 0
  {
    if n == 0 then 1 else 2 * Pow2(n - 1)
  }

  /** x >> n. */
  function Shr(x: nat, n: nat): nat {
    if n == 0 then x else Shr(x, n - 1) / 2
  }

  /** x in a 64-bit register. */
  function Wrap(x: nat): (w: nat)
    ensures x < WORD ==> w == x
  {
    if x < WORD then x else x % 0x1_0000_0000_0000_0000
  }

  /** x in a 32-bit register. */
  function Wrap32(x: nat): (w: nat)
    ensures x < WORD32 ==> w == x
  {
    if x < WORD32 then x else x % 0x1_0000_0000
  }

  lemma {:induction false} Pow2Add(a: nat, b: nat)
    ensures Pow2(a + b) == Pow2(a) * Pow2(b)
  {
    if a > 0 { Pow2Add(a - 1, b); }
  }

  lemma {:induction false} Pow2Mono(a: nat, b: nat)
    requires a <= b
    ensures Pow2(a) <= Pow2(b)
  {
    if a < b { Pow2Mono(a, b - 1); }
  }

  lemma Pow2Words()
    ensures Pow2(32) == WORD32 && Pow2(64) == WORD
  {
    assert Pow2(8) == 256;
    Pow2Add(8, 8);
    Pow2Add(16, 16);
    Pow2Add(32, 32);
  }

  lemma Halved(x: nat, q: nat, h: nat, p: nat)
    requires q * p <= x < (q + 1) * p && 2 * h <= q <= 2 * h + 1
    ensures h * (2 * p) <= x < (h + 1) * (2 * p)
  {
    assert h * (2 * p) == (2 * h) * p && (h + 1) * (2 * p) == (2 * h + 2) * p;
    Grows(2 * h, q, p, p);
    Grows(q + 1, 2 * h + 2, p, p);
  }

  /** A right shift is the quotient by a power of two. */
  lemma {:induction false} ShrIsQuotient(x: nat, n: nat)
    ensures Shr(x, n) * Pow2(n) <= x < (Shr(x, n) + 1) * Pow2(n)
  {
    if n > 0 {
      ShrIsQuotient(x, n - 1);
      Halved(x, Shr(x, n - 1), Shr(x, n), Pow2(n - 1));
    }
  }

  lemma ShrZero(x: nat, n: nat)
    ensures Shr(x, n) == 0 <==> x < Pow2(n)
  {
    ShrIsQuotient(x, n);
    if Shr(x, n) > 0 { Grows(1, Shr(x, n), Pow2(n), Pow2(n)); }
  }

  lemma {:induction false} ShrMono(x: nat, y: nat, n: nat)
    requires x <= y
    ensures Shr(x, n) <= Shr(y, n)
  {
    if n > 0 { ShrMono(x, y, n - 1); }
  }

  // ---------------------------------------------------------------- the search

  /** The multiplier for one shift: to * 2^shift / from, rounded to nearest. */
  function Rounded(from: nat, to: nat, shift: nat): nat
    requires from > 0
  {
    (to * Pow2(shift) + from / 2) / from
  }

  /** Rounding is to the nearest: the multiplier is off by at most half a unit. */
  lemma RoundedNear(from: nat, to: nat, shift: nat)
    requires from > 0
    ensures -(from as int) <= 2 * (Rounded(from, to, shift) * from - to * Pow2(shift)) <= from
  {
    DivMod(to * Pow2(shift) + from / 2, from);
  }

  lemma QuotientMono(x: nat, y: nat, a: nat)
    requires a > 0 && x <= y
    ensures x / a <= y / a
  {
    DivMod(x, a);
    DivMod(y, a);
    var p, q := x / a, y / a;
    assert (q + 1) * a == q * a + a;
    if p > q { Grows(q + 1, p, a, a); }
  }

  lemma RoundedMono(from: nat, to: nat, s: nat, t: nat)
    requires from > 0 && s <= t
    ensures Rounded(from, to, s) <= Rounded(from, to, t)
  {
    Pow2Mono(s, t);
    Grows(to, to, Pow2(s), Pow2(t));
    QuotientMono(to * Pow2(s) + from / 2, to * Pow2(t) + from / 2, from);
  }

  /** How many bits a multiplier may have, up to 32, so that x times it does not overflow. */
  ghost predicate Room(x: nat, acc: nat) {
    acc <= 32 && x < Pow2(64 - acc) && (acc < 32 ==> Pow2(63 - acc) <= x)
  }

  lemma RoomUnique(x: nat, a: nat, b: nat)
    requires Room(x, a) && Room(x, b)
    ensures a == b
  {
    if a < b { Pow2Mono(64 - b, 63 - a); }
    if b < a { Pow2Mono(64 - a, 63 - b); }
  }

  /** The first loop of calc_clock_mul_shift. */
  method Headroom(x: nat) returns (acc: nat)
    requires x < WORD
    ensures Room(x, acc)
  {
    Pow2Words();
    acc := 32;
    var tmp := Shr(x, 32);
    ShrZero(x, 32);
    while tmp != 0
      invariant acc <= 32 && tmp == Shr(x, 64 - acc)
      invariant acc < 32 ==> Pow2(63 - acc) <= x
    {
      ShrZero(x, 64 - acc);
      tmp := tmp / 2;
      acc := acc - 1;
    }
    ShrZero(x, 64 - acc);
  }

  lemma ProductFits(x: nat, y: nat, a: nat, b: nat)
    requires x < a && y < b
    ensures x * y < a * b
  {
    Grows(x, x, y, b);
    Grows(x + 1, a, b, b);
    assert (x + 1) * b == x * b + b;
  }

  /** The multiplier of the largest shift for which it has room. */
  ghost predicate Best(from: nat, to: nat, acc: nat, mul: nat, shift: nat)
    requires from > 0
  {
    && 0 < shift <= 32 && mul == Rounded(from, to, shift) < Pow2(acc)
    && forall s :: shift < s <= 32 ==> Rounded(from, to, s) >= Pow2(acc)
  }

  /** calc_clock_mul_shift. It leaves its loop by the break exactly when a shift of one leaves a
      multiplier small enough, and then the shift is the largest such. */
  method MulShift(from: nat, to: nat, maxsec: nat) returns (mul: nat, shift: nat, acc: nat)
    requires 0 < from < WORD32 && to < WORD32 && maxsec < WORD32
    ensures Room(maxsec * from, acc) && (shift > 0 <==> Rounded(from, to, 1) < Pow2(acc))
    ensures shift > 0 ==> Best(from, to, acc, mul, shift)
    ensures shift == 0 ==> mul == Wrap32(Rounded(from, to, 1))
  {
    ProductFits(maxsec, from, WORD32, WORD32);
    acc := Headroom(maxsec * from);
    var tmp := 0;
    shift := 32;
    while shift > 0
      invariant shift <= 32
      invariant forall s :: shift < s <= 32 ==> Rounded(from, to, s) >= Pow2(acc)
      invariant shift < 32 ==> tmp == Rounded(from, to, shift + 1)
    {
      tmp := to * Pow2(shift);
      tmp := tmp + from / 2;
      tmp := tmp / from;
      assert tmp == Rounded(from, to, shift);
      ShrZero(tmp, acc);
      if Shr(tmp, acc) == 0 {
        RoundedMono(from, to, 1, shift);
        Pow2Mono(acc, 32);
        Pow2Words();
        break;
      }
      shift := shift - 1;
    }
    mul := Wrap32(tmp);
  }

  // ---------------------------------------------------------------- conversion

  /** clocksource_cyc2ns, in 64-bit arithmetic. */
  function Cyc2Ns(cycles: nat, mul: nat, shift: nat): nat {
    Shr(Wrap(cycles * mul), shift)
  }

  /** No count within the advertised time overflows. */
  lemma NoOverflow(cycles: nat, mul: nat, acc: nat)
    requires acc <= 64 && cycles < Pow2(64 - acc) && mul < Pow2(acc)
    ensures cycles * mul < WORD
  {
    Pow2Words();
    Pow2Add(64 - acc, acc);
    ProductFits(cycles, mul, Pow2(64 - acc), Pow2(acc));
  }

  /** The converted time differs from cycles * to / from by at most cycles / 2^(shift + 1) + 1:
      here with both sides multiplied by 2^(shift + 1) * from. */
  ghost predicate Accurate(from: nat, to: nat, shift: nat, cycles: nat, ns: nat) {
    var off := Pow2(shift) * (ns * from - cycles * to);
    -(cycles * from) - 2 * (Pow2(shift) * from) <= 2 * off <= cycles * from
  }

  lemma ConvertAccurate(from: nat, to: nat, mul: nat, shift: nat, cycles: nat)
    requires from > 0 && mul == Rounded(from, to, shift) && cycles * mul < WORD
    ensures Accurate(from, to, shift, cycles, Cyc2Ns(cycles, mul, shift))
  {
    ShrIsQuotient(cycles * mul, shift);
    RoundedNear(from, to, shift);
    var ns := Cyc2Ns(cycles, mul, shift);
    var p, r := Pow2(shift), cycles * mul - ns * Pow2(shift);
    assert (ns + 1) * p == ns * p + p;
    Expand(p, ns, from, cycles, to, mul, r);
    Bound(cycles, mul * from - to * p, from, r, p);
  }

  lemma Bound(cycles: nat, e: int, from: nat, r: nat, p: nat)
    requires -(from as int) <= 2 * e <= from && r <= p
    ensures -(cycles * from) - 2 * (p * from) <= 2 * (cycles * e - r * from) <= cycles * from
  {
    Scale(cycles, 2 * e, from);
    assert cycles * (2 * e) == 2 * (cycles * e);
    assert 0 <= r * from <= p * from;
  }

  lemma Scale(c: nat, e: int, b: int)
    requires -b <= e <= b
    ensures -(c * b) <= c * e <= c * b
  {
  }

  lemma Expand(p: nat, ns: nat, from: nat, cycles: nat, to: nat, mul: nat, r: nat)
    requires cycles * mul == ns * p + r
    ensures p * (ns * from - cycles * to) == cycles * (mul * from - to * p) - r * from
  {
    assert p * (ns * from - cycles * to) == (ns * p) * from - p * (cycles * to);
    assert cycles * (mul * from - to * p) == (cycles * mul) * from - cycles * (to * p);
    assert p * (cycles * to) == cycles * (to * p);
    assert (ns * p + r) * from == (ns * p) * from + r * from;
  }

  /** A rate converted to itself needs no rounding. */
  lemma RoundedSame(from: nat, shift: nat)
    requires from > 0
    ensures Rounded(from, from, shift) == Pow2(shift)
  {
    DivModUnique(from * Pow2(shift) + from / 2, from, Pow2(shift), from / 2);
  }

  /** Without the break the multiplier belongs to a shift of one but the shift is zero, and the
      conversion can be off by a factor of two. The input is from, to and maxsec all at their
      largest: there is no room for a multiplier, the call gives multiplier 2 and shift 0, and every
      count, which should convert to itself, is doubled. */
  lemma ZeroShiftDoubles(acc: nat, cycles: nat)
    requires Room((WORD32 - 1) * (WORD32 - 1), acc) && 0 < cycles < WORD32
    ensures var top := WORD32 - 1;
      && acc == 0 && Rounded(top, top, 1) == 2 == Wrap32(Rounded(top, top, 1)) && Rounded(top, top, 1) >= Pow2(acc)
      && Cyc2Ns(cycles, 2, 0) == 2 * cycles
      && !Accurate(top, top, 0, cycles, Cyc2Ns(cycles, 2, 0))
  {
    var top := WORD32 - 1;
    Pow2Words();
    assert Pow2(64) == 2 * Pow2(63);
    RoomUnique(top * top, acc, 0);
    RoundedSame(top, 1);
    assert (2 * cycles) * top - cycles * top == cycles * top;
    Grows(1, cycles, top, top);
  }

  // ---------------------------------------------------------------- registering a clock source

  lemma FirstMultiplier(freq: nat, to: nat)
    requires freq > 0
    ensures var r := Rounded(freq, to, 1); r * freq <= 2 * to + freq / 2 && r <= 2 * to + 1
  {
    var x := 2 * to + freq / 2;
    assert to * Pow2(1) + freq / 2 == x by { assert Pow2(1) == 2; }
    DivMod(x, freq);
    Grows(2 * to, 2 * to, 1, freq);
    assert (2 * to + 2) * freq == (2 * to) * freq + 2 * freq;
    QuotientBound(x, freq, 2 * to + 2);
  }

  lemma Grow3(r: nat, freq: nat, maxsec: nat, top: nat)
    requires r * freq <= top
    ensures r * (maxsec * freq) <= maxsec * top
  {
    assert r * (maxsec * freq) == maxsec * (r * freq);
  }

  /** With the parameters update_clocksource_freq passes, the search always ends by its break. */
  lemma SearchBreaks(freq: nat, to: nat, maxsec: nat, acc: nat)
    requires 0 < freq < WORD32 && to <= NSEC_PER_SEC && (maxsec <= 600_000 || maxsec * freq < WORD32)
    requires Room(maxsec * freq, acc)
    ensures Rounded(freq, to, 1) < Pow2(acc)
  {
    FirstMultiplier(freq, to);
    Pow2Words();
    if acc < 32 {
      Pow2Mono(32, 63 - acc);
      Grow3(Rounded(freq, to, 1), freq, maxsec, 2 * NSEC_PER_SEC + WORD32);
      Exceeds(Rounded(freq, to, 1), maxsec * freq, acc);
    }
  }

  lemma Exceeds(r: nat, x: nat, acc: nat)
    requires acc < 32 && Pow2(63 - acc) <= x && r * x < 0x8000_0000_0000_0000
    ensures r < Pow2(acc)
  {
    assert Pow2(acc) * Pow2(63 - acc) == 0x8000_0000_0000_0000 by {
      Pow2Add(acc, 63 - acc);
      Pow2Words();
      assert Pow2(64) == 2 * Pow2(63);
    }
    NotLess(r, x, Pow2(acc), Pow2(63 - acc));
  }

  lemma NotLess(r: nat, x: nat, a: nat, b: nat)
    requires b <= x && r * x < a * b
    ensures r < a
  {
    if r >= a { Grows(a, r, b, x); }
  }

  /** The seconds of counting that must not overflow: as many as the counter holds before it
      wraps, at least one, and at most 600 for a counter wider than 32 bits. */
  function KeptSeconds(mask: nat, scale: nat, freq: nat): nat
    requires scale > 0 && freq > 0
  {
    var sec := (mask - mask / 8) / scale / freq;
    if sec == 0 then 1 else if sec > 600 && mask > 0xffff_ffff then 600 else sec
  }

  lemma KeptSecondsFit(mask: nat, scale: nat, freq: nat)
    requires (scale == 1 || scale == 1000) && freq > 0
    ensures var sec := KeptSeconds(mask, scale, freq);
      sec * scale < WORD32 && (sec * scale <= 600_000 || (sec * scale) * freq < WORD32)
  {
    var sec, kept := KeptSeconds(mask, scale, freq), mask - mask / 8;
    if sec > 600 {
      HoldsUntilWrap(kept, scale, freq, sec);
    }
  }

  lemma HoldsUntilWrap(kept: nat, scale: nat, freq: nat, sec: nat)
    requires scale > 0 && freq > 0 && sec <= kept / scale / freq
    ensures sec * scale <= (sec * scale) * freq <= kept
  {
    var per := kept / scale;
    var q := per / freq;
    DivMod(per, freq);
    DivMod(kept, scale);
    Grows(sec, q, freq, freq);
    Grows(sec * freq, per, scale, scale);
    assert (sec * scale) * freq == (sec * freq) * scale;
    Grows(sec * scale, sec * scale, 1, freq);
  }

  /** The kept seconds take up at most seven eighths of the counter's range, unless one second
      already takes more, and one second more would not fit, unless they are the allowed 600. */
  lemma KeptSecondsFill(mask: nat, scale: nat, freq: nat)
    requires scale > 0 && freq > 0
    ensures var sec, kept := KeptSeconds(mask, scale, freq), mask - mask / 8;
      && sec > 0 && (sec == 1 || (sec * scale) * freq <= kept)
      && (kept < (sec + 1) * freq * scale || (sec == 600 && mask > 0xffff_ffff))
  {
    var sec, kept := KeptSeconds(mask, scale, freq), mask - mask / 8;
    if sec > 1 { HoldsUntilWrap(kept, scale, freq, sec); }
    WrapsBeyond(kept, scale, freq);
    if kept / scale / freq == 0 { Grows(freq, 2 * freq, scale, scale); }
  }

  lemma WrapsBeyond(kept: nat, scale: nat, freq: nat)
    requires scale > 0 && freq > 0
    ensures kept < (kept / scale / freq + 1) * freq * scale
  {
    var per := kept / scale;
    DivMod(per, freq);
    DivMod(kept, scale);
    var above := (per / freq + 1) * freq;
    assert above == per / freq * freq + freq;
    Grows(per + 1, above, scale, scale);
    assert (per + 1) * scale == per * scale + scale;
  }

  class Clocksource {
    const mask: nat
    var mul: nat
    var shift: nat

    constructor (mask: nat)
      ensures this.mask == mask
    {
      this.mask := mask;
      mul, shift := 0, 0;
    }

    /** update_clocksource_freq: every count up to maxsec * freq converts without overflow and
        with the stated accuracy, and no larger shift leaves a multiplier as small. */
    method UpdateFreq(scale: nat, freq: nat) returns (maxsec: nat, acc: nat)
      requires (scale == 1 || scale == 1000) && 0 < freq < WORD32
      modifies this
      ensures 0 < shift <= 32 && maxsec == KeptSeconds(mask, scale, freq) * scale
      ensures forall c: nat :: c <= maxsec * freq ==>
        c * mul < WORD && Accurate(freq, NSEC_PER_SEC / scale, shift, c, Cyc2Ns(c, mul, shift))
      ensures Room(maxsec * freq, acc) && Best(freq, NSEC_PER_SEC / scale, acc, mul, shift)
    {
      var sec := mask - mask / 8;
      sec := sec / scale;
      sec := sec / freq;
      if sec == 0 {
        sec := 1;
      } else if sec > 600 && mask > 0xffff_ffff {
        sec := 600;
      }
      KeptSecondsFit(mask, scale, freq);
      maxsec := Wrap32(sec * scale);
      mul, shift, acc := MulShift(freq, NSEC_PER_SEC / scale, maxsec);
      SearchBreaks(freq, NSEC_PER_SEC / scale, maxsec, acc);
      forall c: nat | c <= maxsec * freq
        ensures c * mul < WORD && Accurate(freq, NSEC_PER_SEC / scale, shift, c, Cyc2Ns(c, mul, shift))
      {
        NoOverflow(c, mul, acc);
        ConvertAccurate(freq, NSEC_PER_SEC / scale, mul, shift, c);
      }
    }
  }
}
