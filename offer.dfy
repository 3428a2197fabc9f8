/** The dealer offer: a pseudo-random undercut percentage drawn from the plate by
    `stableRand` (32-bit FNV-1a), kept inside the configured bounds by
    `clampPct`, and applied to the final price, rounded to the nearest 500. */
module Offer {
  import opened Js

  /* ---------- 32-bit integers as JavaScript sees them ---------- */

  /** The signed 32-bit integer the bits stand for: what `^` and `Math.imul`
      return. */
  function Signed(b: bv32): int
  {
    if b < 0x8000_0000 then b as int else b as int - 0x1_0000_0000
  }

  /** The unsigned 32-bit integer the bits stand for: what `h >>> 0` returns. */
  function Unsigned(b: bv32): int
  {
    b as int
  }

  /** `a / m` truncated toward zero, as `Math.trunc` would give it. */
  function TruncQuot(a: int, m: int): int
    requires m > 0
  {
    if a >= 0 then a / m else -((-a) / m)
  }

  /** JavaScript's `%`: the remainder takes the sign of the dividend; see
      `TruncDivision` for its value. */
  function TruncRem(a: int, m: int): (r: int)
    requires m > 0
    ensures a >= 0 ==> 0 <= r < m
    ensures a < 0 ==> -m < r <= 0
  {
    if a >= 0 then a % m else -((-a) % m)
  }

  /** The remainder is what is left of the dividend after taking away the
      divisor times the quotient truncated toward zero. */
  lemma TruncDivision(a: int, m: int)
    requires m > 0
    ensures a == m * TruncQuot(a, m) + TruncRem(a, m)
  {
    if a < 0 {
      var q := (-a) / m;
      assert -a == m * q + (-a) % m;
      assert m * -q == -(m * q);
    }
  }

  /* ---------- FNV-1a ---------- */

  /** The FNV offset basis 2166136261 and prime 16777619. */
  const FnvOffset: bv32 := 0x811C_9DC5
  const FnvPrime: bv32 := 0x0100_0193

  /** `h ^= u` on the bits of `h`. */
  function Xor(h: bv32, u: CodeUnit): bv32
  {
    h ^ (u as bv32)
  }

  /** `Math.imul`: the product modulo 2^32. */
  function Imul(a: bv32, b: bv32): bv32
  {
    a * b
  }

  /** One round of FNV-1a. */
  function FnvStep(h: bv32, u: CodeUnit): bv32
  {
    Imul(Xor(h, u), FnvPrime)
  }

  /** The hash bits after all the code units. */
  function Fnv(units: seq<CodeUnit>): bv32
  {
    if units == [] then FnvOffset
    else FnvStep(Fnv(units[..|units| - 1]), units[|units| - 1])
  }

  /** The number `h` holds after the loop: the unsigned offset basis when the
      loop never ran, else the signed result of the last `Math.imul`. */
  function HashValue(units: seq<CodeUnit>): (h: int)
    ensures units == [] ==> h == 2166136261
    ensures units != [] ==> h == Signed(Fnv(units))
  {
    if units == [] then FnvOffset as int else Signed(Fnv(units))
  }

  /** After at least one round, `h` is a signed 32-bit integer that differs
      from the hash bits read unsigned by 0 or 2^32. */
  lemma HashIsSigned(units: seq<CodeUnit>)
    requires units != []
    ensures -0x8000_0000 <= HashValue(units) < 0x8000_0000
    ensures HashValue(units) == Fnv(units) as int || HashValue(units) == Fnv(units) as int - 0x1_0000_0000
  {
  }

  /** `stableRand(seed)` as written: `(h % 10000) / 10000`. */
  function StableRandOf(seed: string): (t: real)
    ensures -1.0 < t < 1.0
  {
    TruncRem(HashValue(CodeUnits(seed)), 10000) as real / 10000.0
  }

  /** The loop of `stableRand`. `h` is kept as its 32 bits, which is all that
      `^` and `Math.imul` read of it; the number it stands for is taken at the
      end. */
  method StableRand(seed: string) returns (t: real)
    ensures t == StableRandOf(seed)
  {
    var units := CodeUnits(seed);
    var h: bv32 := FnvOffset;
    for i := 0 to |units|
      invariant h == Fnv(units[..i])
    {
      assert units[..i + 1][..i] == units[..i];
      h := Xor(h, units[i]);
      h := Imul(h, FnvPrime);
    }
    assert units[..|units|] == units;
    var n: int := if |units| == 0 then h as int else Signed(h);
    t := TruncRem(n, 10000) as real / 10000.0;
  }

  /** The numerator `h % 10000` stays below 10000 in absolute value, for every
      seed; for the empty seed it is 6261. */
  lemma NumeratorBound(seed: string)
    ensures -10000 < TruncRem(HashValue(CodeUnits(seed)), 10000) < 10000
    ensures seed == [] ==> TruncRem(HashValue(CodeUnits(seed)), 10000) == 6261
  {
  }

  /** The empty seed gives 0.6261. */
  lemma StableRandEmpty()
    ensures StableRandOf("") == 0.6261
  {
    assert TruncRem(HashValue(CodeUnits("")), 10000) == 6261;
  }

  /** A valid plate whose draw is negative: the signed hash of "AAA111" is
      -1529243621, so the draw is -0.3621, outside the "0..1" the code intends. */
  lemma NegativeDraw()
    ensures StableRandOf("AAA111") == -0.3621
  {
    var units := CodeUnits("AAA111");
    AAA111Units(units);
    assert Fnv(units) == 0xA4D9_981B by {
      var u := units;
      assert Fnv(u[..1]) == 0xC40B_F6CC by { assert u[..1][..0] == []; }
      assert Fnv(u[..2]) == 0x2BD5_1FF7 by { assert u[..2][..1] == u[..1]; }
      assert Fnv(u[..3]) == 0xB680_EB82 by { assert u[..3][..2] == u[..2]; }
      assert Fnv(u[..4]) == 0xFFF3_0AC9 by { assert u[..4][..3] == u[..3]; }
      assert Fnv(u[..5]) == 0xE39A_4468 by { assert u[..5][..4] == u[..4]; }
      assert u[..5] == u[..|u| - 1];
    }
    assert HashValue(units) == -1529243621;
  }

  lemma AAA111Units(units: seq<CodeUnit>)
    requires units == CodeUnits("AAA111")
    ensures units == [65, 65, 65, 49, 49, 49]
  {
    assert "AAA111"[1..] == "AA111";
    assert "AA111"[1..] == "A111";
    assert "A111"[1..] == "111";
    assert "111"[1..] == "11";
    assert "11"[1..] == "1";
  }

  /** `stableRand` as its comment intends it, with `h >>> 0`: the hash read
      unsigned, so the draw lies in [0, 1). */
  function StableRandUnsigned(seed: string): (t: real)
    ensures 0.0 <= t < 1.0
  {
    (Unsigned(Fnv(CodeUnits(seed))) % 10000) as real / 10000.0
  }

  /** The two readings agree whenever the hash bits have no sign bit set, and
      for the empty seed. */
  lemma ReadingsAgree(seed: string)
    requires seed == [] || Fnv(CodeUnits(seed)) < 0x8000_0000
    ensures StableRandUnsigned(seed) == StableRandOf(seed)
  {
  }

  /* ---------- the undercut bounds ---------- */

  /** `clampPct(n)`: a finite number clamped to [0, 0.95]; NaN and the
      infinities (None) give 0. */
  function ClampPct(n: Option<real>): (r: real)
    ensures 0.0 <= r <= 0.95
    ensures n.None? ==> r == 0.0
    ensures n.Some? && 0.0 <= n.value <= 0.95 ==> r == n.value
    ensures n.Some? && n.value < 0.0 ==> r == 0.0
    ensures n.Some? && n.value > 0.95 ==> r == 0.95
  {
    var x := if n.Some? then n.value else 0.0;
    if x < 0.0 then 0.0 else if x > 0.95 then 0.95 else x
  }

  function Min(a: real, b: real): real { if a <= b then a else b }
  function Max(a: real, b: real): real { if a <= b then b else a }

  /** `lo` and `hi` from the configured undercut minimum and maximum. */
  function Bounds(min: Option<real>, max: Option<real>): (r: (real, real))
    ensures 0.0 <= r.0 <= r.1 <= 0.95
    ensures {r.0, r.1} == {ClampPct(min), ClampPct(max)}
  {
    (Min(ClampPct(min), ClampPct(max)), Max(ClampPct(min), ClampPct(max)))
  }

  /** The order of the configured bounds does not matter. */
  lemma BoundsSymmetric(min: Option<real>, max: Option<real>)
    ensures Bounds(min, max) == Bounds(max, min)
  {
  }

  /** `pct = lo + (hi - lo) * t`: within the bounds for a draw in [0, 1];
      for a draw in [-1, 0) below `lo`, by at most the width of the bounds. */
  function Pct(lo: real, hi: real, t: real): (pct: real)
    requires lo <= hi
    ensures 0.0 <= t <= 1.0 ==> lo <= pct <= hi
    ensures t < 0.0 && lo < hi ==> pct < lo
    ensures -1.0 <= t <= 1.0 ==> lo - (hi - lo) <= pct <= hi
  {
    var d := hi - lo;
    assert 0.0 <= t <= 1.0 ==> 0.0 <= d * t <= d by {
      if 0.0 <= t <= 1.0 {
        assert d * t <= d * 1.0;
      }
    }
    assert -1.0 <= t < 0.0 ==> -d <= d * t <= 0.0 by {
      if -1.0 <= t < 0.0 {
        assert d * t >= d * -1.0;
      }
    }
    lo + d * t
  }

  /** With the default bounds 0.30 and 0.40, the plate AAA111 gets an undercut
      of 0.26379, below `offerMin`. */
  lemma PctBelowMin()
    ensures Bounds(Some(0.30), Some(0.40)) == (0.30, 0.40)
    ensures Pct(0.30, 0.40, StableRandOf("AAA111")) == 0.26379
  {
    NegativeDraw();
  }

  /* ---------- the dealer offer ---------- */

  /** `Math.round`: the nearest integer, halves rounded up. */
  function Round(x: real): (r: int)
    ensures x - 0.5 < r as real <= x + 0.5
  {
    (x + 0.5).Floor
  }

  /** `Math.max(0, Math.round(final * (1 - pct) / 500) * 500)`, or null when no
      final price is known. */
  function DealerOffer(final: Option<real>, pct: real): (r: Option<int>)
    ensures r.None? <==> final.None?
    ensures r.Some? ==> r.value >= 0 && r.value % 500 == 0
    ensures r.Some? && final.value * (1.0 - pct) >= 0.0 ==>
      final.value * (1.0 - pct) - 250.0 < r.value as real <= final.value * (1.0 - pct) + 250.0
    ensures r.Some? && final.value * (1.0 - pct) < 0.0 ==> r.value == 0
  {
    match final
    case None => None
    case Some(f) =>
      var n := Round(f * (1.0 - pct) / 500.0) * 500;
      Some(if n < 0 then 0 else n)
  }

  /** Rounding to the nearest 500 can overshoot the final price itself: a final
      price of 400 with a 30% undercut gives an offer of 500. */
  lemma OfferAboveFinal()
    ensures DealerOffer(Some(400.0), 0.3) == Some(500)
  {
    assert Round(400.0 * (1.0 - 0.3) / 500.0) == 1;
  }
}
