/** The fixed-point arithmetic of the RAPL power reading. */
module PowerArithmetic {
  import opened Common

  const TWO31: int := 0x8000_0000
  const TWO32: int := 0x1_0000_0000
  const TWO63: int := 0x8000_0000_0000_0000

  /** A 32-bit unsigned register value. */
  type Word = x: int | 0 <= x < 0x1_0000_0000

  function Pow2(k: nat): (r: int)
    ensures r >= 1
  {
    if k == 0 then 1 else 2 * Pow2(k - 1)
  }

  /** Unsigned 32-bit subtraction. */
  function Delta(prev: Word, now: Word): Word {
    (now - prev) % TWO32
  }

  /** Conversion of a 64-bit value to a 32-bit int, modulo 2^32. */
  function ToInt32(x: int): int {
    (x + TWO31) % TWO32 - TWO31
  }

  /** intel_peci_energy_delta_to_watts: millijoules, then milliwatts, then watts,
      each one a truncating division of a non-negative number. */
  function EnergyDeltaToWatts(prev: Word, now: Word, dtMs: int, eu: nat): Option<int> {
    if dtMs <= 0 then None
    else
      var energyMj := Delta(prev, now) * 1000 / Pow2(eu);
      var pMw := energyMj * 1000 / dtMs;
      Some(ToInt32(pMw / 1000))
  }

  // ---- division facts ----

  lemma MulMono(a: int, b: int, c: int)
    requires a <= b && c >= 0
    ensures a * c <= b * c
  {
  }

  lemma MulAssoc(a: int, b: int, c: int)
    ensures a * (b * c) == a * b * c == a * c * b
  {
  }

  lemma DivBounds(n: int, d: int)
    requires d > 0
    ensures n / d * d <= n < (n / d + 1) * d
  {
  }

  lemma DivUnique(n: int, d: int, q: int)
    requires d > 0 && q * d <= n < (q + 1) * d
    ensures n / d == q
  {
    DivBounds(n, d);
    if n / d < q {
      MulMono(n / d + 1, q, d);
    } else if n / d > q {
      MulMono(q + 1, n / d, d);
    }
  }

  lemma DivNonNegative(n: int, d: int)
    requires n >= 0 && d > 0
    ensures 0 <= n / d <= n
  {
    DivBounds(n, d);
    if n / d < 0 {
      MulMono(n / d + 1, 0, d);
    } else {
      MulMono(1, d, n / d);
    }
  }

  lemma DivDiv(n: int, b: int, c: int)
    requires b > 0 && c > 0
    ensures b * c > 0 && n / b / c == n / (b * c)
  {
    var q1 := n / b;
    var q := q1 / c;
    DivBounds(n, b);
    DivBounds(q1, c);
    MulMono(q * c, q1, b);
    MulMono(q1 + 1, (q + 1) * c, b);
    MulAssoc(q, b, c);
    MulAssoc(q + 1, b, c);
    MulMono(1, b, c);
    DivUnique(n, b * c, q);
  }

  lemma DivCancel(n: int, d: int, k: int)
    requires d > 0 && k > 0
    ensures d * k > 0 && n * k / (d * k) == n / d
  {
    var q := n / d;
    DivBounds(n, d);
    MulMono(q * d, n, k);
    MulMono(n + 1, (q + 1) * d, k);
    MulAssoc(q, d, k);
    MulAssoc(q + 1, d, k);
    MulMono(1, d, k);
    assert (n + 1) * k == n * k + k;
    DivUnique(n * k, d * k, q);
  }

  // ---- the power reading ----

  /** The three staged divisions lose nothing over one exact division. */
  lemma StagedIsExact(delta: int, dtMs: int, eu: nat)
    requires dtMs > 0
    ensures Pow2(eu) * dtMs > 0
    ensures delta * 1000 / Pow2(eu) * 1000 / dtMs / 1000 == 1000 * delta / (Pow2(eu) * dtMs)
  {
    var p := Pow2(eu);
    var a := delta * 1000 / p;
    DivDiv(a * 1000, dtMs, 1000);
    DivCancel(a, dtMs, 1000);
    DivDiv(delta * 1000, p, dtMs);
  }

  /** No intermediate leaves the 64-bit range. */
  lemma NoOverflow(prev: Word, now: Word, eu: nat)
    ensures 0 <= Delta(prev, now) * 1000 < TWO63
    ensures 0 <= Delta(prev, now) * 1000 / Pow2(eu) * 1000 < TWO63
  {
    DivNonNegative(Delta(prev, now) * 1000, Pow2(eu));
  }

  /** Across a counter wrap-around the difference is the true one. */
  lemma DeltaIsTrue(e0: nat, e1: nat)
    requires e0 <= e1 < e0 + TWO32
    ensures Delta(e0 % TWO32, e1 % TWO32) == e1 - e0
  {
    var a, b := e0 % TWO32, e1 % TWO32;
    assert (b - a) % TWO32 == (e1 - e0) % TWO32 by {
      var k := e1 / TWO32 - e0 / TWO32;
      assert b - a == (e1 - e0) - k * TWO32;
      ModShift(e1 - e0, k);
    }
  }

  lemma ModShift(x: int, k: int)
    ensures (x - k * TWO32) % TWO32 == x % TWO32
  {
    var q, r := x / TWO32, x % TWO32;
    assert x - k * TWO32 == (q - k) * TWO32 + r;
  }

  /** What the reading is: the exact quotient, as far as it fits in an int. */
  lemma ReadingIsExact(e0: nat, e1: nat, dtMs: int, eu: nat)
    requires e0 <= e1 < e0 + TWO32 && dtMs > 0
    ensures Pow2(eu) * dtMs > 0
    ensures var w := 1000 * (e1 - e0) / (Pow2(eu) * dtMs);
            && EnergyDeltaToWatts(e0 % TWO32, e1 % TWO32, dtMs, eu) == Some(ToInt32(w))
            && (ToInt32(w) == w <==> 1000 * (e1 - e0) < TWO31 * (Pow2(eu) * dtMs))
  {
    DeltaIsTrue(e0, e1);
    StagedIsExact(e1 - e0, dtMs, eu);
    var n, u := 1000 * (e1 - e0), Pow2(eu) * dtMs;
    DivNonNegative(n, u);
    QuotientBelow(n, u, TWO31);
    ToInt32Fits(n / u);
  }

  lemma QuotientBelow(n: int, u: int, bound: int)
    requires u > 0
    ensures n / u < bound <==> n < bound * u
  {
    DivBounds(n, u);
    if n / u < bound {
      MulMono(n / u + 1, bound, u);
    } else {
      MulMono(bound, n / u, u);
    }
  }

  lemma ToInt32Fits(x: int)
    requires 0 <= x
    ensures ToInt32(x) == x <==> x < TWO31
  {
  }

  /** The conversion never makes a non-negative number larger. */
  lemma ToInt32Below(x: int)
    requires 0 <= x
    ensures ToInt32(x) <= x
  {
  }

  /** The conversion keeps a number modulo 2^32 and brings it into the range of an
      int: this determines it. */
  lemma ToInt32IsCongruent(x: int)
    ensures -TWO31 <= ToInt32(x) < TWO31 && (x - ToInt32(x)) % TWO32 == 0
  {
    var q := (x + TWO31) / TWO32;
    assert x - ToInt32(x) == q * TWO32;
    ModShift(0, -q);
  }

  /** No power is computed unless the clock has moved on. */
  lemma NoPowerIff(prev: Word, now: Word, dtMs: int, eu: nat)
    ensures EnergyDeltaToWatts(prev, now, dtMs, eu) == None <==> dtMs <= 0
  {
  }

  /** The int conversion is harmless for every pair of counter values exactly
      when the interval is at least 2000 energy units times milliseconds long. */
  lemma AlwaysFitsIff(dtMs: int, eu: nat)
    requires dtMs > 0
    ensures (forall delta: Word :: 1000 * delta < TWO31 * (Pow2(eu) * dtMs)) <==> Pow2(eu) * dtMs >= 2000
  {
    var u := Pow2(eu) * dtMs;
    if u < 2000 {
      var delta: Word := TWO32 - 1;
      assert TWO31 * u <= TWO31 * 1999;
      assert 1000 * delta >= TWO31 * u;
    } else {
      assert TWO31 * u >= TWO31 * 2000;
    }
  }
}
