/**
 * The flicker rule of `run_task`: the fill colour of the stimulus square
 * on one frame, as a function of the phase clock reading and the phase's
 * optional flicker frequency.
 */
module Flicker {
  import opened Wrappers

  /** The two fill colours the stimulus square takes. */
  datatype Colour = White | Black

  /**
   * Python's `%` on floats: floored division, so the remainder takes the
   * sign of the divisor. Computed exactly over the reals.
   */
  function PyMod(t: real, p: real): (r: real)
    requires p != 0.0
    ensures p > 0.0 ==> 0.0 <= r < p
    ensures p < 0.0 ==> p < r <= 0.0
  {
    FlooredRemainderRange(t, p);
    t - (t / p).Floor as real * p
  }

  /** The floored remainder lies between 0 and `p`, on `p`'s side. */
  lemma {:induction false} FlooredRemainderRange(t: real, p: real)
    requires p != 0.0
    ensures var r := t - (t / p).Floor as real * p;
      (p > 0.0 ==> 0.0 <= r < p) && (p < 0.0 ==> p < r <= 0.0)
  {
    var q := t / p;
    var k := q.Floor as real;
    var x := q - k;
    assert t == q * p;
    assert t - k * p == x * p;
    ScaledFraction(x, p);
    var r := t - (t / p).Floor as real * p;
    assert r == x * p;
  }

  /** A fraction `x` in `[0, 1)` of `p` lies between 0 and `p`, on `p`'s side. */
  lemma {:induction false} ScaledFraction(x: real, p: real)
    requires 0.0 <= x < 1.0 && p != 0.0
    ensures p > 0.0 ==> 0.0 <= x * p < p
    ensures p < 0.0 ==> p < x * p <= 0.0
  {
    if p > 0.0 {
      MulNonneg(x, p);
      MulPos(1.0 - x, p);
      assert (1.0 - x) * p == p - x * p;
    } else {
      MulNonneg(x, -p);
      MulPos(1.0 - x, -p);
      assert x * (-p) == -(x * p);
      assert (1.0 - x) * (-p) == x * p - p;
    }
  }

  lemma {:induction false} MulNonneg(a: real, b: real)
    requires a >= 0.0 && b >= 0.0
    ensures a * b >= 0.0
  {
  }

  lemma {:induction false} MulPos(a: real, b: real)
    requires a > 0.0 && b > 0.0
    ensures a * b > 0.0
  {
  }

  /** Python truthiness of `flicker_freq`: `None` and `0` are false. */
  predicate IsTruthy(freq: Option<real>)
  {
    freq.Some? && freq.value != 0.0
  }

  /**
   * The colour `stim.fillColor` is set to on a frame drawn at phase time `t`:
   * with a truthy frequency `f`, white for the first half of each period
   * `1/f` and black for the second; with no frequency, always black.
   */
  function FillColour(t: real, freq: Option<real>): (c: Colour)
    ensures !IsTruthy(freq) ==> c == Black
  {
    if IsTruthy(freq) then
      var period := 1.0 / freq.value;
      var halfPeriod := period / 2.0;
      if PyMod(t, period) < halfPeriod then White else Black
    else
      Black
  }

  /** Writing `t` as whole periods plus a remainder in `[0, p)` fixes `t % p`. */
  lemma {:induction false} PyModOfDecomposition(t: real, p: real, n: int, r: real)
    requires p > 0.0 && 0.0 <= r < p
    requires t == n as real * p + r
    ensures PyMod(t, p) == r
  {
    var q := t / p;
    var x := r / p;
    assert x * p == r;
    if x >= 1.0 { MulNonneg(x - 1.0, p); }
    if x < 0.0 { MulNonneg(-x, p); }
    assert q == n as real + x;
    assert q.Floor == n;
  }

  /** Every reading splits into whole periods plus the remainder `t % p`. */
  lemma {:induction false} PyModSplit(t: real, p: real) returns (n: int)
    requires p > 0.0
    ensures t == n as real * p + PyMod(t, p)
  {
    n := (t / p).Floor;
    assert t == (t / p) * p;
  }

  /** A flickering phase is white at the instant its clock is reset. */
  lemma {:induction false} FlickerStartsWhite(f: real)
    requires f > 0.0
    ensures FillColour(0.0, Some(f)) == White
  {
    PyModOfDecomposition(0.0, 1.0 / f, 0, 0.0);
  }

  /**
   * Within the first period, the square is white exactly during the first
   * half period `1/(2f)`.
   */
  lemma {:induction false} FlickerFirstPeriod(t: real, f: real)
    requires f > 0.0 && 0.0 <= t < 1.0 / f
    ensures FillColour(t, Some(f)) == White <==> t < 1.0 / (2.0 * f)
  {
    PyModOfDecomposition(t, 1.0 / f, 0, t);
    assert (1.0 / f) / 2.0 == 1.0 / (2.0 * f);
  }

  /** The colour repeats after any whole number of periods `1/f`. */
  lemma {:induction false} FlickerPeriodic(t: real, f: real, n: int)
    requires f > 0.0
    ensures FillColour(t + n as real * (1.0 / f), Some(f)) == FillColour(t, Some(f))
  {
    var p := 1.0 / f;
    var m := PyModSplit(t, p);
    assert t + n as real * p == (m + n) as real * p + PyMod(t, p);
    var later := t + n as real * p;
    PyModOfDecomposition(later, p, m + n, PyMod(t, p));
    assert IsTruthy(Some(f));
    assert FillColour(later, Some(f)) == if PyMod(later, p) < p / 2.0 then White else Black;
    assert FillColour(t, Some(f)) == if PyMod(t, p) < p / 2.0 then White else Black;
    assert later == t + n as real * (1.0 / f);
  }

  /**
   * Half a period later the colour is the other one: a square wave with
   * equal white and black halves.
   */
  lemma {:induction false} FlickerHalfPeriodFlips(t: real, f: real)
    requires f > 0.0
    ensures FillColour(t + (1.0 / f) / 2.0, Some(f)) != FillColour(t, Some(f))
  {
    var p := 1.0 / f;
    var h := p / 2.0;
    var r := PyMod(t, p);
    var m := PyModSplit(t, p);
    if r < h {
      assert t + h == m as real * p + (r + h);
      PyModOfDecomposition(t + h, p, m, r + h);
    } else {
      assert t + h == (m + 1) as real * p + (r - h);
      PyModOfDecomposition(t + h, p, m + 1, r - h);
    }
  }
}
