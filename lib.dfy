/** src/lib.rs: the constant pi, the angle normaliser `mod2pi` and the 3D state. */
module Lib {

  /** core::f64::consts::PI, as the exact real the double denotes to 16 digits. */
  const PI: real := 3.141592653589793
  const TWO_PI: real := 2.0 * PI

  /** A full 3D pose: position, yaw and pitch in radians. */
  datatype State = State(x: real, y: real, z: real, yaw: real, pitch: real)

  /** Rust's truncating conversion of a real to an integer (rounds toward zero). */
  function Trunc(x: real): (n: int)
    ensures 0.0 <= x ==> n as real <= x < n as real + 1.0
    ensures x < 0.0 ==> n as real - 1.0 < x <= n as real
  {
    if x >= 0.0 then x.Floor else -((-x).Floor)
  }

  /** `th % (2.0 * PI)` on f64: the remainder of truncated division, carrying
      the sign of th (2.0 * PI spelt out as a number). */
  function Rem2Pi(th: real): (r: real)
    ensures 0.0 <= th ==> 0.0 <= r < TWO_PI
    ensures th < 0.0 ==> -TWO_PI < r <= 0.0
  {
    th - (Trunc(th / 6.283185307179586) as real) * 6.283185307179586
  }

  /** The angle normaliser, written as the floored remainder of th by 2*pi
      (spelt out as the number 6.283185307179586 = 2.0 * PI):
      over the reals it equals the truncated remainder moved up by 2*pi when
      negative, which is how the source computes it (Mod2PiMatchesSource).
      The result lies in [0, 2*pi). */
  function Mod2Pi(th: real): (r: real)
    ensures 0.0 <= r < TWO_PI
  {
    th - ((th / 6.283185307179586).Floor as real) * 6.283185307179586
  }

  /** mod2pi as the source writes it: `th % (2*pi)`, plus 2*pi when that
      remainder is negative. */
  lemma Mod2PiMatchesSource(th: real)
    ensures Mod2Pi(th) == if Rem2Pi(th) < 0.0 then Rem2Pi(th) + TWO_PI else Rem2Pi(th)
  {
    var u := th / 6.283185307179586;
    assert th == u * 6.283185307179586;
    if u < 0.0 {
      var c := -((-u).Floor);
      assert Rem2Pi(th) == th - (c as real) * 6.283185307179586;
      if u < c as real {
        assert u.Floor == c - 1;
      } else {
        assert u.Floor == c;
      }
    }
  }

  /** k full turns, in radians. */
  function WholeTurns(k: int): real {
    (k as real) * 6.283185307179586
  }

  /** The number of whole turns Mod2Pi removes from th. */
  ghost function Winding(th: real): int {
    (th / 6.283185307179586).Floor
  }

  /** mod2pi(th) - th is an integer multiple of 2*pi. */
  lemma Mod2PiDiffersByWholeTurns(th: real)
    ensures exists k: int :: Mod2Pi(th) - th == WholeTurns(k)
  {
    assert Mod2Pi(th) == th - WholeTurns(Winding(th));
    var k := -Winding(th);
    assert Mod2Pi(th) - th == WholeTurns(k);
  }

  /** Adding whole turns does not change the normalised angle. */
  lemma {:induction false} Mod2PiPeriodic(th: real, k: int)
    ensures Mod2Pi(th + WholeTurns(k)) == Mod2Pi(th)
  {
    var th' := th + WholeTurns(k);
    assert Mod2Pi(th) == th - WholeTurns(Winding(th));
    assert Mod2Pi(th') == th' - WholeTurns(Winding(th'));
    var u := th / 6.283185307179586;
    var f := u.Floor;
    assert f as real <= u < f as real + 1.0;
    assert th' / 6.283185307179586 == u + k as real;
    assert (f + k) as real <= u + k as real < (f + k) as real + 1.0;
    assert (u + k as real).Floor == f + k;
  }

  /** Two angles a whole number of turns apart normalise to the same value. */
  lemma SameAngle(x: real, y: real, k: int)
    requires x == y + WholeTurns(k)
    ensures Mod2Pi(x) == Mod2Pi(y)
  {
    Mod2PiPeriodic(y, k);
  }

  /** An angle already in [0, 2*pi) is returned unchanged. */
  lemma Mod2PiFixesCanonical(th: real)
    requires 0.0 <= th < TWO_PI
    ensures Mod2Pi(th) == th
  {
    assert (th / 6.283185307179586).Floor == 0;
  }

  /** Normalising twice is normalising once. */
  lemma Mod2PiIdempotent(th: real)
    ensures Mod2Pi(Mod2Pi(th)) == Mod2Pi(th)
  {
    Mod2PiFixesCanonical(Mod2Pi(th));
  }

  /** Normalising a summand first does not change the normalised sum. */
  lemma Mod2PiOfSum(x: real, y: real)
    ensures Mod2Pi(Mod2Pi(x) + y) == Mod2Pi(x + y)
  {
    assert Mod2Pi(x) == x - WholeTurns(Winding(x));
    SameAngle(Mod2Pi(x) + y, x + y, -Winding(x));
  }

  /** Whole turns relate two headings whose normalisations agree. */
  lemma SameNormalisation(x: real, y: real)
    requires Mod2Pi(x) == Mod2Pi(y)
    ensures x == y + WholeTurns(Winding(x) - Winding(y))
  {
    assert Mod2Pi(x) == x - WholeTurns(Winding(x));
    assert Mod2Pi(y) == y - WholeTurns(Winding(y));
  }

  /** Normalising both summands does not change the normalised sum. */
  lemma Mod2PiAddsTurns(x: real, y: real)
    ensures Mod2Pi(Mod2Pi(x) + Mod2Pi(y)) == Mod2Pi(x + y)
  {
    assert Mod2Pi(x) == x - WholeTurns(Winding(x));
    assert Mod2Pi(y) == y - WholeTurns(Winding(y));
    SameAngle(Mod2Pi(x) + Mod2Pi(y), x + y, -Winding(x) - Winding(y));
  }

  /** Adding the same angle to two angles with equal normalisations keeps
      them equal. */
  lemma Mod2PiShift(x: real, y: real, c: real)
    requires Mod2Pi(x) == Mod2Pi(y)
    ensures Mod2Pi(x + c) == Mod2Pi(y + c)
  {
    SameNormalisation(x, y);
    SameAngle(x + c, y + c, Winding(x) - Winding(y));
  }

  /** Subtracting two angles with equal normalisations from the same angle
      keeps them equal. */
  lemma Mod2PiReflect(x: real, y: real, c: real)
    requires Mod2Pi(x) == Mod2Pi(y)
    ensures Mod2Pi(c - x) == Mod2Pi(c - y)
  {
    SameNormalisation(x, y);
    SameAngle(c - x, c - y, Winding(y) - Winding(x));
  }

  /** A normalised summand can be replaced by the angle it normalises. */
  lemma AddNormalised(x: real, y: real)
    ensures Mod2Pi(x + Mod2Pi(y)) == Mod2Pi(x + y)
  {
    assert Mod2Pi(y) == y - WholeTurns(Winding(y));
    SameAngle(x + Mod2Pi(y), x + y, -Winding(y));
  }

  /** Turning left onto the angle a and then right away from it by the
      normalised offsets reaches h0 + (a - h0) = a and then h1. */
  lemma LeftThenRight(h0: real, h1: real, a: real)
    ensures Mod2Pi(h0 + Mod2Pi(a - h0)) == Mod2Pi(a)
    ensures Mod2Pi(h0 + Mod2Pi(a - h0) - Mod2Pi(a - h1)) == Mod2Pi(h1)
  {
    calc {
      Mod2Pi(h0 + Mod2Pi(a - h0));
    == { AddNormalised(h0, a - h0); }
      Mod2Pi(h0 + (a - h0));
    == { assert h0 + (a - h0) == a; }
      Mod2Pi(a);
    }
    var x := h0 + Mod2Pi(a - h0);
    calc {
      Mod2Pi(x - Mod2Pi(a - h1));
    == { SubtractNormalised(x, a - h1); }
      Mod2Pi(x - (a - h1));
    == { assert x - (a - h1) == (h1 - a + h0) + Mod2Pi(a - h0); }
      Mod2Pi((h1 - a + h0) + Mod2Pi(a - h0));
    == { AddNormalised(h1 - a + h0, a - h0); }
      Mod2Pi((h1 - a + h0) + (a - h0));
    == { assert (h1 - a + h0) + (a - h0) == h1; }
      Mod2Pi(h1);
    }
  }

  /** Turning left onto the angle a and then left again onto h1. */
  lemma LeftThenLeft(h0: real, h1: real, a: real)
    ensures Mod2Pi(h0 + Mod2Pi(a - h0) + Mod2Pi(h1 - a)) == Mod2Pi(h1)
  {
    var x := h0 + Mod2Pi(a - h0);
    calc {
      Mod2Pi(x + Mod2Pi(h1 - a));
    == { AddNormalised(x, h1 - a); }
      Mod2Pi(x + (h1 - a));
    == { assert x + (h1 - a) == (h1 - a + h0) + Mod2Pi(a - h0); }
      Mod2Pi((h1 - a + h0) + Mod2Pi(a - h0));
    == { AddNormalised(h1 - a + h0, a - h0); }
      Mod2Pi((h1 - a + h0) + (a - h0));
    == { assert (h1 - a + h0) + (a - h0) == h1; }
      Mod2Pi(h1);
    }
  }

  /** Turning right onto the angle a and then right again onto h1. */
  lemma RightThenRight(h0: real, h1: real, a: real)
    ensures Mod2Pi(h0 - Mod2Pi(h0 - a) - Mod2Pi(a - h1)) == Mod2Pi(h1)
  {
    var x := h0 - Mod2Pi(h0 - a);
    calc {
      Mod2Pi(x - Mod2Pi(a - h1));
    == { SubtractNormalised(x, a - h1); }
      Mod2Pi(x - (a - h1));
    == { assert x - (a - h1) == (h1 - a + h0) - Mod2Pi(h0 - a); }
      Mod2Pi((h1 - a + h0) - Mod2Pi(h0 - a));
    == { SubtractNormalised(h1 - a + h0, h0 - a); }
      Mod2Pi((h1 - a + h0) - (h0 - a));
    == { assert (h1 - a + h0) - (h0 - a) == h1; }
      Mod2Pi(h1);
    }
  }

  /** Right by t, left by p, then right by the normalised remainder
      h0 - h1 - t + p reaches h1. */
  lemma RightLeftRight(h0: real, h1: real, t: real, p: real)
    ensures Mod2Pi(h0 - t + p - Mod2Pi(h0 - h1 - t + p)) == Mod2Pi(h1)
  {
    calc {
      Mod2Pi(h0 - t + p - Mod2Pi(h0 - h1 - t + p));
    == { SubtractNormalised(h0 - t + p, h0 - h1 - t + p); }
      Mod2Pi(h0 - t + p - (h0 - h1 - t + p));
    == { assert h0 - t + p - (h0 - h1 - t + p) == h1; }
      Mod2Pi(h1);
    }
  }

  /** Left by t, right by p, then left by the normalised remainder
      h1 - h0 - t + p reaches h1. */
  lemma LeftRightLeft(h0: real, h1: real, t: real, p: real)
    ensures Mod2Pi(h0 + t - p + Mod2Pi(h1 - h0 - t + p)) == Mod2Pi(h1)
  {
    calc {
      Mod2Pi(h0 + t - p + Mod2Pi(h1 - h0 - t + p));
    == { AddNormalised(h0 + t - p, h1 - h0 - t + p); }
      Mod2Pi(h0 + t - p + (h1 - h0 - t + p));
    == { assert h0 + t - p + (h1 - h0 - t + p) == h1; }
      Mod2Pi(h1);
    }
  }

  /** The mirror image: right onto a, then left onto h1. */
  lemma RightThenLeft(h0: real, h1: real, a: real)
    ensures Mod2Pi(h0 - Mod2Pi(h0 - a)) == Mod2Pi(a)
    ensures Mod2Pi(h0 - Mod2Pi(h0 - a) + Mod2Pi(h1 - a)) == Mod2Pi(h1)
  {
    calc {
      Mod2Pi(h0 - Mod2Pi(h0 - a));
    == { SubtractNormalised(h0, h0 - a); }
      Mod2Pi(h0 - (h0 - a));
    == { assert h0 - (h0 - a) == a; }
      Mod2Pi(a);
    }
    var x := h0 - Mod2Pi(h0 - a);
    calc {
      Mod2Pi(x + Mod2Pi(h1 - a));
    == { AddNormalised(x, h1 - a); }
      Mod2Pi(x + (h1 - a));
    == { assert x + (h1 - a) == (h1 - a + h0) - Mod2Pi(h0 - a); }
      Mod2Pi((h1 - a + h0) - Mod2Pi(h0 - a));
    == { SubtractNormalised(h1 - a + h0, h0 - a); }
      Mod2Pi((h1 - a + h0) - (h0 - a));
    == { assert (h1 - a + h0) - (h0 - a) == h1; }
      Mod2Pi(h1);
    }
  }

  /** A normalised subtrahend can be replaced by the angle it normalises. */
  lemma SubtractNormalised(x: real, y: real)
    ensures Mod2Pi(x - Mod2Pi(y)) == Mod2Pi(x - y)
  {
    assert Mod2Pi(y) == y - WholeTurns(Winding(y));
    SameAngle(x - Mod2Pi(y), x - y, Winding(y));
  }
}
