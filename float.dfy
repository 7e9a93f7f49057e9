/** The double-precision values the solvers compute with, seen as exact reals
    extended with the two infinities and NaN. Rounding is not modelled; the
    infinities and NaN follow IEEE 754 for addition, multiplication, division
    and the ordered comparisons. Signed zero is not modelled: a division by zero
    takes the sign of the dividend, and 0/0 is NaN. */
module Float {

  datatype Ext = Fin(v: real) | PosInf | NegInf | NaN

  predicate IsNan(x: Ext) {
    x.NaN?
  }

  /** An infinity of the given sign (s > 0 gives +inf). */
  function Inf(s: int): Ext {
    if s > 0 then PosInf else NegInf
  }

  /** -1, 0 or 1 for a non-NaN value. */
  function Sign(x: Ext): int
    requires !x.NaN?
  {
    match x
    case Fin(a) => if a > 0.0 then 1 else if a < 0.0 then -1 else 0
    case PosInf => 1
    case NegInf => -1
  }

  function Neg(x: Ext): Ext {
    match x
    case Fin(a) => Fin(-a)
    case PosInf => NegInf
    case NegInf => PosInf
    case NaN => NaN
  }

  function Abs(x: Ext): (r: Ext)
    ensures !r.NegInf?
    ensures r.Fin? ==> r.v >= 0.0
  {
    match x
    case Fin(a) => Fin(if a < 0.0 then -a else a)
    case NaN => NaN
    case _ => PosInf
  }

  /** x + y. */
  function Add(x: Ext, y: Ext): (r: Ext)
    ensures r.Fin? <==> x.Fin? && y.Fin?
    ensures r.PosInf? <==> (x.PosInf? && !y.NaN? && !y.NegInf?) || (y.PosInf? && !x.NaN? && !x.NegInf?)
  {
    match (x, y)
    case (Fin(a), Fin(b)) => Fin(a + b)
    case (NaN, _) => NaN
    case (_, NaN) => NaN
    case (PosInf, NegInf) => NaN
    case (NegInf, PosInf) => NaN
    case (PosInf, _) => PosInf
    case (_, PosInf) => PosInf
    case (NegInf, _) => NegInf
    case (_, NegInf) => NegInf
  }

  /** x - y. */
  function Sub(x: Ext, y: Ext): Ext {
    Add(x, Neg(y))
  }

  /** x * y; an infinity times zero is NaN. */
  function Mul(x: Ext, y: Ext): (r: Ext)
    ensures r.Fin? <==> x.Fin? && y.Fin?
  {
    if x.NaN? || y.NaN? then NaN
    else if x.Fin? && y.Fin? then Fin(x.v * y.v)
    else if Sign(x) * Sign(y) == 0 then NaN
    else Inf(Sign(x) * Sign(y))
  }

  /** x / y. */
  function Div(x: Ext, y: Ext): Ext {
    if x.NaN? || y.NaN? then NaN
    else if x.Fin? && y.Fin? then
      if y.v != 0.0 then Fin(x.v / y.v)
      else if x.v == 0.0 then NaN
      else Inf(Sign(x))
    else if x.Fin? then Fin(0.0)
    else if y.Fin? then Inf(Sign(x) * (if y.v < 0.0 then -1 else 1))
    else NaN
  }

  /** IEEE `<`: false whenever either side is NaN. */
  predicate Lt(x: Ext, y: Ext) {
    match (x, y)
    case (Fin(a), Fin(b)) => a < b
    case (NegInf, Fin(_)) => true
    case (NegInf, PosInf) => true
    case (Fin(_), PosInf) => true
    case _ => false
  }

  /** IEEE `<=`. */
  predicate Le(x: Ext, y: Ext) {
    Lt(x, y) || (x == y && !x.NaN?)
  }

  predicate Gt(x: Ext, y: Ext) {
    Lt(y, x)
  }

  predicate Ge(x: Ext, y: Ext) {
    Le(y, x)
  }

  /** `<` is a strict order: irreflexive, transitive, and exactly one of
      x < y, x == y, y < x holds for non-NaN values. */
  lemma LtIsStrictTotalOrder(x: Ext, y: Ext, z: Ext)
    ensures !Lt(x, x)
    ensures Lt(x, y) && Lt(y, z) ==> Lt(x, z)
    ensures !x.NaN? && !y.NaN? ==> (Lt(x, y) || x == y || Lt(y, x))
    ensures !(Lt(x, y) && Lt(y, x))
  {
  }

  /** Three +inf sentinel parameters give a +inf length for any positive radius. */
  lemma InfiniteSumIsInfinite(x: Ext, y: Ext, z: Ext, r: real)
    requires r > 0.0
    requires x == PosInf && y == PosInf && z == PosInf
    ensures Mul(Add(Add(x, y), z), Fin(r)) == PosInf
  {
  }
}

/** The libm functions the solvers call, left uninterpreted: a model is
    checked for every choice of them. `Lawful` states the only facts used. */
module MathLib {

  datatype Libm = Libm(
    sin: real -> real,
    cos: real -> real,
    atan: real -> real,
    atan2: (real, real) -> real,
    asin: real -> real,
    acos: real -> real,
    sqrt: real -> real)

  /** sqrt is non-negative, zero at zero and positive on positive arguments. */
  ghost predicate Lawful(m: Libm) {
    && m.sqrt(0.0) == 0.0
    && (forall x :: 0.0 <= m.sqrt(x))
    && (forall x :: 0.0 < x ==> 0.0 < m.sqrt(x))
  }

  function Max(x: real, y: real): (r: real)
    ensures r >= x && r >= y && (r == x || r == y)
  {
    if x >= y then x else y
  }

  function AbsR(x: real): (r: real)
    ensures r >= 0.0 && (r == x || r == -x)
  {
    if x < 0.0 then -x else x
  }

  /** A non-zero square is positive. */
  lemma SquarePositive(x: real)
    requires x != 0.0
    ensures x * x > 0.0
  {
    if x < 0.0 {
      assert x * x == (-x) * (-x);
    }
  }

  /** A sum of two squares is positive away from the origin and zero at it. */
  lemma SumOfSquares(dx: real, dy: real)
    ensures dx * dx + dy * dy > 0.0 || (dx == 0.0 && dy == 0.0)
    ensures dx == 0.0 && dy == 0.0 ==> dx * dx + dy * dy == 0.0
  {
    if dx != 0.0 {
      SquarePositive(dx);
      if dy != 0.0 {
        SquarePositive(dy);
      } else {
        assert dy * dy == 0.0;
      }
    } else if dy != 0.0 {
      SquarePositive(dy);
      assert dx * dx == 0.0;
    } else {
      assert dx * dx == 0.0 && dy * dy == 0.0;
    }
  }
}
