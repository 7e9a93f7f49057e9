/** src/dubins2d.rs: the planar solver. Six closed-form families mark
    infeasibility with +inf, a full circle replaces them when start and goal
    coincide, the candidates are sorted NaN-last, and the shortest one (or the
    first one reaching a length floor) is chosen. Also the segment dispatcher
    used to sample a chosen path. */
module Dubins2D {
  import opened Float
  import opened MathLib
  import opened Lib
  import opened Paths

  /** The problem rotated so that the chord qi->qf lies along the x axis:
      chord length in radii and the two headings relative to the chord. */
  datatype Frame = Frame(d: real, a: real, b: real)

  function Rotation(m: Libm, qi: Pose, qf: Pose): real {
    Mod2Pi(m.atan2(qf.y - qi.y, qf.x - qi.x))
  }

  function NormalizedFrame(m: Libm, qi: Pose, qf: Pose, rhomin: real): (f: Frame)
    requires rhomin > 0.0 && Lawful(m)
    ensures f.d >= 0.0
    ensures 0.0 <= f.a < TWO_PI && 0.0 <= f.b < TWO_PI
  {
    var dx := qf.x - qi.x;
    var dy := qf.y - qi.y;
    var root := m.sqrt(dx * dx + dy * dy);
    var d := root / rhomin;
    assert d >= 0.0 by {
      assert root >= 0.0;
    }
    var rotation := Rotation(m, qi, qf);
    Frame(d, Mod2Pi(qi.heading - rotation), Mod2Pi(qf.heading - rotation))
  }

  // ---------------------------------------------------------------------
  // The six families. sa, ca, sb, cb are sin a, cos a, sin b, cos b.

  /** Left-straight-left: always feasible. */
  function Lsl(m: Libm, rhomin: real, a: real, b: real, d: real, sa: real, ca: real, sb: real, cb: real): (r: DubinsStruct)
    requires Lawful(m)
    ensures r.kind == LSL && Feasible(r) && WellFormed(r, rhomin)
  {
    var aux := m.atan2(cb - ca, d + sa - sb);
    var t := Mod2Pi(-a + aux);
    var p := m.sqrt(2.0 + d * d - 2.0 * m.cos(a - b) + 2.0 * d * (sa - sb));
    var q := Mod2Pi(b - aux);
    Family(Fin(t), Fin(p), Fin(q), rhomin, LSL)
  }

  /** Right-straight-right: always feasible. */
  function Rsr(m: Libm, rhomin: real, a: real, b: real, d: real, sa: real, ca: real, sb: real, cb: real): (r: DubinsStruct)
    requires Lawful(m)
    ensures r.kind == RSR && Feasible(r) && WellFormed(r, rhomin)
  {
    var aux := m.atan2(ca - cb, d - sa + sb);
    var t := Mod2Pi(a - aux);
    var p := m.sqrt(2.0 + d * d - 2.0 * m.cos(a - b) + 2.0 * d * (sb - sa));
    var q := Mod2Pi(Mod2Pi(-b) + aux);
    Family(Fin(t), Fin(p), Fin(q), rhomin, RSR)
  }

  function LsrDiscriminant(m: Libm, a: real, b: real, d: real, sa: real, sb: real): real {
    -2.0 + d * d + 2.0 * m.cos(a - b) + 2.0 * d * (sa + sb)
  }

  /** Left-straight-right: the sentinel exactly when the discriminant is not
      positive; otherwise p is its square root. */
  function Lsr(m: Libm, rhomin: real, a: real, b: real, d: real, sa: real, ca: real, sb: real, cb: real): (r: DubinsStruct)
    requires Lawful(m)
    ensures r.kind == LSR && WellFormed(r, rhomin)
    ensures AllInfinite(r) <==> LsrDiscriminant(m, a, b, d, sa, sb) <= 0.0
    ensures !AllInfinite(r) ==> Feasible(r) && r.p == Fin(m.sqrt(LsrDiscriminant(m, a, b, d, sa, sb))) && r.p.v > 0.0
    ensures !AllInfinite(r) ==> r.t.v < TWO_PI && r.q.v < TWO_PI
  {
    var aux1 := LsrDiscriminant(m, a, b, d, sa, sb);
    if aux1 > 0.0 then
      var p := m.sqrt(aux1);
      var aux2 := m.atan2(-ca - cb, d + sa + sb) - m.atan(-2.0 / p);
      var t := Mod2Pi(-a + aux2);
      var q := Mod2Pi(-Mod2Pi(b) + aux2);
      Family(Fin(t), Fin(p), Fin(q), rhomin, LSR)
    else
      Family(PosInf, PosInf, PosInf, rhomin, LSR)
  }

  function RslDiscriminant(m: Libm, a: real, b: real, d: real, sa: real, sb: real): real {
    d * d - 2.0 + 2.0 * m.cos(a - b) - 2.0 * d * (sa + sb)
  }

  /** Right-straight-left: the sentinel exactly when the discriminant is not
      positive; otherwise p is its square root. */
  function Rsl(m: Libm, rhomin: real, a: real, b: real, d: real, sa: real, ca: real, sb: real, cb: real): (r: DubinsStruct)
    requires Lawful(m)
    ensures r.kind == RSL && WellFormed(r, rhomin)
    ensures AllInfinite(r) <==> RslDiscriminant(m, a, b, d, sa, sb) <= 0.0
    ensures !AllInfinite(r) ==> Feasible(r) && r.p == Fin(m.sqrt(RslDiscriminant(m, a, b, d, sa, sb))) && r.p.v > 0.0
    ensures !AllInfinite(r) ==> r.t.v < TWO_PI && r.q.v < TWO_PI
  {
    var aux1 := RslDiscriminant(m, a, b, d, sa, sb);
    if aux1 > 0.0 then
      var p := m.sqrt(aux1);
      var aux2 := m.atan2(ca + cb, d - sa - sb) - m.atan(2.0 / p);
      var t := Mod2Pi(a - aux2);
      var q := Mod2Pi(Mod2Pi(b) - aux2);
      Family(Fin(t), Fin(p), Fin(q), rhomin, RSL)
    else
      Family(PosInf, PosInf, PosInf, rhomin, RSL)
  }

  function RlrCosine(m: Libm, a: real, b: real, d: real, sa: real, sb: real): real {
    (6.0 - d * d + 2.0 * m.cos(a - b) + 2.0 * d * (sa - sb)) / 8.0
  }

  /** Right-left-right: the sentinel exactly when |aux| > 1; otherwise t, p, q
      are normalised angles in [0, 2*pi). */
  function Rlr(m: Libm, rhomin: real, a: real, b: real, d: real, sa: real, ca: real, sb: real, cb: real): (r: DubinsStruct)
    requires Lawful(m)
    ensures r.kind == RLR && WellFormed(r, rhomin)
    ensures AllInfinite(r) <==> AbsR(RlrCosine(m, a, b, d, sa, sb)) > 1.0
    ensures !AllInfinite(r) ==> Feasible(r) && r.t.v < TWO_PI && r.p.v < TWO_PI && r.q.v < TWO_PI
  {
    var aux := RlrCosine(m, a, b, d, sa, sb);
    if AbsR(aux) <= 1.0 then
      var p := Mod2Pi(-m.acos(aux));
      var t := Mod2Pi(a - m.atan2(ca - cb, d - sa + sb) + p / 2.0);
      var q := Mod2Pi(a - b - t + p);
      Family(Fin(t), Fin(p), Fin(q), rhomin, RLR)
    else
      Family(PosInf, PosInf, PosInf, rhomin, RLR)
  }

  function LrlCosine(m: Libm, a: real, b: real, d: real, sa: real, sb: real): real {
    (6.0 - d * d + 2.0 * m.cos(a - b) + 2.0 * d * (-sa + sb)) / 8.0
  }

  /** Left-right-left: the sentinel exactly when |aux| > 1; otherwise t, p, q
      are normalised angles in [0, 2*pi). */
  function Lrl(m: Libm, rhomin: real, a: real, b: real, d: real, sa: real, ca: real, sb: real, cb: real): (r: DubinsStruct)
    requires Lawful(m)
    ensures r.kind == LRL && WellFormed(r, rhomin)
    ensures AllInfinite(r) <==> AbsR(LrlCosine(m, a, b, d, sa, sb)) > 1.0
    ensures !AllInfinite(r) ==> Feasible(r) && r.t.v < TWO_PI && r.p.v < TWO_PI && r.q.v < TWO_PI
  {
    var aux := LrlCosine(m, a, b, d, sa, sb);
    if AbsR(aux) <= 1.0 then
      var p := Mod2Pi(-m.acos(aux));
      var t := Mod2Pi(-a + m.atan2(-ca + cb, d + sa - sb) + p / 2.0);
      var q := Mod2Pi(b - a - t + p);
      Family(Fin(t), Fin(p), Fin(q), rhomin, LRL)
    else
      Family(PosInf, PosInf, PosInf, rhomin, LRL)
  }

  /** The full circle used when start and goal coincide. */
  function C(rhomin: real): (r: DubinsStruct)
    ensures r.kind == RRR && WellFormed(r, rhomin) && Feasible(r)
    ensures r.length == Fin(TWO_PI * rhomin)
  {
    Family(Fin(0.0), Fin(TWO_PI), Fin(0.0), rhomin, RRR)
  }

  // ---------------------------------------------------------------------
  // Every feasible family ends at the goal heading b, up to whole turns.

  lemma LslTurnsToGoal(m: Libm, rhomin: real, a: real, b: real, d: real, sa: real, ca: real, sb: real, cb: real)
    requires Lawful(m)
    ensures TurnsTo(Lsl(m, rhomin, a, b, d, sa, ca, sb, cb), a, b)
  {
    var aux := m.atan2(cb - ca, d + sa - sb);
    var r := Lsl(m, rhomin, a, b, d, sa, ca, sb, cb);
    assert -a + aux == aux - a;
    LeftThenLeft(a, b, aux);
    assert EndHeading(r, a) == a + Mod2Pi(aux - a) + Mod2Pi(b - aux);
  }

  lemma RsrTurnsToGoal(m: Libm, rhomin: real, a: real, b: real, d: real, sa: real, ca: real, sb: real, cb: real)
    requires Lawful(m)
    ensures TurnsTo(Rsr(m, rhomin, a, b, d, sa, ca, sb, cb), a, b)
  {
    var aux := m.atan2(ca - cb, d - sa + sb);
    var r := Rsr(m, rhomin, a, b, d, sa, ca, sb, cb);
    Mod2PiOfSum(-b, aux);
    assert -b + aux == aux - b;
    RightThenRight(a, b, aux);
    assert EndHeading(r, a) == a - Mod2Pi(a - aux) - Mod2Pi(aux - b);
  }

  lemma LsrTurnsToGoal(m: Libm, rhomin: real, a: real, b: real, d: real, sa: real, ca: real, sb: real, cb: real)
    requires Lawful(m)
    ensures TurnsTo(Lsr(m, rhomin, a, b, d, sa, ca, sb, cb), a, b)
  {
    var r := Lsr(m, rhomin, a, b, d, sa, ca, sb, cb);
    var aux1 := LsrDiscriminant(m, a, b, d, sa, sb);
    if aux1 > 0.0 {
      var p := m.sqrt(aux1);
      var aux2 := m.atan2(-ca - cb, d + sa + sb) - m.atan(-2.0 / p);
      assert -a + aux2 == aux2 - a && -Mod2Pi(b) + aux2 == aux2 - Mod2Pi(b);
      LeftThenRight(a, Mod2Pi(b), aux2);
      Mod2PiIdempotent(b);
      assert EndHeading(r, a) == a + Mod2Pi(aux2 - a) - Mod2Pi(aux2 - Mod2Pi(b));
    }
  }

  lemma RslTurnsToGoal(m: Libm, rhomin: real, a: real, b: real, d: real, sa: real, ca: real, sb: real, cb: real)
    requires Lawful(m)
    ensures TurnsTo(Rsl(m, rhomin, a, b, d, sa, ca, sb, cb), a, b)
  {
    var r := Rsl(m, rhomin, a, b, d, sa, ca, sb, cb);
    var aux1 := RslDiscriminant(m, a, b, d, sa, sb);
    if aux1 > 0.0 {
      var p := m.sqrt(aux1);
      var aux2 := m.atan2(ca + cb, d - sa - sb) - m.atan(2.0 / p);
      RightThenLeft(a, Mod2Pi(b), aux2);
      Mod2PiIdempotent(b);
      assert EndHeading(r, a) == a - Mod2Pi(a - aux2) + Mod2Pi(Mod2Pi(b) - aux2);
    }
  }

  /** Any RLR path whose last turn is the normalised remainder a - b - t + p
      turns a into b. */
  lemma RlrShapeTurns(r: DubinsStruct, a: real, b: real)
    requires r.kind == RLR
    requires Feasible(r) ==> r.q.v == Mod2Pi(a - b - r.t.v + r.p.v)
    ensures TurnsTo(r, a, b)
  {
    if Feasible(r) {
      RightLeftRight(a, b, r.t.v, r.p.v);
    }
  }

  /** Any LRL path whose last turn is the normalised remainder b - a - t + p
      turns a into b. */
  lemma LrlShapeTurns(r: DubinsStruct, a: real, b: real)
    requires r.kind == LRL
    requires Feasible(r) ==> r.q.v == Mod2Pi(b - a - r.t.v + r.p.v)
    ensures TurnsTo(r, a, b)
  {
    if Feasible(r) {
      LeftRightLeft(a, b, r.t.v, r.p.v);
    }
  }

  lemma RlrTurnsToGoal(m: Libm, rhomin: real, a: real, b: real, d: real, sa: real, ca: real, sb: real, cb: real)
    requires Lawful(m)
    ensures TurnsTo(Rlr(m, rhomin, a, b, d, sa, ca, sb, cb), a, b)
  {
    var r := Rlr(m, rhomin, a, b, d, sa, ca, sb, cb);
    var aux := RlrCosine(m, a, b, d, sa, sb);
    if AbsR(aux) <= 1.0 {
      var p := Mod2Pi(-m.acos(aux));
      var t := Mod2Pi(a - m.atan2(ca - cb, d - sa + sb) + p / 2.0);
      assert r.t == Fin(t) && r.p == Fin(p) && r.q == Fin(Mod2Pi(a - b - t + p));
    }
    RlrShapeTurns(r, a, b);
  }

  lemma LrlTurnsToGoal(m: Libm, rhomin: real, a: real, b: real, d: real, sa: real, ca: real, sb: real, cb: real)
    requires Lawful(m)
    ensures TurnsTo(Lrl(m, rhomin, a, b, d, sa, ca, sb, cb), a, b)
  {
    var r := Lrl(m, rhomin, a, b, d, sa, ca, sb, cb);
    var aux := LrlCosine(m, a, b, d, sa, sb);
    if AbsR(aux) <= 1.0 {
      var p := Mod2Pi(-m.acos(aux));
      var t := Mod2Pi(-a + m.atan2(-ca + cb, d + sa - sb) + p / 2.0);
      assert r.t == Fin(t) && r.p == Fin(p) && r.q == Fin(Mod2Pi(b - a - t + p));
    }
    LrlShapeTurns(r, a, b);
  }

  /** The full circle turns once and comes back to its start heading. */
  lemma CircleReturnsToStartHeading(rhomin: real, h: real)
    ensures TurnsTo(C(rhomin), h, h)
  {
    SameAngle(EndHeading(C(rhomin), h), h, -1);
  }

  // ---------------------------------------------------------------------
  // Candidate list and selection.

  /** Start and goal coincide: d, a, b and the max-norm distance are all below
      rhomin * 1e-5. Then both coordinates differ by less than that. */
  predicate Coincident(qi: Pose, qf: Pose, rhomin: real, f: Frame)
    ensures Coincident(qi, qf, rhomin, f) ==>
      && -rhomin * 0.00001 < qi.x - qf.x < rhomin * 0.00001
      && -rhomin * 0.00001 < qi.y - qf.y < rhomin * 0.00001
      && -rhomin * 0.00001 < f.d < rhomin * 0.00001
  {
    var thresh := rhomin * 0.00001;
    && AbsR(f.d) < thresh && AbsR(f.a) < thresh && AbsR(f.b) < thresh
    && Max(AbsR(qi.x - qf.x), AbsR(qi.y - qf.y)) < thresh
  }

  /** All three segments of the case are Left, Straight or Right. */
  predicate RealSegments(kind: ManeuverCase) {
    kind.a != NoSegment && kind.b != NoSegment && kind.c != NoSegment
  }

  function Kinds(s: seq<DubinsStruct>): seq<ManeuverCase> {
    seq(|s|, i requires 0 <= i < |s| => s[i].kind)
  }

  /** The family results in push order: the CSC four, then the CCC pair
      unless disabled. */
  function PushOrder(lsl: DubinsStruct, rsr: DubinsStruct, lsr: DubinsStruct, rsl: DubinsStruct,
                     rlr: DubinsStruct, lrl: DubinsStruct, rhomin: real, disableCcc: bool): (r: seq<DubinsStruct>)
    requires lsl.kind == LSL && rsr.kind == RSR && lsr.kind == LSR && rsl.kind == RSL
    requires rlr.kind == RLR && lrl.kind == LRL && Feasible(lsl)
    requires WellFormed(lsl, rhomin) && WellFormed(rsr, rhomin) && WellFormed(lsr, rhomin)
    requires WellFormed(rsl, rhomin) && WellFormed(rlr, rhomin) && WellFormed(lrl, rhomin)
    ensures Kinds(r) == if disableCcc then [LSL, RSR, LSR, RSL] else [LSL, RSR, LSR, RSL, RLR, LRL]
    ensures forall i :: 0 <= i < |r| ==> WellFormed(r[i], rhomin) && RealSegments(r[i].kind)
    ensures Feasible(r[0])
  {
    if disableCcc then [lsl, rsr, lsr, rsl]
    else [lsl, rsr, lsr, rsl, rlr, lrl]
  }

  /** The families in the normalised frame f, in the order they are pushed:
      LSL, RSR, LSR, RSL, then RLR, LRL unless CCC is disabled. Every one is
      well formed and the first (LSL) is feasible. */
  function Families(m: Libm, rhomin: real, f: Frame, disableCcc: bool): (r: seq<DubinsStruct>)
    requires Lawful(m)
    ensures Kinds(r) == if disableCcc then [LSL, RSR, LSR, RSL] else [LSL, RSR, LSR, RSL, RLR, LRL]
    ensures forall i :: 0 <= i < |r| ==> WellFormed(r[i], rhomin) && RealSegments(r[i].kind)
    ensures Feasible(r[0])
  {
    var sa, ca, sb, cb := m.sin(f.a), m.cos(f.a), m.sin(f.b), m.cos(f.b);
    PushOrder(Lsl(m, rhomin, f.a, f.b, f.d, sa, ca, sb, cb),
              Rsr(m, rhomin, f.a, f.b, f.d, sa, ca, sb, cb),
              Lsr(m, rhomin, f.a, f.b, f.d, sa, ca, sb, cb),
              Rsl(m, rhomin, f.a, f.b, f.d, sa, ca, sb, cb),
              Rlr(m, rhomin, f.a, f.b, f.d, sa, ca, sb, cb),
              Lrl(m, rhomin, f.a, f.b, f.d, sa, ca, sb, cb),
              rhomin, disableCcc)
  }

  /** The candidate list before sorting: the families, or the full circle
      alone when start and goal coincide. */
  function Candidates(m: Libm, qi: Pose, qf: Pose, rhomin: real, disableCcc: bool): (r: seq<DubinsStruct>)
    requires rhomin > 0.0 && Lawful(m)
    ensures |r| == if Coincident(qi, qf, rhomin, NormalizedFrame(m, qi, qf, rhomin)) then 1 else if disableCcc then 4 else 6
  {
    var f := NormalizedFrame(m, qi, qf, rhomin);
    if Coincident(qi, qf, rhomin, f) then [C(rhomin)] else Families(m, rhomin, f, disableCcc)
  }

  /** The candidates are the four CSC families in the order LSL, RSR, LSR, RSL,
      followed by RLR, LRL unless CCC is disabled; coincident poses replace
      them all by the single full circle. Every candidate is well formed. */
  lemma CandidatesShape(m: Libm, qi: Pose, qf: Pose, rhomin: real, disableCcc: bool)
    requires rhomin > 0.0 && Lawful(m)
    ensures var cands := Candidates(m, qi, qf, rhomin, disableCcc);
      var f := NormalizedFrame(m, qi, qf, rhomin);
      && (Coincident(qi, qf, rhomin, f) ==> cands == [C(rhomin)])
      && (!Coincident(qi, qf, rhomin, f) ==>
            Kinds(cands) == if disableCcc then [LSL, RSR, LSR, RSL] else [LSL, RSR, LSR, RSL, RLR, LRL])
      && (forall c :: c in cands ==> WellFormed(c, rhomin) && c.kind != NONE_CASE && RealSegments(c.kind))
      && cands[0].length.Fin?
  {
    var cands := Candidates(m, qi, qf, rhomin, disableCcc);
    var f := NormalizedFrame(m, qi, qf, rhomin);
    if !Coincident(qi, qf, rhomin, f) {
      assert |Kinds(cands)| > 0;
      forall c | c in cands
        ensures WellFormed(c, rhomin) && c.kind != NONE_CASE && RealSegments(c.kind)
      {
        var i :| 0 <= i < |cands| && cands[i] == c;
      }
    }
    WellFormedLength(cands[0], rhomin);
  }

  /** The planar solver as a function of its inputs (`DubinsManeuver2D::new`). */
  function Solve(m: Libm, qi: Pose, qf: Pose, rhomin: real, minLength: Ext, disableCcc: bool): (r: Maneuver2D)
    requires rhomin > 0.0 && Lawful(m)
    ensures r.qi == qi && r.qf == qf && r.rhomin == rhomin
    ensures r.maneuver == UNSET || r.maneuver in Candidates(m, qi, qf, rhomin, disableCcc)
  {
    var cands := Candidates(m, qi, qf, rhomin, disableCcc);
    var sorted := SortByLength(cands);
    assert |sorted| >= 1;
    var ds := SelectPath(sorted, minLength);
    assert ds != UNSET ==> ds in multiset(cands);
    Maneuver2D(qi, qf, rhomin, ds)
  }

  /** The first half of DubinsManeuver2D::new: the families in the
      normalised frame pushed in order (the CCC pair only when enabled), and
      the list replaced by the full circle when start and goal coincide. */
  method CollectCandidates(m: Libm, qi: Pose, qf: Pose, rhomin: real, disableCcc: bool) returns (paths: seq<DubinsStruct>)
    requires rhomin > 0.0 && Lawful(m)
    ensures paths == Candidates(m, qi, qf, rhomin, disableCcc)
  {
    var f := NormalizedFrame(m, qi, qf, rhomin);
    var sa, ca := m.sin(f.a), m.cos(f.a);
    var sb, cb := m.sin(f.b), m.cos(f.b);

    var pathLsl := Lsl(m, rhomin, f.a, f.b, f.d, sa, ca, sb, cb);
    var pathRsr := Rsr(m, rhomin, f.a, f.b, f.d, sa, ca, sb, cb);
    var pathLsr := Lsr(m, rhomin, f.a, f.b, f.d, sa, ca, sb, cb);
    var pathRsl := Rsl(m, rhomin, f.a, f.b, f.d, sa, ca, sb, cb);
    var pathRlr := Rlr(m, rhomin, f.a, f.b, f.d, sa, ca, sb, cb);
    var pathLrl := Lrl(m, rhomin, f.a, f.b, f.d, sa, ca, sb, cb);

    paths := [];
    if disableCcc {
      paths := paths + [pathLsl, pathRsr, pathLsr, pathRsl];
    } else {
      paths := paths + [pathLsl, pathRsr, pathLsr, pathRsl, pathRlr, pathLrl];
    }

    var thresh := rhomin * 0.00001;
    if AbsR(f.d) < thresh && AbsR(f.a) < thresh && AbsR(f.b) < thresh {
      var dist2d := Max(AbsR(qi.x - qf.x), AbsR(qi.y - qf.y));
      if dist2d < thresh {
        var pathC := C(rhomin);
        paths := [];
        paths := paths + [pathC];
      }
    }
  }

  /** DubinsManeuver2D::new: collects the candidates, sorts them in place
      and scans for the selected path. */
  method New(m: Libm, qi: Pose, qf: Pose, rhomin: real, minLength: Ext, disableCcc: bool) returns (man: Maneuver2D)
    requires rhomin > 0.0 && Lawful(m)
    ensures man == Solve(m, qi, qf, rhomin, minLength, disableCcc)
  {
    man := Maneuver2D(qi, qf, rhomin, UNSET);
    var paths := CollectCandidates(m, qi, qf, rhomin, disableCcc);

    paths := SortByLength(paths);

    if minLength == NegInf {
      man := man.(maneuver := paths[0]);
    } else {
      var i := 0;
      while i < |paths|
        invariant 0 <= i <= |paths|
        invariant forall j :: 0 <= j < i ==> !Ge(paths[j].length, minLength)
        invariant man == Maneuver2D(qi, qf, rhomin, UNSET)
      {
        if Ge(paths[i].length, minLength) {
          FirstAtLeastIs(paths, minLength, i);
          man := man.(maneuver := paths[i]);
          break;
        }
        SkipBelowFloor(paths, minLength, i);
        i := i + 1;
      }
      if i == |paths| {
        FirstAtLeastIs(paths, minLength, i);
      }
    }
  }

  // ---------------------------------------------------------------------
  // Properties of the selected path.

  /** With no floor (-inf) the selected path is the earliest candidate of
      minimal length, and it is feasible, finite and non-negative. */
  lemma SolveNoFloorPicksEarliestShortest(m: Libm, qi: Pose, qf: Pose, rhomin: real, disableCcc: bool)
    requires rhomin > 0.0 && Lawful(m)
    ensures var cands := Candidates(m, qi, qf, rhomin, disableCcc);
      var ds := Solve(m, qi, qf, rhomin, NegInf, disableCcc).maneuver;
      && ds == cands[EarliestShortest(cands)]
      && ds in cands && WellFormed(ds, rhomin) && RealSegments(ds.kind)
      && Feasible(ds) && ds.t.v >= 0.0 && ds.p.v >= 0.0 && ds.q.v >= 0.0
      && ds.length.Fin? && ds.length.v >= 0.0
  {
    CandidatesShape(m, qi, qf, rhomin, disableCcc);
    NoFloorPicksFeasible(Candidates(m, qi, qf, rhomin, disableCcc), rhomin);
  }

  /** Without a floor, a list of well-formed paths whose first one is finite
      yields its earliest shortest member, which is feasible. */
  lemma NoFloorPicksFeasible(cands: seq<DubinsStruct>, rhomin: real)
    requires rhomin > 0.0 && cands != [] && cands[0].length.Fin?
    requires forall c :: c in cands ==> WellFormed(c, rhomin) && RealSegments(c.kind)
    ensures var ds := SelectPath(SortByLength(cands), NegInf);
      && ds == cands[EarliestShortest(cands)]
      && ds in cands && WellFormed(ds, rhomin) && RealSegments(ds.kind)
      && Feasible(ds) && ds.t.v >= 0.0 && ds.p.v >= 0.0 && ds.q.v >= 0.0
      && ds.length.Fin? && ds.length.v >= 0.0
  {
    SortedHeadIsEarliestShortest(cands);
    var ds := cands[EarliestShortest(cands)];
    assert NotAfter(ds, cands[0]);
    assert ds.length != PosInf;
    WellFormedLength(ds, rhomin);
  }

  /** With a floor, the selected path is a shortest candidate reaching it; when
      no candidate reaches it the maneuver keeps t = p = q = 0, length = +inf
      and case (NONE, NONE, NONE). */
  lemma SolveWithFloor(m: Libm, qi: Pose, qf: Pose, rhomin: real, minLength: Ext, disableCcc: bool)
    requires rhomin > 0.0 && Lawful(m) && minLength != NegInf
    ensures var cands := Candidates(m, qi, qf, rhomin, disableCcc);
      var ds := Solve(m, qi, qf, rhomin, minLength, disableCcc).maneuver;
      && (ds == UNSET <==> forall c :: c in cands ==> !Ge(c.length, minLength))
      && (ds != UNSET ==> ds in cands && Ge(ds.length, minLength))
      && (ds != UNSET ==> forall c :: c in cands && Ge(c.length, minLength) ==> NotAfter(ds, c))
  {
    CandidatesShape(m, qi, qf, rhomin, disableCcc);
    FloorSelectsShortestQualifying(Candidates(m, qi, qf, rhomin, disableCcc), minLength);
  }

  /** With a floor, ties go to the earlier candidate: the selected path sits
      at an index of the candidate list before which no candidate has its
      length. */
  lemma SolveBreaksTiesByOrder(m: Libm, qi: Pose, qf: Pose, rhomin: real, minLength: Ext, disableCcc: bool)
    requires rhomin > 0.0 && Lawful(m) && minLength != NegInf
    ensures var cands := Candidates(m, qi, qf, rhomin, disableCcc);
      var ds := Solve(m, qi, qf, rhomin, minLength, disableCcc).maneuver;
      ds != UNSET ==> FirstOfItsLength(cands, ds)
  {
    var cands := Candidates(m, qi, qf, rhomin, disableCcc);
    assert Solve(m, qi, qf, rhomin, minLength, disableCcc).maneuver == SelectPath(SortByLength(cands), minLength);
    FloorBreaksTiesByOrder(cands, minLength);
  }

  /** Coincident poses give the full circle: t = 0, p = 2*pi, q = 0 and length
      2*pi*rhomin (or nothing, if a floor above that is given). */
  lemma SolveCoincidentIsCircle(m: Libm, qi: Pose, qf: Pose, rhomin: real, minLength: Ext, disableCcc: bool)
    requires rhomin > 0.0 && Lawful(m)
    requires Coincident(qi, qf, rhomin, NormalizedFrame(m, qi, qf, rhomin))
    ensures var ds := Solve(m, qi, qf, rhomin, minLength, disableCcc).maneuver;
      && (minLength == NegInf || Ge(Fin(TWO_PI * rhomin), minLength) ==>
            ds == DubinsStruct(Fin(0.0), Fin(TWO_PI), Fin(0.0), Fin(TWO_PI * rhomin), RRR))
      && (minLength != NegInf && !Ge(Fin(TWO_PI * rhomin), minLength) ==> ds == UNSET)
  {
    assert Candidates(m, qi, qf, rhomin, disableCcc) == [C(rhomin)];
    assert SortByLength([C(rhomin)]) == [C(rhomin)];
  }

  /** In the normalised frame every family turns a into b, up to whole turns. */
  lemma FamiliesTurnToGoal(m: Libm, rhomin: real, f: Frame, disableCcc: bool)
    requires Lawful(m)
    ensures forall c :: c in Families(m, rhomin, f, disableCcc) ==> TurnsTo(c, f.a, f.b)
  {
    var sa, ca, sb, cb := m.sin(f.a), m.cos(f.a), m.sin(f.b), m.cos(f.b);
    LslTurnsToGoal(m, rhomin, f.a, f.b, f.d, sa, ca, sb, cb);
    RsrTurnsToGoal(m, rhomin, f.a, f.b, f.d, sa, ca, sb, cb);
    LsrTurnsToGoal(m, rhomin, f.a, f.b, f.d, sa, ca, sb, cb);
    RslTurnsToGoal(m, rhomin, f.a, f.b, f.d, sa, ca, sb, cb);
    RlrTurnsToGoal(m, rhomin, f.a, f.b, f.d, sa, ca, sb, cb);
    LrlTurnsToGoal(m, rhomin, f.a, f.b, f.d, sa, ca, sb, cb);
  }

  /** A path turning a into b also turns qi.heading into qf.heading, since both
      are a and b rotated by the chord angle, up to whole turns. */
  lemma FrameTurnsToPoses(m: Libm, qi: Pose, qf: Pose, rhomin: real, ds: DubinsStruct)
    requires rhomin > 0.0 && Lawful(m)
    requires ds.kind.a != NoSegment && ds.kind.b != NoSegment && ds.kind.c != NoSegment
    requires var f := NormalizedFrame(m, qi, qf, rhomin); TurnsTo(ds, f.a, f.b)
    ensures TurnsTo(ds, qi.heading, qf.heading)
  {
    var f := NormalizedFrame(m, qi, qf, rhomin);
    var rot := Rotation(m, qi, qf);
    assert Mod2Pi(qi.heading - rot) == qi.heading - rot - WholeTurns(Winding(qi.heading - rot));
    assert Mod2Pi(qf.heading - rot) == qf.heading - rot - WholeTurns(Winding(qf.heading - rot));
    var k0, k1 := Winding(qi.heading - rot), Winding(qf.heading - rot);
    TurnsToRotate(ds, f.a, f.b, rot, k0, k1);
    assert f.a + rot + WholeTurns(k0) == qi.heading;
    assert f.b + rot + WholeTurns(k1) == qf.heading;
  }

  /** Every family in the frame normalised from qi and qf turns qi.heading
      into qf.heading, up to whole turns; none of them is the circle. */
  lemma FamiliesTurnToPoses(m: Libm, qi: Pose, qf: Pose, rhomin: real, f: Frame, disableCcc: bool)
    requires rhomin > 0.0 && Lawful(m) && f == NormalizedFrame(m, qi, qf, rhomin)
    ensures forall c :: c in Families(m, rhomin, f, disableCcc) ==>
      c.kind != RRR && TurnsTo(c, qi.heading, qf.heading)
  {
    var fams := Families(m, rhomin, f, disableCcc);
    FamiliesTurnToGoal(m, rhomin, f, disableCcc);
    forall c | c in fams
      ensures c.kind != RRR && TurnsTo(c, qi.heading, qf.heading)
    {
      var i :| 0 <= i < |fams| && fams[i] == c;
      assert Kinds(fams)[i] != RRR;
      FrameTurnsToPoses(m, qi, qf, rhomin, c);
    }
  }

  /** Every candidate other than the circle turns the start heading into the
      goal heading, up to whole turns; the circle comes back to the start. */
  lemma CandidatesTurnToPoses(m: Libm, qi: Pose, qf: Pose, rhomin: real, disableCcc: bool)
    requires rhomin > 0.0 && Lawful(m)
    ensures forall c :: c in Candidates(m, qi, qf, rhomin, disableCcc) ==>
      && (c.kind != RRR ==> TurnsTo(c, qi.heading, qf.heading))
      && (c.kind == RRR ==> TurnsTo(c, qi.heading, qi.heading))
  {
    var f := NormalizedFrame(m, qi, qf, rhomin);
    if Coincident(qi, qf, rhomin, f) {
      CircleReturnsToStartHeading(rhomin, qi.heading);
    } else {
      FamiliesTurnToPoses(m, qi, qf, rhomin, f, disableCcc);
    }
  }

  /** Any selected path other than the circle turns the start heading into the
      goal heading, up to whole turns; the circle comes back to the start. */
  lemma SolveTurnsToGoal(m: Libm, qi: Pose, qf: Pose, rhomin: real, minLength: Ext, disableCcc: bool)
    requires rhomin > 0.0 && Lawful(m)
    ensures var ds := Solve(m, qi, qf, rhomin, minLength, disableCcc).maneuver;
      && (ds.kind != RRR && ds.kind != NONE_CASE ==> TurnsTo(ds, qi.heading, qf.heading))
      && (ds.kind == RRR ==> TurnsTo(ds, qi.heading, qi.heading))
  {
    var cands := Candidates(m, qi, qf, rhomin, disableCcc);
    assert |cands| > 0;
    CandidatesTurnToPoses(m, qi, qf, rhomin, disableCcc);
    SelectedIsCandidate(cands, minLength);
  }

  // ---------------------------------------------------------------------
  // Segment dispatch used by the sampler.

  /** The pose after `offset` radii along one segment from qi (unit radius). */
  function GetPositionInSegment(m: Libm, offset: real, qi: Pose, kind: SegmentType): (r: Pose)
    ensures r.heading == HeadingAfter(kind, qi.heading, offset)
    ensures kind == NoSegment ==> r == Pose(0.0, 0.0, 0.0)
    ensures kind != NoSegment && offset == 0.0 ==> r == qi
  {
    if kind == Left then
      Pose(qi.x + m.sin(qi.heading + offset) - m.sin(qi.heading),
           qi.y - m.cos(qi.heading + offset) + m.cos(qi.heading),
           qi.heading + offset)
    else if kind == Right then
      Pose(qi.x - m.sin(qi.heading - offset) + m.sin(qi.heading),
           qi.y + m.cos(qi.heading - offset) - m.cos(qi.heading),
           qi.heading - offset)
    else if kind == Straight then
      Pose(qi.x + m.cos(qi.heading) * offset,
           qi.y + m.sin(qi.heading) * offset,
           qi.heading)
    else
      Pose(0.0, 0.0, 0.0)
  }

  /** The pose nOffset radii along the path, from the origin at heading h0:
      the segment is picked by comparing nOffset with t and t + p. */
  function PoseAlong(m: Libm, ds: DubinsStruct, h0: real, nOffset: real): (q: Pose)
    requires ds.t.Fin? && ds.p.Fin?
    ensures nOffset < ds.t.v ==> q.heading == HeadingAfter(ds.kind.a, h0, nOffset)
    ensures ds.t.v <= nOffset < ds.t.v + ds.p.v ==>
      q.heading == HeadingAfter(ds.kind.b, HeadingAfter(ds.kind.a, h0, ds.t.v), nOffset - ds.t.v)
    ensures ds.t.v <= nOffset && ds.t.v + ds.p.v <= nOffset ==>
      q.heading == HeadingAfter(ds.kind.c, HeadingAfter(ds.kind.b, HeadingAfter(ds.kind.a, h0, ds.t.v), ds.p.v),
                                nOffset - ds.t.v - ds.p.v)
    ensures ds.p.v >= 0.0 && RealSegments(ds.kind) && nOffset == ds.t.v ==>
      q.heading == HeadingAfter(ds.kind.a, h0, ds.t.v)
    ensures ds.p.v >= 0.0 && RealSegments(ds.kind) && nOffset == ds.t.v + ds.p.v ==>
      q.heading == HeadingAfter(ds.kind.b, HeadingAfter(ds.kind.a, h0, ds.t.v), ds.p.v)
  {
    var qi := Pose(0.0, 0.0, h0);
    var l1 := ds.t.v;
    var l2 := ds.p.v;
    var q1 := GetPositionInSegment(m, l1, qi, ds.kind.a);
    var q2 := GetPositionInSegment(m, l2, q1, ds.kind.b);
    if nOffset < l1 then GetPositionInSegment(m, nOffset, qi, ds.kind.a)
    else if nOffset < l1 + l2 then GetPositionInSegment(m, nOffset - l1, q1, ds.kind.b)
    else GetPositionInSegment(m, nOffset - l1 - l2, q2, ds.kind.c)
  }

  /** The pose `offset` along a chosen planar path, scaled by rhomin and moved
      to the start position, with the heading normalised. */
  function GetCoordinatesAt(m: Libm, man: Maneuver2D, offset: real): (r: Pose)
    requires man.rhomin > 0.0 && man.maneuver.t.Fin? && man.maneuver.p.Fin?
    ensures 0.0 <= r.heading < TWO_PI
    ensures r.heading == Mod2Pi(PoseAlong(m, man.maneuver, man.qi.heading, offset / man.rhomin).heading)
  {
    var q := PoseAlong(m, man.maneuver, man.qi.heading, offset / man.rhomin);
    Pose(q.x * man.rhomin + man.qi.x, q.y * man.rhomin + man.qi.y, Mod2Pi(q.heading))
  }

  /** A path that can be walked: positive radius, finite non-negative segments
      of real (non-NONE) kinds. */
  predicate Walkable(man: Maneuver2D) {
    var ds := man.maneuver;
    && man.rhomin > 0.0
    && Feasible(ds) && ds.t.v >= 0.0 && ds.p.v >= 0.0 && ds.q.v >= 0.0
    && ds.kind.a != NoSegment && ds.kind.b != NoSegment && ds.kind.c != NoSegment
  }

  /** Offset 0 is the start pose (heading normalised). */
  lemma CoordinatesAtStart(m: Libm, man: Maneuver2D)
    requires Walkable(man)
    ensures GetCoordinatesAt(m, man, 0.0) == Pose(man.qi.x, man.qi.y, Mod2Pi(man.qi.heading))
  {
    var ds := man.maneuver;
    var qi := Pose(0.0, 0.0, man.qi.heading);
    assert 0.0 / man.rhomin == 0.0;
    var q1 := GetPositionInSegment(m, ds.t.v, qi, ds.kind.a);
    if 0.0 < ds.t.v {
      assert PoseAlong(m, ds, man.qi.heading, 0.0) == qi;
    } else if 0.0 < ds.t.v + ds.p.v {
      assert q1 == qi;
      assert PoseAlong(m, ds, man.qi.heading, 0.0) == qi;
    } else {
      assert q1 == qi;
      assert GetPositionInSegment(m, ds.p.v, q1, ds.kind.b) == qi;
      assert PoseAlong(m, ds, man.qi.heading, 0.0) == qi;
    }
  }

  /** Past t + p the heading is that of the third segment. */
  lemma PoseAlongEndHeading(m: Libm, ds: DubinsStruct, h0: real)
    requires Feasible(ds) && ds.t.v >= 0.0 && ds.p.v >= 0.0 && ds.q.v >= 0.0
    ensures PoseAlong(m, ds, h0, ds.t.v + ds.p.v + ds.q.v).heading == EndHeading(ds, h0)
  {
    var qi := Pose(0.0, 0.0, h0);
    var q1 := GetPositionInSegment(m, ds.t.v, qi, ds.kind.a);
    var q2 := GetPositionInSegment(m, ds.p.v, q1, ds.kind.b);
    var n := ds.t.v + ds.p.v + ds.q.v;
    assert PoseAlong(m, ds, h0, n) == GetPositionInSegment(m, n - ds.t.v - ds.p.v, q2, ds.kind.c);
    assert n - ds.t.v - ds.p.v == ds.q.v;
  }

  /** The offset whose ratio to rhomin is t + p + q (the whole path) reaches
      the end heading of its three segments. */
  lemma CoordinatesAtEndHeading(m: Libm, man: Maneuver2D, len: real)
    requires Walkable(man)
    requires len / man.rhomin == man.maneuver.t.v + man.maneuver.p.v + man.maneuver.q.v
    ensures GetCoordinatesAt(m, man, len).heading == Mod2Pi(EndHeading(man.maneuver, man.qi.heading))
  {
    PoseAlongEndHeading(m, man.maneuver, man.qi.heading);
  }

  /** Walking a path that turns its start heading into h1 for its whole
      length ends at heading h1 (normalised). */
  lemma WalkToEndHeading(m: Libm, man: Maneuver2D, h1: real)
    requires Walkable(man) && LengthMatches(man.maneuver, man.rhomin)
    requires TurnsTo(man.maneuver, man.qi.heading, h1)
    ensures GetCoordinatesAt(m, man, man.maneuver.length.v).heading == Mod2Pi(h1)
  {
    var ds := man.maneuver;
    var s := ds.t.v + ds.p.v + ds.q.v;
    FeasibleLength(ds, man.rhomin);
    assert (s * man.rhomin) / man.rhomin == s;
    CoordinatesAtEndHeading(m, man, ds.length.v);
  }

  /** For a selected path other than the circle, walking its whole length ends
      at the goal heading (normalised). */
  lemma SolveEndsAtGoalHeading(m: Libm, qi: Pose, qf: Pose, rhomin: real, disableCcc: bool)
    requires rhomin > 0.0 && Lawful(m)
    ensures var man := Solve(m, qi, qf, rhomin, NegInf, disableCcc);
      man.maneuver.kind != RRR ==>
        && Walkable(man) && man.maneuver.length.Fin?
        && GetCoordinatesAt(m, man, man.maneuver.length.v).heading == Mod2Pi(qf.heading)
  {
    var man := Solve(m, qi, qf, rhomin, NegInf, disableCcc);
    var ds := man.maneuver;
    SolveNoFloorPicksEarliestShortest(m, qi, qf, rhomin, disableCcc);
    SolveTurnsToGoal(m, qi, qf, rhomin, NegInf, disableCcc);
    if ds.kind != RRR {
      assert Walkable(man) && LengthMatches(ds, man.rhomin);
      WalkToEndHeading(m, man, qf.heading);
    }
  }
}
