/** src/dubins3d.rs: the 3D composer. A 3D path is a lateral planar path
    (x, y, yaw) paired with a longitudinal path in the plane (distance along
    the lateral path, z, pitch). The constructor searches for the horizontal
    radius: it doubles a factor until a composition exists, then runs an
    expand/contract line search that only accepts strictly shorter paths. */
module Dubins3D {
  import opened Float
  import opened MathLib
  import opened Lib
  import opened Paths
  import Dubins2D
  import Vertical

  newtype i32 = x: int | -0x8000_0000 <= x < 0x8000_0000

  /** DubinsManeuver3D: the problem and the composed path. */
  datatype Maneuver3D = Maneuver3D(
    qi: State,
    qf: State,
    rhomin: real,
    pitchLims: (real, real),
    path: seq<Maneuver2D>,
    length: Ext)

  /** The lateral pose of a state: (x, y, yaw). */
  function Planar(s: State): Pose {
    Pose(s.x, s.y, s.yaw)
  }

  /** The planar solver with CCC enabled and no length floor, as both
      planes call it: always feasible, walkable and of finite length. */
  function Unfloored(m: Libm, qi: Pose, qf: Pose, radius: real): (r: Maneuver2D)
    requires radius > 0.0 && Lawful(m)
    ensures r.rhomin == radius && r.qi == qi && r.qf == qf
    ensures Feasible(r.maneuver) && r.maneuver.length.Fin? && r.maneuver.length.v >= 0.0
    ensures Dubins2D.Walkable(r)
  {
    Dubins2D.SolveNoFloorPicksEarliestShortest(m, qi, qf, radius, false);
    Dubins2D.Solve(m, qi, qf, radius, NegInf, false)
  }

  /** The planar path from qi to qf (x, y, yaw) for a radius h. */
  function PlanarPath(m: Libm, qi: State, qf: State, h: real): (r: Maneuver2D)
    requires h > 0.0 && Lawful(m)
    ensures r.rhomin == h && r.qi == Planar(qi) && r.qf == Planar(qf)
    ensures Feasible(r.maneuver) && r.maneuver.length.Fin? && r.maneuver.length.v >= 0.0
    ensures Dubins2D.Walkable(r)
  {
    Unfloored(m, Planar(qi), Planar(qf), h)
  }

  /** The lateral path of a 3D problem for a horizontal radius h. */
  function Lateral(m: Libm, man: Maneuver3D, h: real): (r: Maneuver2D)
    requires h > 0.0 && Lawful(m)
    ensures r.rhomin == h && r.qi == Planar(man.qi) && r.qf == Planar(man.qf)
    ensures Feasible(r.maneuver) && r.maneuver.length.Fin? && r.maneuver.length.v >= 0.0
    ensures Dubins2D.Walkable(r)
  {
    PlanarPath(m, man.qi, man.qf, h)
  }

  /** sqrt(1/rhomin^2 - 1/h^2): the curvature left for the pitch plane. */
  function VerticalCurvature(m: Libm, rhomin: real, h: real): (r: real)
    requires rhomin > 0.0 && h > 0.0
    ensures Lawful(m) ==> r >= 0.0
    ensures Lawful(m) && h == rhomin ==> r == 0.0
  {
    assert h == rhomin ==> 1.0 / rhomin / rhomin - 1.0 / h / h == 0.0;
    m.sqrt(1.0 / rhomin / rhomin - 1.0 / h / h)
  }

  /** The longitudinal problem: from (0, z_i, pitch_i) to (length of the
      lateral path, z_f, pitch_f). */
  function LongitudinalStart(man: Maneuver3D): Pose {
    Pose(0.0, man.qi.z, man.qi.pitch)
  }

  function LongitudinalGoal(man: Maneuver3D, dlat: Maneuver2D): Pose
    requires dlat.maneuver.length.Fin?
  {
    Pose(dlat.maneuver.length.v, man.qf.z, man.qf.pitch)
  }

  /** The reciprocal of a positive curvature is a positive radius. */
  lemma ReciprocalPositive(x: real)
    requires x > 0.0
    ensures 1.0 / x > 0.0
  {
  }

  /** The longitudinal path of try_to_construct: the planar solver with CCC
      enabled, radius 1 / curvature, no length floor. */
  function Longitudinal(m: Libm, man: Maneuver3D, h: real): (r: Maneuver2D)
    requires man.rhomin > 0.0 && h > 0.0 && Lawful(m)
    requires VerticalCurvature(m, man.rhomin, h) >= 0.00001
    ensures r.rhomin == 1.0 / VerticalCurvature(m, man.rhomin, h)
    ensures r.qi == LongitudinalStart(man) && r.qf == LongitudinalGoal(man, Lateral(m, man, h))
    ensures Feasible(r.maneuver) && r.maneuver.length.Fin? && r.maneuver.length.v >= 0.0
    ensures r.maneuver.t.v >= 0.0
    ensures Dubins2D.Walkable(r)
  {
    var dlat := Lateral(m, man, h);
    var curvature := VerticalCurvature(m, man.rhomin, h);
    var radius := 1.0 / curvature;
    ReciprocalPositive(curvature);
    Unfloored(m, LongitudinalStart(man), LongitudinalGoal(man, dlat), radius)
  }

  /** The pitch test: a longitudinal path turning right (down) first must not
      pitch below pitchLims.0 after its first turn; otherwise it must not pitch
      above pitchLims.1. */
  predicate PitchWithinLimits(man: Maneuver3D, dlon: DubinsStruct)
    requires dlon.t.Fin?
    ensures dlon.kind.a == Right ==>
      (PitchWithinLimits(man, dlon) <==> man.pitchLims.0 <= HeadingAfter(Right, man.qi.pitch, dlon.t.v))
    ensures dlon.kind.a != Right ==>
      (PitchWithinLimits(man, dlon) <==> HeadingAfter(Left, man.qi.pitch, dlon.t.v) <= man.pitchLims.1)
  {
    if dlon.kind.a == Right then !(man.qi.pitch - dlon.t.v < man.pitchLims.0)
    else !(man.qi.pitch + dlon.t.v > man.pitchLims.1)
  }

  /** try_to_construct: the lateral path and, when the remaining curvature is
      not negligible, the longitudinal path; rejected when the longitudinal
      case is RLR or its first turn leaves the pitch limits. The RLR test is
      written twice, so LRL is never rejected by it. */
  function TryToConstruct(m: Libm, man: Maneuver3D, h: real): (r: seq<Maneuver2D>)
    requires man.rhomin > 0.0 && h > 0.0 && Lawful(m)
    ensures |r| == 0 || |r| == 2
    ensures r != [] ==> r[1].maneuver.length.Fin? && r[1].maneuver.length.v >= 0.0
    ensures r != [] ==> Dubins2D.Walkable(r[0]) && Dubins2D.Walkable(r[1])
  {
    var dlat := Lateral(m, man, h);
    var curvature := VerticalCurvature(m, man.rhomin, h);
    if curvature < 0.00001 then []
    else
      var dlon := Longitudinal(m, man, h);
      if dlon.maneuver.kind == RLR || dlon.maneuver.kind == RLR then []
      else if dlon.maneuver.kind.a == Right then
        if man.qi.pitch - dlon.maneuver.t.v < man.pitchLims.0 then [] else [dlat, dlon]
      else
        if man.qi.pitch + dlon.maneuver.t.v > man.pitchLims.1 then [] else [dlat, dlon]
  }

  /** The cases of try_to_construct: nothing when the curvature left for the
      pitch plane is below 1e-5; otherwise the lateral and longitudinal paths,
      unless the longitudinal case is RLR or its first turn leaves the pitch
      limits. */
  lemma TryToConstructCases(m: Libm, man: Maneuver3D, h: real)
    requires man.rhomin > 0.0 && h > 0.0 && Lawful(m)
    ensures var r := TryToConstruct(m, man, h);
      && (r == [] || r == [Lateral(m, man, h), r[1]])
      && (VerticalCurvature(m, man.rhomin, h) < 0.00001 ==> r == [])
      && (VerticalCurvature(m, man.rhomin, h) >= 0.00001 ==>
        var dlon := Longitudinal(m, man, h);
        && (r == [] <==> dlon.maneuver.kind == RLR || !PitchWithinLimits(man, dlon.maneuver))
        && (r != [] ==> r[1] == dlon))
  {
    var r := TryToConstruct(m, man, h);
    if VerticalCurvature(m, man.rhomin, h) >= 0.00001 {
      var dlon := Longitudinal(m, man, h);
      if dlon.maneuver.kind != RLR {
        assert r == [] <==> !PitchWithinLimits(man, dlon.maneuver);
      }
    }
  }

  /** At the minimum radius no curvature is left for the pitch plane, so
      nothing is composed; in particular the candidate `fa` of the
      constructor, built at factor 1, is always empty. */
  lemma NoCompositionAtMinRadius(m: Libm, man: Maneuver3D)
    requires man.rhomin > 0.0 && Lawful(m)
    ensures TryToConstruct(m, man, man.rhomin) == []
  {
    assert 1.0 / man.rhomin / man.rhomin - 1.0 / man.rhomin / man.rhomin == 0.0;
  }

  /** A composed path: lateral then longitudinal, the longitudinal plane as
      long as the lateral path, and its first turn within the pitch limits. */
  lemma ComposedPathShape(m: Libm, man: Maneuver3D, h: real)
    requires man.rhomin > 0.0 && h > 0.0 && Lawful(m)
    ensures var r := TryToConstruct(m, man, h);
      r != [] ==>
        && r[0].rhomin == h && r[0].qi == Planar(man.qi) && r[0].qf == Planar(man.qf)
        && r[1].qi == LongitudinalStart(man)
        && r[1].qf == Pose(r[0].maneuver.length.v, man.qf.z, man.qf.pitch)
        && r[1].maneuver.kind != RLR
        && PitchWithinLimits(man, r[1].maneuver)
        && r[1].maneuver.length.Fin? && r[1].maneuver.length.v >= 0.0
  {
  }

  /** LRL is not rejected by the case test: with enough curvature and the
      pitch test passed, an LRL longitudinal path is composed. */
  lemma LrlIsNotRejected(m: Libm, man: Maneuver3D, h: real)
    requires man.rhomin > 0.0 && h > 0.0 && Lawful(m)
    requires VerticalCurvature(m, man.rhomin, h) >= 0.00001
    requires Longitudinal(m, man, h).maneuver.kind == LRL
    requires PitchWithinLimits(man, Longitudinal(m, man, h).maneuver)
    ensures TryToConstruct(m, man, h) == [Lateral(m, man, h), Longitudinal(m, man, h)]
  {
  }

  // ---------------------------------------------------------------------
  // The constructor's search.

  function Pow2(k: nat): (r: real)
    ensures r >= 1.0
  {
    if k == 0 then 1.0 else 2.0 * Pow2(k - 1)
  }

  /** The horizontal radius tried for a factor: rhomin * factor. */
  function Radius(rhomin: real, factor: real): (h: real)
    requires rhomin > 0.0 && factor >= 1.0
    ensures h >= rhomin
  {
    rhomin * factor
  }

  /** The composition tried after k doublings of the factor. */
  function Attempt(m: Libm, man: Maneuver3D, k: nat): seq<Maneuver2D>
    requires man.rhomin > 0.0 && Lawful(m)
  {
    TryToConstruct(m, man, Radius(man.rhomin, Pow2(k)))
  }

  /** None of the first n doublings yields a composition. */
  predicate NothingBefore(m: Libm, man: Maneuver3D, n: nat)
    requires man.rhomin > 0.0 && Lawful(m)
  {
    n == 0 || (NothingBefore(m, man, n - 1) && Attempt(m, man, n - 1) == [])
  }

  function Unconstructed(qi: State, qf: State, rhomin: real, pitchLims: (real, real)): Maneuver3D {
    Maneuver3D(qi, qf, rhomin, pitchLims, [], Fin(-1.0))
  }

  /** The first phase of DubinsManeuver3D::new: the factor b starts at 1 and
      doubles while no composition exists, for at most `fuel` doublings. The
      result is the first composition found, or the last empty attempt. */
  method Widen(m: Libm, problem: Maneuver3D, fuel: nat) returns (b: real, fb: seq<Maneuver2D>, ghost doublings: nat)
    requires problem.rhomin > 0.0 && Lawful(m)
    ensures doublings <= fuel && b == Pow2(doublings) && fb == Attempt(m, problem, doublings)
    ensures NothingBefore(m, problem, doublings)
    ensures |fb| < 2 ==> doublings == fuel && fb == []
  {
    b := 1.0;
    fb := TryToConstruct(m, problem, Radius(problem.rhomin, b));
    var tries: nat := 0;
    while |fb| < 2 && tries < fuel
      invariant tries <= fuel
      invariant b == Pow2(tries) && fb == Attempt(m, problem, tries)
      invariant NothingBefore(m, problem, tries)
    {
      b := b * 2.0;
      fb := TryToConstruct(m, problem, Radius(problem.rhomin, b));
      tries := tries + 1;
    }
    doublings := tries;
  }

  /** The second phase of DubinsManeuver3D::new: a line search on the factor,
      starting with step 0.1, never below factor 1. A strictly shorter
      composition is accepted and the step doubled; otherwise the step is
      reversed and divided by 10. It stops once |step| <= 1e-10 or after
      `fuel` steps. The composition kept is never longer than the one it
      started from. */
  method Refine(m: Libm, problem: Maneuver3D, b0: real, fb0: seq<Maneuver2D>, fuel: nat)
    returns (b: real, fb: seq<Maneuver2D>)
    requires problem.rhomin > 0.0 && Lawful(m)
    requires b0 >= 1.0 && fb0 == TryToConstruct(m, problem, Radius(problem.rhomin, b0)) && |fb0| == 2
    ensures b >= 1.0 && fb == TryToConstruct(m, problem, Radius(problem.rhomin, b)) && |fb| == 2
    ensures fb[1].maneuver.length.Fin? && fb[1].maneuver.length.v <= fb0[1].maneuver.length.v
  {
    b, fb := b0, fb0;
    var step: real := 0.1;
    var searches: nat := 0;
    while AbsR(step) > 0.0000000001 && searches < fuel
      invariant b >= 1.0 && fb == TryToConstruct(m, problem, Radius(problem.rhomin, b)) && |fb| == 2
      invariant fb[1].maneuver.length.Fin? && fb[1].maneuver.length.v <= fb0[1].maneuver.length.v
      decreases fuel - searches
    {
      searches := searches + 1;
      var c := Max(b + step, 1.0);
      var fc := TryToConstruct(m, problem, Radius(problem.rhomin, c));
      if |fc| > 0 {
        if Lt(fc[1].maneuver.length, fb[1].maneuver.length) {
          b := c;
          fb := fc;
          step := step * 2.0;
          continue;
        }
      }
      step := step * -0.1;
    }
  }

  /** DubinsManeuver3D::new. Each of its two loops (Widen, Refine) runs at
      most `fuel` iterations. If no composition is found by the doublings,
      the early return yields the unconstructed maneuver (empty path, length
      -1). Otherwise the path is a composition at some factor >= 1, no longer
      than the first composition the doublings found. */
  method New(m: Libm, qi: State, qf: State, rhomin: real, pitchLims: (real, real), fuel: nat)
    returns (maneuver: Maneuver3D, ghost factor: real, ghost doublings: nat)
    requires rhomin > 0.0 && Lawful(m)
    ensures maneuver.qi == qi && maneuver.qf == qf && maneuver.rhomin == rhomin && maneuver.pitchLims == pitchLims
    ensures NothingBefore(m, Unconstructed(qi, qf, rhomin, pitchLims), doublings)
    ensures maneuver.path == [] ==>
      && maneuver == Unconstructed(qi, qf, rhomin, pitchLims)
      && doublings == fuel && Attempt(m, maneuver, fuel) == []
    ensures maneuver.path != [] ==>
      var attempt := Attempt(m, Unconstructed(qi, qf, rhomin, pitchLims), doublings);
      && doublings <= fuel && |attempt| == 2
      && factor >= 1.0 && maneuver.path == TryToConstruct(m, Unconstructed(qi, qf, rhomin, pitchLims), Radius(rhomin, factor))
      && |maneuver.path| == 2 && maneuver.length == maneuver.path[1].maneuver.length
      && maneuver.length.Fin? && attempt[1].maneuver.length.Fin?
      && maneuver.length.v <= attempt[1].maneuver.length.v
    ensures maneuver.path != [] ==> Sampleable(maneuver)
  {
    var problem := Unconstructed(qi, qf, rhomin, pitchLims);
    maneuver := problem;

    var a := 1.0;
    var fa := TryToConstruct(m, problem, Radius(rhomin, a));
    NoCompositionAtMinRadius(m, problem);
    var b, fb;
    b, fb, doublings := Widen(m, problem, fuel);
    factor := b;

    if |fa| > 0 {
      maneuver := maneuver.(path := fa);
    } else {
      if |fb| < 2 {
        return;
      }
    }

    b, fb := Refine(m, problem, b, fb, fuel);
    maneuver := maneuver.(path := fb);
    maneuver := maneuver.(length := maneuver.path[1].maneuver.length);
    factor := b;
  }

  // ---------------------------------------------------------------------
  // Bound estimators.

  /** The pitch-plane problem of the bound estimators: from (0, z_i, pitch_i)
      to (length of the lateral path at latRadius, z_f, pitch_f), at lonRadius. */
  function PitchProblem(m: Libm, qi: State, qf: State, latRadius: real, lonRadius: real): Maneuver2D
    requires latRadius > 0.0 && Lawful(m)
  {
    var dlat := PlanarPath(m, qi, qf, latRadius);
    Maneuver2D(Pose(0.0, qi.z, qi.pitch), Pose(dlat.maneuver.length.v, qf.z, qf.pitch), lonRadius, UNSET)
  }

  /** Some pitch-plane candidate passes get_vertical's filter. */
  predicate PitchSolvable(m: Libm, qi: State, qf: State, pitchLims: (real, real), latRadius: real, lonRadius: real)
    requires latRadius > 0.0 && lonRadius > 0.0 && Lawful(m)
  {
    exists c :: c in Vertical.VCandidates(m, PitchProblem(m, qi, qf, latRadius, lonRadius), pitchLims)
      && Vertical.Admissible(c, qi.pitch, pitchLims)
  }

  /** The composition shared by the bound estimators: a lateral path at
      latRadius with no length floor, then the pitch-plane path with the
      pitch limits at lonRadius. It is empty, with length `missing`, exactly
      when no pitch-plane candidate is admissible. */
  function Compose(m: Libm, qi: State, qf: State, pitchLims: (real, real), latRadius: real, lonRadius: real, missing: Ext)
    : (r: (seq<Maneuver2D>, Ext))
    requires latRadius > 0.0 && lonRadius > 0.0 && Lawful(m)
    ensures r.0 == [] <==> !PitchSolvable(m, qi, qf, pitchLims, latRadius, lonRadius)
    ensures r.0 == [] ==> r.1 == missing
    ensures r.0 != [] ==>
      && |r.0| == 2 && r.1 == r.0[1].maneuver.length
      && r.0[0] == PlanarPath(m, qi, qf, latRadius)
      && r.0[1].qi == Pose(0.0, qi.z, qi.pitch) && r.0[1].qf == Pose(r.0[0].maneuver.length.v, qf.z, qf.pitch)
      && r.0[1].rhomin == lonRadius
      && r.0[1].maneuver.t.Fin? && r.0[1].maneuver.q.Fin?
      && -PI < r.0[1].maneuver.t.v < PI && -PI < r.0[1].maneuver.q.v < PI
      && pitchLims.0 <= Vertical.CenterAngle(r.0[1].maneuver, qi.pitch) <= pitchLims.1
  {
    var dlat := PlanarPath(m, qi, qf, latRadius);
    var lon := PitchProblem(m, qi, qf, latRadius, lonRadius);
    Vertical.VerticalFindsNothingExactly(m, lon.qi, lon.qf, lonRadius, pitchLims);
    Vertical.VerticalRespectsPitchLimits(m, lon.qi, lon.qf, lonRadius, pitchLims);
    var dlon := Vertical.Vertical(m, lon.qi, lon.qf, lonRadius, pitchLims);
    if dlon.maneuver.kind.a == NoSegment then ([], missing)
    else ([dlat, dlon], dlon.maneuver.length)
  }

  /** The spiral radius of get_lower_bound: rhomin * cos(max(-pitchLims.0, pitchLims.1))^2. */
  function SpiralRadius(m: Libm, rhomin: real, pitchLims: (real, real)): (r: real)
    ensures rhomin >= 0.0 ==> r >= 0.0
    ensures m.cos(Max(-pitchLims.0, pitchLims.1)) == 0.0 ==> r == 0.0
  {
    var c := m.cos(Max(-pitchLims.0, pitchLims.1));
    SumOfSquares(c, 0.0);
    assert c == 0.0 ==> c * c == 0.0;
    rhomin * (c * c)
  }

  /** The safe radius of get_upper_bound: sqrt(2) * rhomin. */
  function SafeRadius(m: Libm, rhomin: real): (h: real)
    requires rhomin > 0.0 && Lawful(m)
    ensures h > 0.0
  {
    m.sqrt(2.0) * rhomin
  }

  /** The planar distance between two states. */
  function PlanarDistance(m: Libm, qi: State, qf: State): (r: real)
    ensures Lawful(m) ==> r >= 0.0
    ensures Lawful(m) ==> (r == 0.0 <==> qi.x == qf.x && qi.y == qf.y)
  {
    var dx, dy := qf.x - qi.x, qf.y - qi.y;
    SumOfSquares(dx, dy);
    m.sqrt(dx * dx + dy * dy)
  }

  /** get_lower_bound: a lateral path at the spiral radius and a pitch-plane
      path at rhomin. Without an admissible pitch-plane path the length is 0
      and the path empty. */
  function LowerBound(m: Libm, qi: State, qf: State, rhomin: real, pitchLims: (real, real)): (r: Maneuver3D)
    requires rhomin > 0.0 && Lawful(m)
    requires SpiralRadius(m, rhomin, pitchLims) > 0.0
    ensures r.qi == qi && r.qf == qf && r.rhomin == rhomin && r.pitchLims == pitchLims
    ensures r.path == [] <==> !PitchSolvable(m, qi, qf, pitchLims, SpiralRadius(m, rhomin, pitchLims), rhomin)
    ensures r.path == [] ==> r.length == Fin(0.0)
    ensures r.path != [] ==>
      && |r.path| == 2 && r.length == r.path[1].maneuver.length
      && r.path[0].qi == Planar(qi) && r.path[0].qf == Planar(qf)
      && r.path[0].rhomin == SpiralRadius(m, rhomin, pitchLims) && r.path[1].rhomin == rhomin
      && r.path[0].maneuver.length.Fin? && r.path[1].qf.x == r.path[0].maneuver.length.v
      && r.path[1].maneuver.t.Fin?
      && pitchLims.0 <= Vertical.CenterAngle(r.path[1].maneuver, qi.pitch) <= pitchLims.1
  {
    var composed := Compose(m, qi, qf, pitchLims, SpiralRadius(m, rhomin, pitchLims), rhomin, Fin(0.0));
    Maneuver3D(qi, qf, rhomin, pitchLims, composed.0, composed.1)
  }

  /** get_upper_bound: lateral and pitch-plane paths both at the safe radius
      sqrt(2) * rhomin. Start and goal closer than 4 safe radii in the plane,
      or no admissible pitch-plane path, give length +inf and an empty path. */
  function UpperBound(m: Libm, qi: State, qf: State, rhomin: real, pitchLims: (real, real)): (r: Maneuver3D)
    requires rhomin > 0.0 && Lawful(m)
    ensures r.qi == qi && r.qf == qf && r.rhomin == rhomin && r.pitchLims == pitchLims
    ensures r.path == [] ==> r.length == PosInf
    ensures r.path == [] <==>
      (PlanarDistance(m, qi, qf) < 4.0 * SafeRadius(m, rhomin)
       || !PitchSolvable(m, qi, qf, pitchLims, SafeRadius(m, rhomin), SafeRadius(m, rhomin)))
    ensures r.path != [] ==>
      && |r.path| == 2 && r.length == r.path[1].maneuver.length
      && r.path[0].qi == Planar(qi) && r.path[0].qf == Planar(qf)
      && r.path[0].rhomin == SafeRadius(m, rhomin) && r.path[1].rhomin == SafeRadius(m, rhomin)
      && r.path[0].maneuver.length.Fin? && r.path[1].qf.x == r.path[0].maneuver.length.v
      && r.path[1].maneuver.t.Fin?
      && pitchLims.0 <= Vertical.CenterAngle(r.path[1].maneuver, qi.pitch) <= pitchLims.1
  {
    var safeRadius := SafeRadius(m, rhomin);
    var dist := PlanarDistance(m, qi, qf);
    if dist < 4.0 * safeRadius then
      Maneuver3D(qi, qf, rhomin, pitchLims, [], PosInf)
    else
      var composed := Compose(m, qi, qf, pitchLims, safeRadius, safeRadius, PosInf);
      Maneuver3D(qi, qf, rhomin, pitchLims, composed.0, composed.1)
  }

  // ---------------------------------------------------------------------
  // Sampling.

  /** A maneuver whose two sub-paths can be walked and whose longitudinal
      length is finite. */
  predicate Sampleable(man: Maneuver3D) {
    && |man.path| >= 2
    && Dubins2D.Walkable(man.path[0]) && Dubins2D.Walkable(man.path[1])
    && man.path[1].maneuver.length.Fin?
  }

  /** The distance along the longitudinal path of sample i out of n. */
  function Progress(length: real, i: int, n: int): (r: real)
    requires n != 0
    ensures i == 0 ==> r == 0.0
  {
    length * (i as real) / (n as real)
  }

  /** Sample i: walk the longitudinal path to its progress, then the lateral
      path to the horizontal distance reached there. */
  function SampleAt(m: Libm, man: Maneuver3D, i: int, n: int): (s: State)
    requires Sampleable(man) && n != 0
    ensures 0.0 <= s.yaw < TWO_PI && 0.0 <= s.pitch < TWO_PI
  {
    var dlat, dlon := man.path[0], man.path[1];
    var qsz := Dubins2D.GetCoordinatesAt(m, dlon, Progress(dlon.maneuver.length.v, i, n));
    var qxy := Dubins2D.GetCoordinatesAt(m, dlat, qsz.x);
    State(qxy.x, qxy.y, qsz.y, qxy.heading, qsz.heading)
  }

  /** compute_sampling: exactly max(n, 0) samples, sample i at progress
      length * i / n. */
  method ComputeSampling(m: Libm, man: Maneuver3D, numberOfSamples: i32) returns (points: seq<State>)
    requires Sampleable(man)
    ensures |points| == if numberOfSamples > 0 then numberOfSamples as int else 0
    ensures forall i :: 0 <= i < |points| ==> points[i] == SampleAt(m, man, i, numberOfSamples as int)
  {
    var dlat := man.path[0];
    var dlon := man.path[1];
    points := [];
    var n := numberOfSamples as int;
    for sample := 0 to if n > 0 then n else 0
      invariant |points| == sample
      invariant forall i :: 0 <= i < sample ==> points[i] == SampleAt(m, man, i, n)
    {
      var prog := Progress(dlon.maneuver.length.v, sample, n);
      var qsz := Dubins2D.GetCoordinatesAt(m, dlon, prog);
      var qxy := Dubins2D.GetCoordinatesAt(m, dlat, qsz.x);
      points := points + [State(qxy.x, qxy.y, qsz.y, qxy.heading, qsz.heading)];
    }
  }

  /** Multiplying by a non-negative factor keeps the order. */
  lemma ScaleIsMonotone(k: real, x: real, y: real)
    requires k >= 0.0 && x <= y
    ensures k * x <= k * y
  {
    assert k * y - k * x == k * (y - x);
  }

  /** Dividing by a positive divisor keeps the order. */
  lemma DivisionIsMonotone(x: real, y: real, d: real)
    requires x <= y && d > 0.0
    ensures x / d <= y / d
  {
    assert y / d - x / d == (y - x) / d;
  }

  /** Samples never move backwards along a path of non-negative length. */
  lemma ProgressIsMonotone(length: real, i: int, j: int, n: int)
    requires length >= 0.0 && 0 <= i <= j && n > 0
    ensures 0.0 <= Progress(length, i, n) <= Progress(length, j, n)
  {
    var N, I, J := n as real, i as real, j as real;
    ScaleIsMonotone(length, 0.0, I);
    ScaleIsMonotone(length, I, J);
    DivisionIsMonotone(0.0, length * I, N);
    DivisionIsMonotone(length * I, length * J, N);
  }

  /** Sample n, which compute_sampling never takes, would be the end. */
  lemma ProgressReachesEndAtN(length: real, n: int)
    requires n != 0
    ensures Progress(length, n, n) == length
  {
    var N := n as real;
    assert length * N / N == length;
  }

  /** Every sample before the n-th lies strictly before the end of a path of
      positive length: the end point itself is never sampled. */
  lemma ProgressStopsShortOfEnd(length: real, j: int, n: int)
    requires length > 0.0 && 0 <= j < n
    ensures Progress(length, j, n) < length
  {
    var N, J := n as real, j as real;
    ScaleIsMonotone(length, J, N - 1.0);
    DivisionIsMonotone(length * J, length * (N - 1.0), N);
    assert length * (N - 1.0) / N == length - length / N;
  }

  /** The first sample is the start state (angles normalised), for a
      maneuver whose sub-paths start where the composer puts them. */
  lemma FirstSampleIsStart(m: Libm, man: Maneuver3D, n: int)
    requires Sampleable(man) && n != 0
    requires man.path[0].qi == Planar(man.qi) && man.path[1].qi == LongitudinalStart(man)
    ensures SampleAt(m, man, 0, n) == State(man.qi.x, man.qi.y, man.qi.z, Mod2Pi(man.qi.yaw), Mod2Pi(man.qi.pitch))
  {
    var dlat, dlon := man.path[0], man.path[1];
    assert Progress(dlon.maneuver.length.v, 0, n) == 0.0;
    Dubins2D.CoordinatesAtStart(m, dlon);
    Dubins2D.CoordinatesAtStart(m, dlat);
  }
}
