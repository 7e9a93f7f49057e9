/** src/vertical.rs: the solver for the pitch plane. Headings there are pitch
    angles and do not wrap: LSL and RSR run only under a heading-order guard and
    may drop one turn, LSR and RSL may clamp their crossing angle to the pitch
    limits, and the first sorted candidate that keeps both turns below pi and
    its climb angle inside the limits is chosen. */
module Vertical {
  import opened Float
  import opened MathLib
  import opened Lib
  import opened Paths

  /** The three parameters of a family before its length is computed. */
  datatype Params = Params(t: Ext, p: Ext, q: Ext)

  const NO_PATH: Params := Params(PosInf, PosInf, PosInf)

  /** A single-turn fallback can climb straight: the angle is not almost level
      and the height difference has the angle's sign. */
  predicate ClimbPossible(diffY: real, theta: real) {
    AbsR(theta) > 0.00001 && ((diffY < 0.0) == (theta < 0.0))
  }

  /** The straight length diff_y / sin(theta) / radius, in radii. */
  function Climb(m: Libm, diffY: real, theta: real, radius: real): Ext {
    Div(Div(Fin(diffY), Fin(m.sin(theta))), Fin(radius))
  }

  /** The fallback that drops the first turn: t = 0, a straight climb, then
      the whole turn `turn` at the end; or no path. */
  function DropFirstTurn(m: Libm, turn: real, diffY: real, theta: real, radius: real): (x: Params)
    ensures ClimbPossible(diffY, theta) ==> x.t == Fin(0.0) && x.q == Fin(turn)
    ensures !ClimbPossible(diffY, theta) ==> x == NO_PATH
  {
    if ClimbPossible(diffY, theta) then Params(Fin(0.0), Climb(m, diffY, theta, radius), Fin(turn))
    else NO_PATH
  }

  /** The fallback that drops the last turn: the whole turn `turn` first, a
      straight climb, q = 0; or no path. */
  function DropLastTurn(m: Libm, turn: real, diffY: real, theta: real, radius: real): (x: Params)
    ensures ClimbPossible(diffY, theta) ==> x.t == Fin(turn) && x.q == Fin(0.0)
    ensures !ClimbPossible(diffY, theta) ==> x == NO_PATH
  {
    if ClimbPossible(diffY, theta) then Params(Fin(turn), Climb(m, diffY, theta, radius), Fin(0.0))
    else NO_PATH
  }

  /** The two fallbacks in sequence: a first turn above pi is replaced by
      `dropFirst`, then a last turn above pi by `dropLast`. When `dropFirst`
      gave up, its q is +inf > pi, so `dropLast` is tried as well. */
  function Fallbacks(x0: Params, dropFirst: Params, dropLast: Params): (x: Params)
    ensures x == x0 || x == dropFirst || x == dropLast
    ensures !Gt(x0.t, Fin(PI)) && !Gt(x0.q, Fin(PI)) ==> x == x0
    ensures !Gt(x0.t, Fin(PI)) && Gt(x0.q, Fin(PI)) ==> x == dropLast
    ensures Gt(x0.t, Fin(PI)) && !Gt(dropFirst.q, Fin(PI)) ==> x == dropFirst
    ensures Gt(x0.t, Fin(PI)) && Gt(dropFirst.q, Fin(PI)) ==> x == dropLast
    ensures Lt(Fin(PI), x0.t) && dropFirst == NO_PATH ==> x == dropLast
  {
    var x1 := if Gt(x0.t, Fin(PI)) then dropFirst else x0;
    if Gt(x1.q, Fin(PI)) then dropLast else x1
  }

  /** Shape of an LSL or RSR result: t and q are finite together, and then
      t >= 0, 0 <= q <= pi, and t exceeds pi only when the last turn was
      dropped. Otherwise all three are +inf. */
  predicate SingleDirectionShape(r: DubinsStruct) {
    && (r.t.Fin? <==> r.q.Fin?)
    && (!r.t.Fin? ==> AllInfinite(r))
    && (r.t.Fin? ==> 0.0 <= r.t.v && 0.0 <= r.q.v <= PI && (r.t.v <= PI || r.q.v == 0.0))
  }

  // ---------------------------------------------------------------------
  // The four families. The maneuver supplies qi, qf (y is height, heading is
  // pitch) and the radius.

  /** Centres of the two turning circles, their distance, and a direction
      between them. */
  datatype Centres = Centres(o1x: real, o1y: real, o2x: real, o2y: real, centerDistance: real, angle: real)

  /** Circles on the same side of both poses: to the left for side = 1 (LSL),
      to the right for side = -1 (RSR); `angle` is the direction o1 -> o2. */
  function Circles(m: Libm, man: Maneuver2D, side: real): (c: Centres)
    ensures Lawful(m) ==> c.centerDistance >= 0.0
    ensures Lawful(m) ==> (c.centerDistance == 0.0 <==> c.o1x == c.o2x && c.o1y == c.o2y)
  {
    var theta1, theta2 := man.qi.heading, man.qf.heading;
    var radius := man.rhomin;
    var o1x, o1y := man.qi.x - side * radius * m.sin(theta1), man.qi.y + side * radius * m.cos(theta1);
    var o2x, o2y := man.qf.x - side * radius * m.sin(theta2), man.qf.y + side * radius * m.cos(theta2);
    var dx, dy := o2x - o1x, o2y - o1y;
    SumOfSquares(dx, dy);
    Centres(o1x, o1y, o2x, o2y, m.sqrt(dx * dx + dy * dy), m.atan2(dy, dx))
  }

  /** The main solution of a single-direction family and its two fallbacks. */
  datatype Parts = Parts(x0: Params, dropFirst: Params, dropLast: Params)

  /** The LSL geometry: circles to the left of both poses, the outer tangent
      between them, and the fallbacks that keep only the turn theta2 - theta1. */
  function LslParts(m: Libm, man: Maneuver2D): (g: Parts)
    requires man.rhomin > 0.0
    ensures g.x0.t.Fin? && g.x0.p.Fin? && g.x0.q.Fin?
    ensures 0.0 <= g.x0.t.v < TWO_PI && 0.0 <= g.x0.q.v < TWO_PI
    ensures Lawful(m) ==> g.x0.p.v >= 0.0
    ensures g.dropFirst == NO_PATH || (g.dropFirst.t == Fin(0.0) && g.dropFirst.q == Fin(man.qf.heading - man.qi.heading))
    ensures g.dropLast == NO_PATH || (g.dropLast.t == Fin(man.qf.heading - man.qi.heading) && g.dropLast.q == Fin(0.0))
  {
    var theta1, theta2 := man.qi.heading, man.qf.heading;
    var radius := man.rhomin;
    var c := Circles(m, man, 1.0);
    Parts(
      Params(Fin(Mod2Pi(-theta1 + c.angle)), Fin(c.centerDistance / radius), Fin(Mod2Pi(theta2 - c.angle))),
      DropFirstTurn(m, theta2 - theta1, (c.o2y - radius * m.cos(theta1)) - man.qi.y, theta1, radius),
      DropLastTurn(m, theta2 - theta1, man.qf.y - (c.o1y - radius * m.cos(theta2)), theta2, radius))
  }

  /** The RSR geometry, mirroring LSL: circles to the right, single turn
      theta1 - theta2. */
  function RsrParts(m: Libm, man: Maneuver2D): (g: Parts)
    requires man.rhomin > 0.0
    ensures g.x0.t.Fin? && g.x0.p.Fin? && g.x0.q.Fin?
    ensures 0.0 <= g.x0.t.v < TWO_PI && 0.0 <= g.x0.q.v < TWO_PI
    ensures Lawful(m) ==> g.x0.p.v >= 0.0
    ensures g.dropFirst == NO_PATH || (g.dropFirst.t == Fin(0.0) && g.dropFirst.q == Fin(man.qi.heading - man.qf.heading))
    ensures g.dropLast == NO_PATH || (g.dropLast.t == Fin(man.qi.heading - man.qf.heading) && g.dropLast.q == Fin(0.0))
  {
    var theta1, theta2 := man.qi.heading, man.qf.heading;
    var radius := man.rhomin;
    var c := Circles(m, man, -1.0);
    Parts(
      Params(Fin(Mod2Pi(theta1 - c.angle)), Fin(c.centerDistance / radius), Fin(Mod2Pi(-theta2 + c.angle))),
      DropFirstTurn(m, theta1 - theta2, (c.o2y + radius * m.cos(theta1)) - man.qi.y, theta1, radius),
      DropLastTurn(m, theta1 - theta2, man.qf.y - (c.o1y + radius * m.cos(theta2)), theta2, radius))
  }

  /** Left-straight-left: only when theta1 <= theta2. A first turn above pi is
      dropped, then a last turn above pi is dropped (this also runs when the
      first fallback gave up, since +inf > pi). */
  function VLsl(m: Libm, man: Maneuver2D): (r: DubinsStruct)
    requires man.rhomin > 0.0
    ensures r.kind == LSL && LengthMatches(r, man.rhomin)
    ensures !(man.qi.heading <= man.qf.heading) ==> AllInfinite(r)
    ensures SingleDirectionShape(r)
  {
    if man.qi.heading <= man.qf.heading then
      var g := LslParts(m, man);
      var x := Fallbacks(g.x0, g.dropFirst, g.dropLast);
      Family(x.t, x.p, x.q, man.rhomin, LSL)
    else
      Family(PosInf, PosInf, PosInf, man.rhomin, LSL)
  }

  /** Right-straight-right: only when theta2 <= theta1, with the two
      fallbacks of LSL mirrored. */
  function VRsr(m: Libm, man: Maneuver2D): (r: DubinsStruct)
    requires man.rhomin > 0.0
    ensures r.kind == RSR && LengthMatches(r, man.rhomin)
    ensures !(man.qf.heading <= man.qi.heading) ==> AllInfinite(r)
    ensures SingleDirectionShape(r)
  {
    if man.qf.heading <= man.qi.heading then
      var g := RsrParts(m, man);
      var x := Fallbacks(g.x0, g.dropFirst, g.dropLast);
      Family(x.t, x.p, x.q, man.rhomin, RSR)
    else
      Family(PosInf, PosInf, PosInf, man.rhomin, RSR)
  }

  /** The horizontal run sqrt(4r^2 - dy^2) used when the crossing circles
      overlap. */
  function OverlapRun(m: Libm, radius: real, dy: real): real {
    m.sqrt(4.0 * radius * radius - dy * dy)
  }

  /** The straight length sqrt(max(cd^2 - 4r^2, 0)) between the tangent
      points of two crossing circles whose centres are cd apart. */
  function TangentRun(m: Libm, centerDistance: real, radius: real): real {
    m.sqrt(Max(centerDistance * centerDistance - 4.0 * radius * radius, 0.0))
  }

  /** The crossing geometry: circles on opposite sides, `sign` is +1 for LSR
      (left then right, centre angle plus alpha) and -1 for RSL. When the centres are closer than 2r, alpha
      is pi/2. */
  function CrossingOf(m: Libm, man: Maneuver2D, sign: real): (c: Centres)
    requires man.rhomin > 0.0
    ensures Lawful(m) ==> c.centerDistance >= 0.0
    ensures Lawful(m) ==> (c.centerDistance == 0.0 <==> c.o1x == c.o2x && c.o1y == c.o2y)
    ensures c.centerDistance < 2.0 * man.rhomin ==>
      c.angle == m.atan2(c.o2y - c.o1y, OverlapRun(m, man.rhomin, c.o2y - c.o1y)) + sign * (PI / 2.0)
    ensures c.centerDistance >= 2.0 * man.rhomin ==>
      c.angle == m.atan2(c.o2y - c.o1y, c.o2x - c.o1x) + sign * m.asin(2.0 * man.rhomin / c.centerDistance)
  {
    var theta1, theta2 := man.qi.heading, man.qf.heading;
    var radius := man.rhomin;
    var o1x, o1y := man.qi.x - sign * radius * m.sin(theta1), man.qi.y + sign * radius * m.cos(theta1);
    var o2x, o2y := man.qf.x + sign * radius * m.sin(theta2), man.qf.y - sign * radius * m.cos(theta2);
    var dx, dy := o2x - o1x, o2y - o1y;
    var centerDistance := m.sqrt(dx * dx + dy * dy);
    SumOfSquares(dx, dy);
    if centerDistance < 2.0 * radius then
      Centres(o1x, o1y, o2x, o2y, centerDistance, m.atan2(dy, OverlapRun(m, radius, dy)) + sign * (PI / 2.0))
    else
      Centres(o1x, o1y, o2x, o2y, centerDistance, m.atan2(dy, dx) + sign * m.asin(2.0 * radius / centerDistance))
  }

  /** The climb angle of the LSR straight segment: the crossing angle, or
      exactly pitchmax.1 when it is not below that limit. */
  function LsrClimbAngle(m: Libm, man: Maneuver2D, upper: real): (a: real)
    requires man.rhomin > 0.0
    ensures a <= upper
    ensures a <= CrossingOf(m, man, 1.0).angle
    ensures a == upper || a == CrossingOf(m, man, 1.0).angle
  {
    var g := CrossingOf(m, man, 1.0);
    if g.angle < upper then g.angle else upper
  }

  /** The climb angle of the RSL straight segment: the crossing angle, or
      exactly pitchmax.0 when it is not above that limit. */
  function RslClimbAngle(m: Libm, man: Maneuver2D, lower: real): (a: real)
    requires man.rhomin > 0.0
    ensures a >= lower
    ensures a >= CrossingOf(m, man, -1.0).angle
    ensures a == lower || a == CrossingOf(m, man, -1.0).angle
  {
    var g := CrossingOf(m, man, -1.0);
    if g.angle > lower then g.angle else lower
  }

  /** Left-straight-right. Unclamped, p = sqrt(max(cd^2 - 4r^2, 0)) / r;
      clamped, p is the height between the two tangent points over
      sin(pitchmax.1), in radii. */
  function VLsr(m: Libm, man: Maneuver2D, pitchmax: (real, real)): (r: DubinsStruct)
    requires man.rhomin > 0.0 && Lawful(m)
    ensures r.kind == LSR && LengthMatches(r, man.rhomin)
    ensures r.t == Fin(Mod2Pi(-man.qi.heading + LsrClimbAngle(m, man, pitchmax.1)))
    ensures r.q == Fin(Mod2Pi(-man.qf.heading + LsrClimbAngle(m, man, pitchmax.1)))
    ensures CrossingOf(m, man, 1.0).angle < pitchmax.1 ==> r.p.Fin? && r.p.v >= 0.0
    ensures var g := CrossingOf(m, man, 1.0);
      g.angle < pitchmax.1 ==>
        r.p == Fin(TangentRun(m, g.centerDistance, man.rhomin) / man.rhomin)
  {
    var theta1, theta2 := man.qi.heading, man.qf.heading;
    var radius := man.rhomin;
    var g := CrossingOf(m, man, 1.0);
    var centerAngle := LsrClimbAngle(m, man, pitchmax.1);
    var t := Mod2Pi(-theta1 + centerAngle);
    var q := Mod2Pi(-theta2 + centerAngle);
    if g.angle < pitchmax.1 then
      var root := TangentRun(m, g.centerDistance, radius);
      assert root / radius >= 0.0 by {
        assert root >= 0.0;
      }
      Family(Fin(t), Fin(root / radius), Fin(q), man.rhomin, LSR)
    else
      var c := radius * m.cos(centerAngle);
      var w1y := g.o1y - c;
      var w2y := g.o2y + c;
      Family(Fin(t), Div(Div(Fin(w2y - w1y), Fin(m.sin(centerAngle))), Fin(radius)), Fin(q), man.rhomin, LSR)
  }

  /** Right-straight-left, the mirror of LSR against pitchmax.0. */
  function VRsl(m: Libm, man: Maneuver2D, pitchmax: (real, real)): (r: DubinsStruct)
    requires man.rhomin > 0.0 && Lawful(m)
    ensures r.kind == RSL && LengthMatches(r, man.rhomin)
    ensures r.t == Fin(Mod2Pi(man.qi.heading - RslClimbAngle(m, man, pitchmax.0)))
    ensures r.q == Fin(Mod2Pi(man.qf.heading - RslClimbAngle(m, man, pitchmax.0)))
    ensures CrossingOf(m, man, -1.0).angle > pitchmax.0 ==> r.p.Fin? && r.p.v >= 0.0
    ensures var g := CrossingOf(m, man, -1.0);
      g.angle > pitchmax.0 ==>
        r.p == Fin(TangentRun(m, g.centerDistance, man.rhomin) / man.rhomin)
  {
    var theta1, theta2 := man.qi.heading, man.qf.heading;
    var radius := man.rhomin;
    var g := CrossingOf(m, man, -1.0);
    var centerAngle := RslClimbAngle(m, man, pitchmax.0);
    var t := Mod2Pi(theta1 - centerAngle);
    var q := Mod2Pi(theta2 - centerAngle);
    if g.angle > pitchmax.0 then
      var root := TangentRun(m, g.centerDistance, radius);
      assert root / radius >= 0.0 by {
        assert root >= 0.0;
      }
      Family(Fin(t), Fin(root / radius), Fin(q), man.rhomin, RSL)
    else
      var c := radius * m.cos(centerAngle);
      var w1y := g.o1y + c;
      var w2y := g.o2y - c;
      Family(Fin(t), Div(Div(Fin(w2y - w1y), Fin(m.sin(centerAngle))), Fin(radius)), Fin(q), man.rhomin, RSL)
  }

  // ---------------------------------------------------------------------
  // Headings: every family with finite turns ends at the goal pitch.

  /** Turns that are either the main solution, normalised, or one turn of
      exactly `turn` with the other dropped, add up to `turn` modulo 2*pi. */
  lemma FallbacksTurn(g: Parts, turn: real)
    requires g.x0.t.Fin? && g.x0.q.Fin? && Mod2Pi(g.x0.t.v + g.x0.q.v) == Mod2Pi(turn)
    requires g.dropFirst == NO_PATH || (g.dropFirst.t == Fin(0.0) && g.dropFirst.q == Fin(turn))
    requires g.dropLast == NO_PATH || (g.dropLast.t == Fin(turn) && g.dropLast.q == Fin(0.0))
    ensures var x := Fallbacks(g.x0, g.dropFirst, g.dropLast);
      x.t.Fin? && x.q.Fin? ==> Mod2Pi(x.t.v + x.q.v) == Mod2Pi(turn)
  {
    var x := Fallbacks(g.x0, g.dropFirst, g.dropLast);
    if x.t.Fin? && x.q.Fin? && x != g.x0 {
      assert x.t.v + x.q.v == turn;
    }
  }

  /** The main LSL solution turns by theta2 - theta1 modulo 2*pi. */
  lemma LslMainTurn(m: Libm, man: Maneuver2D)
    requires man.rhomin > 0.0
    ensures var x0 := LslParts(m, man).x0;
      x0.t.Fin? && x0.q.Fin? && Mod2Pi(x0.t.v + x0.q.v) == Mod2Pi(man.qf.heading - man.qi.heading)
  {
    var theta1, theta2 := man.qi.heading, man.qf.heading;
    var centerAngle := Circles(m, man, 1.0).angle;
    Mod2PiAddsTurns(-theta1 + centerAngle, theta2 - centerAngle);
    assert (-theta1 + centerAngle) + (theta2 - centerAngle) == theta2 - theta1;
  }

  /** The main RSR solution turns by theta1 - theta2 modulo 2*pi. */
  lemma RsrMainTurn(m: Libm, man: Maneuver2D)
    requires man.rhomin > 0.0
    ensures var x0 := RsrParts(m, man).x0;
      x0.t.Fin? && x0.q.Fin? && Mod2Pi(x0.t.v + x0.q.v) == Mod2Pi(man.qi.heading - man.qf.heading)
  {
    var theta1, theta2 := man.qi.heading, man.qf.heading;
    var centerAngle := Circles(m, man, -1.0).angle;
    Mod2PiAddsTurns(theta1 - centerAngle, -theta2 + centerAngle);
    assert (theta1 - centerAngle) + (-theta2 + centerAngle) == theta1 - theta2;
  }

  /** LSL ends at the goal pitch. */
  lemma VLslTurnsToGoal(m: Libm, man: Maneuver2D)
    requires man.rhomin > 0.0
    ensures TurnsTo(VLsl(m, man), man.qi.heading, man.qf.heading)
  {
    var theta1, theta2 := man.qi.heading, man.qf.heading;
    var r := VLsl(m, man);
    if theta1 <= theta2 && Feasible(r) {
      var g := LslParts(m, man);
      var x := Fallbacks(g.x0, g.dropFirst, g.dropLast);
      assert r.t == x.t && r.q == x.q;
      LslMainTurn(m, man);
      FallbacksTurn(g, theta2 - theta1);
      Mod2PiShift(x.t.v + x.q.v, theta2 - theta1, theta1);
      assert EndHeading(r, theta1) == x.t.v + x.q.v + theta1;
      assert theta2 - theta1 + theta1 == theta2;
    }
  }

  /** RSR ends at the goal pitch. */
  lemma VRsrTurnsToGoal(m: Libm, man: Maneuver2D)
    requires man.rhomin > 0.0
    ensures TurnsTo(VRsr(m, man), man.qi.heading, man.qf.heading)
  {
    var theta1, theta2 := man.qi.heading, man.qf.heading;
    var r := VRsr(m, man);
    if theta2 <= theta1 && Feasible(r) {
      var g := RsrParts(m, man);
      var x := Fallbacks(g.x0, g.dropFirst, g.dropLast);
      assert r.t == x.t && r.q == x.q;
      RsrMainTurn(m, man);
      FallbacksTurn(g, theta1 - theta2);
      Mod2PiReflect(x.t.v + x.q.v, theta1 - theta2, theta1);
      assert EndHeading(r, theta1) == theta1 - (x.t.v + x.q.v);
      assert theta1 - (theta1 - theta2) == theta2;
    }
  }

  /** LSR ends at the goal pitch, and its straight segment climbs at the
      (possibly clamped) crossing angle, never above pitchmax.1. */
  lemma VLsrTurnsToGoal(m: Libm, man: Maneuver2D, pitchmax: (real, real))
    requires man.rhomin > 0.0 && Lawful(m)
    ensures var r := VLsr(m, man, pitchmax);
      && TurnsTo(r, man.qi.heading, man.qf.heading)
      && Mod2Pi(man.qi.heading + r.t.v) == Mod2Pi(LsrClimbAngle(m, man, pitchmax.1))
  {
    var theta1, theta2 := man.qi.heading, man.qf.heading;
    var a := LsrClimbAngle(m, man, pitchmax.1);
    assert -theta1 + a == a - theta1 && -theta2 + a == a - theta2;
    LeftThenRight(theta1, theta2, a);
  }

  /** RSL ends at the goal pitch, and its straight segment climbs at the
      (possibly clamped) crossing angle, never below pitchmax.0. */
  lemma VRslTurnsToGoal(m: Libm, man: Maneuver2D, pitchmax: (real, real))
    requires man.rhomin > 0.0 && Lawful(m)
    ensures var r := VRsl(m, man, pitchmax);
      && TurnsTo(r, man.qi.heading, man.qf.heading)
      && Mod2Pi(man.qi.heading - r.t.v) == Mod2Pi(RslClimbAngle(m, man, pitchmax.0))
  {
    RightThenLeft(man.qi.heading, man.qf.heading, RslClimbAngle(m, man, pitchmax.0));
  }

  // ---------------------------------------------------------------------
  // Candidates and the first-match filter.

  /** The four family results in the order get_vertical lists them. */
  function ListOrder(lsr: DubinsStruct, lsl: DubinsStruct, rsr: DubinsStruct, rsl: DubinsStruct, rhomin: real)
    : (r: seq<DubinsStruct>)
    requires lsr.kind == LSR && lsl.kind == LSL && rsr.kind == RSR && rsl.kind == RSL
    requires LengthMatches(lsr, rhomin) && LengthMatches(lsl, rhomin)
    requires LengthMatches(rsr, rhomin) && LengthMatches(rsl, rhomin)
    ensures |r| == 4
    ensures r[0].kind == LSR && r[1].kind == LSL && r[2].kind == RSR && r[3].kind == RSL
    ensures forall c :: c in r ==> LengthMatches(c, rhomin) && c.kind != NONE_CASE && c.kind.a != NoSegment
  {
    [lsr, lsl, rsr, rsl]
  }

  function VCandidates(m: Libm, man: Maneuver2D, pitchmax: (real, real)): (r: seq<DubinsStruct>)
    requires man.rhomin > 0.0 && Lawful(m)
    ensures |r| == 4
    ensures r[0].kind == LSR && r[1].kind == LSL && r[2].kind == RSR && r[3].kind == RSL
    ensures forall c :: c in r ==> LengthMatches(c, man.rhomin) && c.kind != NONE_CASE && c.kind.a != NoSegment
  {
    ListOrder(VLsr(m, man, pitchmax), VLsl(m, man), VRsr(m, man), VRsl(m, man, pitchmax), man.rhomin)
  }

  /** The pitch at the end of the first turn: qi + t after a left turn,
      qi - t after a right one. */
  function CenterAngle(ds: DubinsStruct, pitch: real): (a: real)
    requires ds.t.Fin?
    ensures ds.kind.a == Left || ds.kind.a == Right ==> a == HeadingAfter(ds.kind.a, pitch, ds.t.v)
  {
    if ds.kind.a == Left then pitch + ds.t.v else pitch - ds.t.v
  }

  /** The filter: both turns shorter than pi, and the climb angle within the
      pitch limits, both ends included. */
  predicate Admissible(ds: DubinsStruct, pitch: real, pitchmax: (real, real))
    ensures Admissible(ds, pitch, pitchmax) <==>
      && ds.t.Fin? && ds.q.Fin? && -PI < ds.t.v < PI && -PI < ds.q.v < PI
      && pitchmax.0 <= CenterAngle(ds, pitch) <= pitchmax.1
  {
    && Lt(Abs(ds.t), Fin(PI)) && Lt(Abs(ds.q), Fin(PI))
    && !(CenterAngle(ds, pitch) < pitchmax.0 || CenterAngle(ds, pitch) > pitchmax.1)
  }

  /** Reference definition: the index of the first admissible element (|s|
      when there is none). */
  function FirstAdmissible(s: seq<DubinsStruct>, pitch: real, pitchmax: (real, real)): (i: nat)
    ensures i <= |s|
    ensures forall j :: 0 <= j < i ==> !Admissible(s[j], pitch, pitchmax)
    ensures i < |s| ==> Admissible(s[i], pitch, pitchmax)
  {
    if s == [] then 0
    else if Admissible(s[0], pitch, pitchmax) then 0
    else 1 + FirstAdmissible(s[1..], pitch, pitchmax)
  }

  /** One more inadmissible element extends the inadmissible prefix. */
  lemma SkipInadmissible(s: seq<DubinsStruct>, pitch: real, pitchmax: (real, real), i: nat)
    requires i < |s|
    requires forall j :: 0 <= j < i ==> !Admissible(s[j], pitch, pitchmax)
    requires !Admissible(s[i], pitch, pitchmax)
    ensures forall j :: 0 <= j < i + 1 ==> !Admissible(s[j], pitch, pitchmax)
  {
  }

  /** The index that satisfies FirstAdmissible's contract is its result. */
  lemma FirstAdmissibleIs(s: seq<DubinsStruct>, pitch: real, pitchmax: (real, real), i: nat)
    requires i <= |s|
    requires forall j :: 0 <= j < i ==> !Admissible(s[j], pitch, pitchmax)
    requires i < |s| ==> Admissible(s[i], pitch, pitchmax)
    ensures FirstAdmissible(s, pitch, pitchmax) == i
  {
  }

  /** The first admissible path of a sorted list, UNSET when there is none. */
  function PickAdmissible(sorted: seq<DubinsStruct>, pitch: real, pitchmax: (real, real)): (r: DubinsStruct)
    ensures (forall c :: c in sorted ==> !Admissible(c, pitch, pitchmax)) ==> r == UNSET
    ensures (exists c :: c in sorted && Admissible(c, pitch, pitchmax)) ==> r in sorted && Admissible(r, pitch, pitchmax)
    ensures forall j :: 0 <= j < |sorted| && Admissible(sorted[j], pitch, pitchmax) ==> r in sorted[..j + 1]
  {
    var i := FirstAdmissible(sorted, pitch, pitchmax);
    if i < |sorted| then sorted[i] else UNSET
  }

  /** For any list of candidates with real kinds: picking from its sorted
      order gives UNSET exactly when no candidate is admissible, and
      otherwise an admissible candidate no longer than any admissible one. */
  lemma PickSelectsShortestAdmissible(cands: seq<DubinsStruct>, pitch: real, pitchmax: (real, real))
    requires forall c :: c in cands ==> c.kind != NONE_CASE
    ensures var ds := PickAdmissible(SortByLength(cands), pitch, pitchmax);
      && (ds == UNSET <==> forall c :: c in cands ==> !Admissible(c, pitch, pitchmax))
      && (ds != UNSET ==> ds in cands && Admissible(ds, pitch, pitchmax))
      && (ds != UNSET ==> forall c :: c in cands && Admissible(c, pitch, pitchmax) ==> NotAfter(ds, c))
  {
    var sorted := SortByLength(cands);
    SortByLengthProperties(cands);
    SortByLengthSameElements(cands);
    FirstAdmissibleIsShortest(sorted, pitch, pitchmax);
    var i := FirstAdmissible(sorted, pitch, pitchmax);
    if i < |sorted| {
      assert sorted[i] in cands;
      assert sorted[i] != UNSET;
    }
  }

  /** In a sorted list, the first admissible element is no longer than any
      admissible element. */
  lemma FirstAdmissibleIsShortest(sorted: seq<DubinsStruct>, pitch: real, pitchmax: (real, real))
    requires SortedByLength(sorted)
    ensures var i := FirstAdmissible(sorted, pitch, pitchmax);
      forall j :: 0 <= j < |sorted| && Admissible(sorted[j], pitch, pitchmax) ==>
        i < |sorted| && NotAfter(sorted[i], sorted[j])
  {
    var i := FirstAdmissible(sorted, pitch, pitchmax);
    forall j | 0 <= j < |sorted| && Admissible(sorted[j], pitch, pitchmax)
      ensures i < |sorted| && NotAfter(sorted[i], sorted[j])
    {
      assert j >= i;
      if j == i {
        CompareIsTotalOrder(sorted[j].length, sorted[j].length, sorted[j].length);
      }
    }
  }

  /** get_vertical as a function of its inputs. */
  function Vertical(m: Libm, qi: Pose, qf: Pose, rhomin: real, pitchmax: (real, real)): (r: Maneuver2D)
    requires rhomin > 0.0 && Lawful(m)
    ensures r.qi == qi && r.qf == qf && r.rhomin == rhomin
    ensures r.maneuver == UNSET || (r.maneuver in VCandidates(m, Maneuver2D(qi, qf, rhomin, UNSET), pitchmax)
      && Admissible(r.maneuver, qi.heading, pitchmax))
  {
    var man := Maneuver2D(qi, qf, rhomin, UNSET);
    var sorted := SortByLength(VCandidates(m, man, pitchmax));
    var ds := PickAdmissible(sorted, qi.heading, pitchmax);
    assert ds != UNSET ==> ds in multiset(sorted);
    man.(maneuver := ds)
  }

  /** get_vertical: builds the four candidates, sorts them and scans with
      `continue` / `break` for the first admissible one. */
  method GetVertical(m: Libm, qi: Pose, qf: Pose, rhomin: real, pitchmax: (real, real)) returns (maneuver: Maneuver2D)
    requires rhomin > 0.0 && Lawful(m)
    ensures maneuver == Vertical(m, qi, qf, rhomin, pitchmax)
  {
    maneuver := Maneuver2D(qi, qf, rhomin, UNSET);

    var pathLsl := VLsl(m, maneuver);
    var pathRsr := VRsr(m, maneuver);
    var pathLsr := VLsr(m, maneuver, pitchmax);
    var pathRsl := VRsl(m, maneuver, pitchmax);
    var paths := [pathLsr, pathLsl, pathRsr, pathRsl];
    assert paths == VCandidates(m, maneuver, pitchmax);

    paths := SortByLength(paths);

    var i := 0;
    while i < |paths|
      invariant 0 <= i <= |paths|
      invariant forall j :: 0 <= j < i ==> !Admissible(paths[j], qi.heading, pitchmax)
      invariant maneuver == Maneuver2D(qi, qf, rhomin, UNSET)
    {
      var path := paths[i];
      if Lt(Abs(path.t), Fin(PI)) && Lt(Abs(path.q), Fin(PI)) {
        var centerAngle: real;
        if path.kind.a == Left {
          centerAngle := maneuver.qi.heading + path.t.v;
        } else {
          centerAngle := maneuver.qi.heading - path.t.v;
        }
        if centerAngle < pitchmax.0 || centerAngle > pitchmax.1 {
          SkipInadmissible(paths, qi.heading, pitchmax, i);
          i := i + 1;
          continue;
        }
        FirstAdmissibleIs(paths, qi.heading, pitchmax, i);
        maneuver := maneuver.(maneuver := path);
        break;
      }
      SkipInadmissible(paths, qi.heading, pitchmax, i);
      i := i + 1;
    }
    if i == |paths| {
      FirstAdmissibleIs(paths, qi.heading, pitchmax, i);
    }
  }

  // ---------------------------------------------------------------------
  // Properties of the result.

  /** The result keeps qi, qf and rhomin. It is UNSET exactly when no
      candidate is admissible; otherwise it is an admissible candidate no
      longer than any other admissible one. */
  lemma VerticalSelectsShortestAdmissible(m: Libm, qi: Pose, qf: Pose, rhomin: real, pitchmax: (real, real))
    requires rhomin > 0.0 && Lawful(m)
    ensures var man := Vertical(m, qi, qf, rhomin, pitchmax);
      var cands := VCandidates(m, Maneuver2D(qi, qf, rhomin, UNSET), pitchmax);
      var ds := man.maneuver;
      && man.qi == qi && man.qf == qf && man.rhomin == rhomin
      && (ds == UNSET <==> forall c :: c in cands ==> !Admissible(c, qi.heading, pitchmax))
      && (ds != UNSET ==> ds in cands && Admissible(ds, qi.heading, pitchmax))
      && (ds != UNSET ==> forall c :: c in cands && Admissible(c, qi.heading, pitchmax) ==> NotAfter(ds, c))
  {
    var cands := VCandidates(m, Maneuver2D(qi, qf, rhomin, UNSET), pitchmax);
    PickSelectsShortestAdmissible(cands, qi.heading, pitchmax);
  }

  /** Ties among admissible candidates go to the earlier one: the selected
      path sits at an index of the candidate list before which no admissible
      candidate has its length. */
  lemma VerticalBreaksTiesByOrder(m: Libm, qi: Pose, qf: Pose, rhomin: real, pitchmax: (real, real))
    requires rhomin > 0.0 && Lawful(m)
    ensures var cands := VCandidates(m, Maneuver2D(qi, qf, rhomin, UNSET), pitchmax);
      var ds := Vertical(m, qi, qf, rhomin, pitchmax).maneuver;
      ds != UNSET ==> FirstAdmissibleOfItsLength(cands, ds, qi.heading, pitchmax)
  {
    PickBreaksTiesByOrder(VCandidates(m, Maneuver2D(qi, qf, rhomin, UNSET), pitchmax), qi.heading, pitchmax);
  }

  /** x occurs in s at an index before which no admissible element of s has
      x's length. */
  predicate FirstAdmissibleOfItsLength(s: seq<DubinsStruct>, x: DubinsStruct, pitch: real, pitchmax: (real, real)) {
    exists k :: 0 <= k < |s| && s[k] == x &&
      forall j :: 0 <= j < k && Admissible(s[j], pitch, pitchmax) ==> s[j].length != x.length
  }

  /** Ties among admissible candidates go to the earlier one: the pick sits
      at an index of the candidate list before which no admissible candidate
      has its length. */
  lemma PickBreaksTiesByOrder(cands: seq<DubinsStruct>, pitch: real, pitchmax: (real, real))
    ensures var ds := PickAdmissible(SortByLength(cands), pitch, pitchmax);
      ds != UNSET ==> FirstAdmissibleOfItsLength(cands, ds, pitch, pitchmax)
  {
    var sorted := SortByLength(cands);
    SortByLengthProperties(cands);
    var i := FirstAdmissible(sorted, pitch, pitchmax);
    if i < |sorted| {
      var v := sorted[i].length;
      StableOccurrence(cands, sorted, i);
      var k :| (0 <= k < |cands| && cands[k] == sorted[i] &&
        forall j :: 0 <= j < k && cands[j].length == v ==> cands[j] in sorted[..i]);
      forall j | 0 <= j < k && Admissible(cands[j], pitch, pitchmax)
        ensures cands[j].length != v
      {
      }
    }
  }

  /** Picking from candidates of real kinds yields a NONE first segment
      exactly when no candidate is admissible. */
  lemma PickFindsNothingExactly(cands: seq<DubinsStruct>, pitch: real, pitchmax: (real, real))
    requires forall c :: c in cands ==> c.kind.a != NoSegment
    ensures PickAdmissible(SortByLength(cands), pitch, pitchmax).kind.a == NoSegment <==>
      forall c :: c in cands ==> !Admissible(c, pitch, pitchmax)
  {
    PickSelectsShortestAdmissible(cands, pitch, pitchmax);
  }

  /** The result's first segment is NONE exactly when no candidate is
      admissible, which is the test the bound estimators make. */
  lemma VerticalFindsNothingExactly(m: Libm, qi: Pose, qf: Pose, rhomin: real, pitchmax: (real, real))
    requires rhomin > 0.0 && Lawful(m)
    ensures var ds := Vertical(m, qi, qf, rhomin, pitchmax).maneuver;
      var cands := VCandidates(m, Maneuver2D(qi, qf, rhomin, UNSET), pitchmax);
      ds.kind.a == NoSegment <==> forall c :: c in cands ==> !Admissible(c, qi.heading, pitchmax)
  {
    PickFindsNothingExactly(VCandidates(m, Maneuver2D(qi, qf, rhomin, UNSET), pitchmax), qi.heading, pitchmax);
  }

  /** A selected path climbs within the limits: its pitch after the first turn
      lies in [pitchmax.0, pitchmax.1], and both turns are shorter than pi. */
  lemma VerticalRespectsPitchLimits(m: Libm, qi: Pose, qf: Pose, rhomin: real, pitchmax: (real, real))
    requires rhomin > 0.0 && Lawful(m)
    ensures var ds := Vertical(m, qi, qf, rhomin, pitchmax).maneuver;
      ds != UNSET ==>
        && ds.t.Fin? && ds.q.Fin? && -PI < ds.t.v < PI && -PI < ds.q.v < PI
        && pitchmax.0 <= CenterAngle(ds, qi.heading) <= pitchmax.1
  {
    VerticalSelectsShortestAdmissible(m, qi, qf, rhomin, pitchmax);
  }

  /** A selected path ends at the goal pitch, up to whole turns. */
  lemma VerticalTurnsToGoal(m: Libm, qi: Pose, qf: Pose, rhomin: real, pitchmax: (real, real))
    requires rhomin > 0.0 && Lawful(m)
    ensures var ds := Vertical(m, qi, qf, rhomin, pitchmax).maneuver;
      ds != UNSET ==> TurnsTo(ds, qi.heading, qf.heading)
  {
    VerticalSelectsShortestAdmissible(m, qi, qf, rhomin, pitchmax);
    VCandidatesTurnToGoal(m, Maneuver2D(qi, qf, rhomin, UNSET), pitchmax);
  }

  /** Every candidate ends at the goal pitch, up to whole turns. */
  lemma VCandidatesTurnToGoal(m: Libm, man: Maneuver2D, pitchmax: (real, real))
    requires man.rhomin > 0.0 && Lawful(m)
    ensures forall c :: c in VCandidates(m, man, pitchmax) ==> TurnsTo(c, man.qi.heading, man.qf.heading)
  {
    VLslTurnsToGoal(m, man);
    VRsrTurnsToGoal(m, man);
    VLsrTurnsToGoal(m, man, pitchmax);
    VRslTurnsToGoal(m, man, pitchmax);
    assert VCandidates(m, man, pitchmax) == [VLsr(m, man, pitchmax), VLsl(m, man), VRsr(m, man), VRsl(m, man, pitchmax)];
  }
}
