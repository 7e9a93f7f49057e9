# Dubins paths in 3D: a Dafny model of the decision logic

This project models the planning core of the `dubins3d` crate in Dafny:

- **Angle normaliser** (`src/lib.rs`): `mod2pi`.
- **Planar Dubins solver** (`src/dubins2d.rs`):
  - six closed-form families, with infeasible ones marked by `+inf`;
  - a full circle substituted when start and goal coincide;
  - a stable, NaN-last sort, then selection of the shortest candidate or of the first one reaching a length floor;
  - the segment dispatcher that samples a chosen path.
- **Pitch-plane solver** (`src/vertical.rs`): four families with heading-order guards, single-turn fallbacks and crossing angles clamped to the pitch limits, followed by a first-match filter.
- **3D composer** (`src/dubins3d.rs`): the constructor's doubling search and line search over the horizontal radius, `try_to_construct`, the two bound estimators and the sampler.

Scalars are Dafny `real`s. Path parameters and lengths are `Float.Ext`: a finite real, `+inf`, `-inf` or NaN, with IEEE-style addition, multiplication, division and comparisons. The libm functions (`sin`, `cos`, `atan`, `atan2`, `asin`, `acos`, `sqrt`) are fields of a `MathLib.Libm` record and are left uninterpreted. Every statement therefore holds for any choice of them that satisfies `Lawful`: `sqrt` is non-negative, zero at zero, and positive on positive arguments.

Modules:

| module | covers |
|---|---|
| `Float`, `MathLib` | f64 values, libm |
| `Lib` | `src/lib.rs`: `PI`, `mod2pi`, `State`, angle algebra |
| `Paths` | records and comparator shared by both solvers |
| `Dubins2D` | `src/dubins2d.rs` |
| `Vertical` | `src/vertical.rs` |
| `Dubins3D` | `src/dubins3d.rs` |

Code that changes state step by step is written as methods with loops, each proved equal to a specification function:

- `Dubins2D.New` is proved equal to `Dubins2D.Solve`.
- `Vertical.GetVertical` is proved equal to `Vertical.Vertical`.
- `Dubins3D.Widen` and `Dubins3D.Refine` are the constructor's two loops, and `Dubins3D.New` runs them.
- `Dubins3D.ComputeSampling` is proved equal to `Dubins3D.SampleAt`, point by point.

The families, the dispatcher, `try_to_construct` and the bound estimators are functions, as in the source.

The source's literal behaviours are kept:

- The RLR rejection test in `try_to_construct` is written twice, so LRL is never rejected (src/dubins3d.rs:182-183).
- The lower bound gives `rhomin`, not the spiral radius, to the pitch-plane solver (src/dubins3d.rs:98).
- `try_to_construct` solves the longitudinal plane with the planar solver, CCC enabled (src/dubins3d.rs:180).
- The constructor's candidate `fa`, built at factor 1, is always empty, which is proved (src/dubins3d.rs:39, 47-49).

## Model

| member | source | states |
|---|---|---|
| Float.Add | src/dubins2d.rs:142 | a sum is finite iff both operands are; it is +inf iff one operand is +inf and the other is neither NaN nor -inf |
| Float.Mul | src/dubins2d.rs:142 | a product is finite iff both factors are |
| Float.Abs | src/vertical.rs:44 | `abs` is never -inf, and non-negative when finite |
| Float.LtIsStrictTotalOrder | src/dubins2d.rs:118 | `<` is irreflexive, transitive and asymmetric, and total on non-NaN values (what `partial_cmp(..).unwrap()` relies on) |
| Float.InfiniteSumIsInfinite | src/dubins2d.rs:175-185 | the `+inf` sentinel parameters give length `+inf` for a positive radius |
| MathLib.Max | src/dubins2d.rs:102-103 | `max` is an upper bound equal to one of its arguments |
| MathLib.AbsR | src/dubins2d.rs:101 | `abs` is non-negative and equals x or -x |
| Lib.Trunc | src/lib.rs:3 | truncation toward zero: within 1 of x, on the side of zero |
| Lib.Rem2Pi | src/lib.rs:3 | `th % (2*pi)` has the sign of th and magnitude below 2*pi |
| Lib.Mod2Pi | src/lib.rs:2-8 | the result lies in [0, 2*pi) |
| Lib.Mod2PiMatchesSource | src/lib.rs:2-8 | the floored remainder equals the source's truncated remainder, moved up by 2*pi when negative |
| Lib.Mod2PiDiffersByWholeTurns | src/lib.rs:3-7 | mod2pi(th) - th is an integer multiple of 2*pi |
| Lib.Mod2PiPeriodic | src/lib.rs:3-7 | adding k whole turns does not change mod2pi |
| Lib.SameAngle | src/lib.rs:3-7 | angles a whole number of turns apart normalise equally |
| Lib.Mod2PiFixesCanonical | src/lib.rs:3-7 | an angle in [0, 2*pi) is returned unchanged |
| Lib.Mod2PiIdempotent | src/lib.rs:3-7 | mod2pi(mod2pi(th)) == mod2pi(th) |
| Lib.Mod2PiOfSum | src/lib.rs:3-7 | normalising one summand first does not change the normalised sum |
| Lib.Mod2PiAddsTurns | src/lib.rs:3-7 | normalising both summands first does not change the normalised sum |
| Lib.SameNormalisation | src/lib.rs:3-7 | equal normalisations imply a whole-turn difference |
| Lib.Mod2PiShift | src/lib.rs:3-7 | equal normalisations stay equal after adding the same angle |
| Lib.Mod2PiReflect | src/lib.rs:3-7 | equal normalisations stay equal when subtracted from the same angle |
| Lib.AddNormalised | src/lib.rs:3-7 | a normalised summand may be replaced by its angle under mod2pi |
| Lib.SubtractNormalised | src/lib.rs:3-7 | a normalised subtrahend may be replaced by its angle under mod2pi |
| Lib.LeftThenLeft | src/dubins2d.rs:138-141 | LSL turns: h0 + mod2pi(a - h0) + mod2pi(h1 - a) normalises to h1 |
| Lib.RightThenRight | src/dubins2d.rs:156-159 | RSR turns: h0 - mod2pi(h0 - a) - mod2pi(a - h1) normalises to h1 |
| Lib.LeftThenRight | src/dubins2d.rs:180-182 | LSR turns: the first turn reaches a, and the second reaches h1 |
| Lib.RightThenLeft | src/dubins2d.rs:205-207 | RSL turns: the first turn reaches a, and the second reaches h1 |
| Lib.RightLeftRight | src/dubins2d.rs:229-231 | RLR turns: the last turn mod2pi(h0 - h1 - t + p) ends at h1 |
| Lib.LeftRightLeft | src/dubins2d.rs:252-254 | LRL turns: the last turn mod2pi(h1 - h0 - t + p) ends at h1 |
| Paths.FeasibleLength | src/dubins2d.rs:142 | a feasible family's length is (t + p + q) * rhomin |
| Paths.WellFormedLength | src/dubins2d.rs:175-185 | a well-formed family has finite length iff it is feasible; it is the all-+inf sentinel iff its length is +inf; a finite length is non-negative |
| Paths.TurnsToRotate | src/dubins2d.rs:77-79 | turning h0 into h1 is invariant under rotating both headings and adding whole turns |
| Paths.CompareLengths | src/dubins2d.rs:111-120 | the comparator says Equal iff the lengths are equal, and Less iff x < y or only y is NaN (NaN last) |
| Paths.CompareIsTotalOrder | src/dubins2d.rs:111-120 | the comparator is antisymmetric and transitive, strictly and non-strictly |
| Paths.InsertByLengthElements | src/dubins2d.rs:111 | one insertion step adds exactly x to the multiset |
| Paths.InsertByLengthSorted | src/dubins2d.rs:111 | insertion keeps a list sorted by the comparator |
| Paths.InsertByLengthStable | src/dubins2d.rs:111 | insertion places x behind every element of equal length |
| Paths.SortByLengthProperties | src/dubins2d.rs:111-120 | `sort_by` yields a sorted permutation that keeps elements of equal length in their original order (stability) |
| Paths.StableOccurrence | src/dubins2d.rs:111-120 | when the sort keeps each length class in order, the element at sorted index i sits at an index k of the input before which every element of its length also precedes i in the sorted list |
| Paths.SortByLengthSameElements | src/dubins2d.rs:111-120 | sorting keeps the length and the element set |
| Paths.SortByLength | src/dubins2d.rs:111-120 | sorting keeps the number of candidates and their multiset |
| Paths.SelectPath | src/dubins2d.rs:122-132 | the selection is a candidate or the initial value; with floor -inf over a sorted list it is no longer than any candidate; with a floor, a selected candidate reaches it, and the initial value (when it is not itself a candidate) means that none does |
| Paths.EarliestShortest | src/dubins2d.rs:111-123 | reference definition: the minimal candidate, and no earlier candidate has its length |
| Paths.SortedHeadIsEarliestShortest | src/dubins2d.rs:111-123 | the head of the sorted list is the earliest shortest candidate |
| Paths.FirstAtLeast | src/dubins2d.rs:126-131 | reference definition: every earlier element is below the floor and the returned one reaches it |
| Paths.SelectedIsCandidate | src/dubins2d.rs:122-132 | the selected path is a candidate or the initial value |
| Paths.FloorSelectsShortestQualifying | src/dubins2d.rs:122-132 | with a floor: the initial value iff no candidate reaches it, otherwise a candidate reaching it that is no longer than any other that does |
| Paths.FloorBreaksTiesByOrder | src/dubins2d.rs:122-132 | with a floor, the selected path sits at an index of the candidate list before which no candidate has its length: ties go to the earlier candidate |
| Dubins2D.NormalizedFrame | src/dubins2d.rs:72-79 | d >= 0, and a, b lie in [0, 2*pi) |
| Dubins2D.Coincident | src/dubins2d.rs:100-104 | when the test passes, the normalised distance and both coordinate differences are below rhomin * 1e-5 |
| Dubins2D.Lsl | src/dubins2d.rs:137-153 | LSL is always feasible, with non-negative parameters and the family length |
| Dubins2D.Rsr | src/dubins2d.rs:155-171 | RSR is always feasible, with non-negative parameters and the family length |
| Dubins2D.Lsr | src/dubins2d.rs:173-196 | LSR is the +inf sentinel iff aux1 <= 0; otherwise p = sqrt(aux1) > 0 and t, q lie in [0, 2*pi) |
| Dubins2D.Rsl | src/dubins2d.rs:198-221 | RSL is the +inf sentinel iff aux1 <= 0; otherwise p = sqrt(aux1) > 0 and t, q lie in [0, 2*pi) |
| Dubins2D.Rlr | src/dubins2d.rs:223-244 | RLR is the +inf sentinel iff abs(aux) > 1; otherwise t, p, q are in [0, 2*pi) |
| Dubins2D.Lrl | src/dubins2d.rs:246-267 | LRL is the +inf sentinel iff abs(aux) > 1; otherwise t, p, q are in [0, 2*pi) |
| Dubins2D.C | src/dubins2d.rs:269-279 | the circle is RRR with length 2*pi*rhomin |
| Dubins2D.LslTurnsToGoal | src/dubins2d.rs:137-153 | LSL turns heading a into b, up to whole turns |
| Dubins2D.RsrTurnsToGoal | src/dubins2d.rs:155-171 | RSR turns heading a into b, up to whole turns |
| Dubins2D.LsrTurnsToGoal | src/dubins2d.rs:173-196 | a feasible LSR turns a into b |
| Dubins2D.RslTurnsToGoal | src/dubins2d.rs:198-221 | a feasible RSL turns a into b |
| Dubins2D.RlrShapeTurns | src/dubins2d.rs:229-231 | an RLR whose q is mod2pi(a - b - t + p) turns a into b |
| Dubins2D.LrlShapeTurns | src/dubins2d.rs:252-254 | an LRL whose q is mod2pi(b - a - t + p) turns a into b |
| Dubins2D.RlrTurnsToGoal | src/dubins2d.rs:223-244 | a feasible RLR turns a into b |
| Dubins2D.LrlTurnsToGoal | src/dubins2d.rs:246-267 | a feasible LRL turns a into b |
| Dubins2D.CircleReturnsToStartHeading | src/dubins2d.rs:269-279 | the full circle ends at its start heading |
| Dubins2D.Families | src/dubins2d.rs:84-98 | the families appear in the order LSL, RSR, LSR, RSL, then RLR, LRL unless CCC is disabled; all are well formed, and the first is feasible |
| Dubins2D.CandidatesShape | src/dubins2d.rs:92-109 | coincident poses give exactly [circle]; otherwise the family order above; every candidate is well formed; the head has finite length |
| Dubins2D.Candidates | src/dubins2d.rs:92-109 | one candidate for coincident poses, otherwise four with CCC disabled and six with it |
| Dubins2D.Solve | src/dubins2d.rs:57-134 | qi, qf and rhomin are kept, and the selected path is UNSET or one of the candidates |
| Dubins2D.CollectCandidates | src/dubins2d.rs:72-109 | the pushed, extended and cleared `_paths` equals the candidate list |
| Dubins2D.New | src/dubins2d.rs:57-134 | the method (collect, sort, scan with `break`) returns the maneuver of `Solve` |
| Dubins2D.SolveNoFloorPicksEarliestShortest | src/dubins2d.rs:111-124 | with floor -inf the result is the earliest shortest candidate, and it is feasible with finite non-negative length |
| Dubins2D.NoFloorPicksFeasible | src/dubins2d.rs:122-124 | over well-formed candidates with a finite head, no floor selects a feasible earliest shortest one |
| Dubins2D.SolveWithFloor | src/dubins2d.rs:59-70 | with a floor: UNSET (t = p = q = 0, length +inf, case NONE) iff no candidate reaches it, otherwise a shortest candidate that does |
| Dubins2D.SolveBreaksTiesByOrder | src/dubins2d.rs:59-70 | with a floor, the selected path sits at an index of the candidate list before which no candidate has its length: ties go to the earlier candidate |
| Dubins2D.SolveCoincidentIsCircle | src/dubins2d.rs:100-109 | coincident poses give (0, 2*pi, 0, 2*pi*rhomin, RRR), or UNSET when the floor exceeds that length |
| Dubins2D.FamiliesTurnToGoal | src/dubins2d.rs:84-90 | every family turns a into b in the normalised frame |
| Dubins2D.FrameTurnsToPoses | src/dubins2d.rs:76-79 | turning a into b in the frame means turning qi's heading into qf's |
| Dubins2D.FamiliesTurnToPoses | src/dubins2d.rs:72-98 | every family turns qi's heading into qf's, and none is the circle |
| Dubins2D.CandidatesTurnToPoses | src/dubins2d.rs:72-109 | every non-circle candidate turns qi's heading into qf's; the circle returns to qi's |
| Dubins2D.SolveTurnsToGoal | src/dubins2d.rs:57-134 | a selected path other than the circle turns qi's heading into qf's |
| Dubins2D.GetPositionInSegment | src/dubins2d.rs:308-332 | heading + offset for LEFT, - offset for RIGHT, unchanged for STRAIGHT; NONE gives (0, 0, 0); offset 0 is the identity |
| Dubins2D.GetCoordinatesAt | src/dubins2d.rs:281-306 | the heading is the dispatched segment's heading, normalised into [0, 2*pi) |
| Dubins2D.CoordinatesAtStart | src/dubins2d.rs:281-306 | offset 0 gives the start pose |
| Dubins2D.PoseAlong | src/dubins2d.rs:286-300 | the segment dispatch: below t the heading is the first turn's heading at that offset; in [t, t + p) it is the second segment's heading at offset − t from where the first ends; from t + p on it is the third segment's heading at offset − t − p from where the second ends; at offsets t and t + p the next segment starts at the heading the previous one ends with |
| Dubins2D.PoseAlongEndHeading | src/dubins2d.rs:286-300 | at n_offset = t + p + q the third segment gives the path's end heading |
| Dubins2D.CoordinatesAtEndHeading | src/dubins2d.rs:281-303 | the offset covering the whole path reaches the normalised end heading |
| Dubins2D.WalkToEndHeading | src/dubins2d.rs:281-303 | walking a path's full length ends at the heading it turns to |
| Dubins2D.SolveEndsAtGoalHeading | src/dubins2d.rs:281-306 | walking the selected non-circle path's full length ends at qf's heading |
| Vertical.DropFirstTurn | src/vertical.rs:92-105 | the fallback is t = 0, q = theta2 - theta1 when the climb is possible, otherwise all +inf |
| Vertical.DropLastTurn | src/vertical.rs:106-119 | the fallback is t = theta2 - theta1, q = 0 when the climb is possible, otherwise all +inf |
| Vertical.Fallbacks | src/vertical.rs:92-119 | the main solution when neither of its turns exceeds pi; the drop-first fallback when only t exceeds pi and that fallback's q does not; the drop-last fallback when q exceeds pi, either the main q or, after t exceeded pi, the drop-first q (+inf when it gave up) |
| Vertical.Circles | src/vertical.rs:76-86 | the centre distance is non-negative, and zero iff the two centres coincide |
| Vertical.LslParts | src/vertical.rs:76-119 | the main solution is finite with t, q in [0, 2*pi) and p >= 0; each fallback is all +inf or turns exactly theta2 - theta1 in one turn (the last for drop-first, the first for drop-last) |
| Vertical.RsrParts | src/vertical.rs:151-194 | the same as LslParts, with the single turn theta1 - theta2 |
| Vertical.CrossingOf | src/vertical.rs:227-244 | the centre distance is non-negative and zero iff the centres coincide; closer than 2r, alpha is pi/2 and the run is sqrt(4r^2 - dy^2); otherwise the angle is atan2(dy, dx) plus or minus asin(2r / distance) |
| Vertical.VLsl | src/vertical.rs:63-136 | all +inf unless theta1 <= theta2; t, q finite together, t >= 0, 0 <= q <= pi; family length |
| Vertical.VRsr | src/vertical.rs:138-211 | all +inf unless theta2 <= theta1; the same shape as LSL |
| Vertical.LsrClimbAngle | src/vertical.rs:244-252 | the angle used is min(crossing angle, pitchmax.1): never above either, and equal to one of them, so a crossing angle below the limit is kept unchanged |
| Vertical.RslClimbAngle | src/vertical.rs:310-318 | the angle used is max(crossing angle, pitchmax.0): never below either, and equal to one of them, so a crossing angle above the limit is kept unchanged |
| Vertical.VLsr | src/vertical.rs:214-278 | t = mod2pi(-theta1 + angle), q = mod2pi(-theta2 + angle); unclamped, p = sqrt(max(cd² − 4r², 0)) / r, finite and non-negative |
| Vertical.VRsl | src/vertical.rs:280-344 | t = mod2pi(theta1 - angle), q = mod2pi(theta2 - angle); unclamped, p = sqrt(max(cd² − 4r², 0)) / r, finite and non-negative |
| Vertical.FallbacksTurn | src/vertical.rs:92-119 | the main solution and both fallbacks all turn by the same angle modulo 2*pi |
| Vertical.LslMainTurn | src/vertical.rs:88-90 | the main LSL turns add to theta2 - theta1 modulo 2*pi |
| Vertical.RsrMainTurn | src/vertical.rs:163-165 | the main RSR turns add to theta1 - theta2 modulo 2*pi |
| Vertical.VLslTurnsToGoal | src/vertical.rs:63-136 | a feasible LSL ends at the goal pitch |
| Vertical.VRsrTurnsToGoal | src/vertical.rs:138-211 | a feasible RSR ends at the goal pitch |
| Vertical.VLsrTurnsToGoal | src/vertical.rs:244-254 | LSR ends at the goal pitch, and its first turn ends at the (clamped) climb angle |
| Vertical.VRslTurnsToGoal | src/vertical.rs:310-320 | RSL ends at the goal pitch, and its first turn ends at the (clamped) climb angle |
| Vertical.ListOrder | src/vertical.rs:29 | four candidates, in the order LSR, LSL, RSR, RSL |
| Vertical.VCandidates | src/vertical.rs:25-29 | four candidates in the order LSR, LSL, RSR, RSL, with family lengths and real first segments |
| Vertical.CenterAngle | src/vertical.rs:45-51 | for a LEFT or RIGHT first segment, the pitch reached at the end of the first turn |
| Vertical.Admissible | src/vertical.rs:44-54 | passes iff t and q are finite with absolute value below pi and the centre angle lies in [pitchmax.0, pitchmax.1] |
| Vertical.FirstAdmissible | src/vertical.rs:43-58 | reference definition: every earlier element fails the filter and the returned one passes |
| Vertical.PickAdmissible | src/vertical.rs:43-58 | UNSET when nothing is admissible; otherwise an admissible element that occurs no later than any admissible element |
| Vertical.PickSelectsShortestAdmissible | src/vertical.rs:32-58 | picking from the sorted list gives UNSET iff nothing is admissible, otherwise an admissible candidate no longer than any admissible one |
| Vertical.PickBreaksTiesByOrder | src/vertical.rs:32-58 | the pick sits at an index of the candidate list before which no admissible candidate has its length: ties go to the earlier candidate |
| Vertical.PickFindsNothingExactly | src/vertical.rs:43-60 | the pick has a NONE first segment iff no candidate is admissible |
| Vertical.GetVertical | src/vertical.rs:11-61 | the method (sort, then scan with `continue`/`break`) returns the maneuver of `Vertical` |
| Vertical.Vertical | src/vertical.rs:11-61 | qi, qf and rhomin are kept, and the selected path is UNSET or an admissible candidate |
| Vertical.VerticalSelectsShortestAdmissible | src/vertical.rs:11-61 | qi, qf, rhomin are kept; UNSET iff no candidate is admissible; otherwise a shortest admissible candidate |
| Vertical.VerticalBreaksTiesByOrder | src/vertical.rs:11-61 | the selected path sits at an index of the candidate list before which no admissible candidate has its length: ties go to the earlier candidate |
| Vertical.VerticalFindsNothingExactly | src/vertical.rs:11-61 | the result's case is NONE iff no candidate passes the filter |
| Vertical.VerticalRespectsPitchLimits | src/vertical.rs:43-56 | a selected path has abs(t), abs(q) < pi, and its centre angle is in [pitchmax.0, pitchmax.1] |
| Vertical.VCandidatesTurnToGoal | src/vertical.rs:25-29 | every candidate ends at the goal pitch |
| Vertical.VerticalTurnsToGoal | src/vertical.rs:11-61 | a selected path ends at the goal pitch |
| Dubins3D.PlanarPath | src/dubins3d.rs:165-168 | the lateral solve keeps the (x, y, yaw) poses and the radius, and is walkable with finite non-negative length |
| Dubins3D.Lateral | src/dubins3d.rs:165-168 | the same, for the poses of a 3D problem |
| Dubins3D.Longitudinal | src/dubins3d.rs:170-180 | radius 1/curvature, from (0, z_i, pitch_i) to (lateral length, z_f, pitch_f); walkable, finite length, t >= 0 |
| Dubins3D.Unfloored | src/dubins3d.rs:168-180 | the solve with floor -inf used by both planes keeps the poses and the radius, and is walkable with finite non-negative length |
| Dubins3D.VerticalCurvature | src/dubins3d.rs:173 | the curvature left for the pitch plane is non-negative, and zero when the horizontal radius is rhomin |
| Dubins3D.PitchWithinLimits | src/dubins3d.rs:187-196 | a RIGHT-first path passes iff its pitch after the first turn is >= pitchlims.0; any other passes iff pitch + t <= pitchlims.1 |
| Dubins3D.TryToConstruct | src/dubins3d.rs:164-198 | the result has 0 or 2 elements; in a non-empty one both sub-paths are walkable and the longitudinal length is finite and non-negative |
| Dubins3D.TryToConstructCases | src/dubins3d.rs:164-198 | empty iff curvature < 1e-5, or the case is RLR, or the first turn leaves the pitch limits; otherwise [dlat, dlon] |
| Dubins3D.NoCompositionAtMinRadius | src/dubins3d.rs:173-176 | at horizontal radius rhomin nothing is composed (so `fa` is always empty) |
| Dubins3D.ComposedPathShape | src/dubins3d.rs:164-198 | a composition chains lateral and longitudinal, is not RLR, and keeps the first turn within the limits |
| Dubins3D.LrlIsNotRejected | src/dubins3d.rs:182-185 | an LRL longitudinal path that passes the pitch test is composed, because the duplicated test only rejects RLR |
| Dubins3D.Widen | src/dubins3d.rs:36-45 | b = 2^k after k doublings, no earlier factor composed, and fb is the attempt at b; an empty fb means fuel ran out |
| Dubins3D.Refine | src/dubins3d.rs:59-72 | the factor stays >= 1, fb stays the two-element composition at it, and its length never increases |
| Dubins3D.New | src/dubins3d.rs:26-78 | qi, qf, rhomin and the pitch limits are stored; either unconstructed (empty path, length -1) or a composition at a factor >= 1, with length = path[1] length, no longer than the first composition found, and ready for compute_sampling |
| Dubins3D.Compose | src/dubins3d.rs:92-107 | empty with the `missing` length iff no pitch-plane candidate is admissible; otherwise [dlat, dlon], with dlon's length, its endpoints chained, and its climb within the limits |
| Dubins3D.SafeRadius | src/dubins3d.rs:120 | sqrt(2) * rhomin is positive |
| Dubins3D.SpiralRadius | src/dubins3d.rs:90 | non-negative for a non-negative rhomin, and zero when the cosine of the steeper limit is zero |
| Dubins3D.PlanarDistance | src/dubins3d.rs:121-122 | non-negative, and zero iff start and goal share x and y |
| Dubins3D.LowerBound | src/dubins3d.rs:80-108 | length 0 and an empty path iff the pitch plane has no admissible path; otherwise [dlat, dlon] at (spiral radius, rhomin), with dlon's length |
| Dubins3D.UpperBound | src/dubins3d.rs:110-144 | an empty path with length +inf iff the planar distance is < 4 safe radii or no pitch-plane path is admissible; otherwise [dlat, dlon] at the safe radius |
| Dubins3D.SampleAt | src/dubins3d.rs:152-157 | both angles of a sample lie in [0, 2*pi) |
| Dubins3D.ComputeSampling | src/dubins3d.rs:146-161 | exactly max(n, 0) points, point i = SampleAt(i) |
| Dubins3D.Progress | src/dubins3d.rs:153 | sample 0 is at progress 0 |
| Dubins3D.ProgressReachesEndAtN | src/dubins3d.rs:152-153 | progress n would be the full length; the loop over 0..n never takes it |
| Dubins3D.ProgressIsMonotone | src/dubins3d.rs:153 | the progress of samples is non-negative and non-decreasing for a non-negative length |
| Dubins3D.ProgressStopsShortOfEnd | src/dubins3d.rs:152-153 | every sample lies strictly before the end of a path of positive length |
| Dubins3D.FirstSampleIsStart | src/dubins3d.rs:152-157 | sample 0 is the start state, with angles normalised |

## Left out

- Floating-point rounding, signed zero and every other IEEE detail beyond infinities and NaN. Reals are exact. For example, `mod2pi` of a tiny negative angle rounding up to exactly 2*pi is not modelled.
- The libm functions are uninterpreted. Nothing is claimed about trigonometric geometry: reaching the goal position, optimality of a family, or mirror symmetry. The heading results hold for any libm.
- NaN from `sqrt` of a negative argument is not modelled: `sqrt` returns some non-negative real everywhere.
- Dubins2D.New, Dubins2D.Solve: require rhomin > 0 and a lawful libm. For rhomin <= 0 the source divides by zero or scales lengths by a non-positive radius; that case is not modelled.
- Vertical.GetVertical, Vertical.Vertical: require rhomin > 0, for the same reason.
- Dubins3D.New: requires rhomin > 0. Its two loops run for at most `fuel` iterations each, because neither loop has a provable bound. When the doubling loop runs out of fuel, the early return at src/dubins3d.rs:51-56 fires. Without a fuel bound that return is unreachable.
- Dubins3D.LowerBound: also requires the spiral radius rhomin * cos(...)^2 to be positive. A zero spiral radius (pitch limit of +-pi/2) is not modelled.
- Dubins3D.ComputeSampling: requires a path of two walkable sub-paths (`Sampleable`). The source panics when `path` is shorter, and that is not modelled.
- The stable `sort_by` is modelled as an insertion sort on `seq`, not as an in-place sort of the `Vec`. Any stable sort yields the same sequence.
- `DubinsManeuver2D::new` builds its list in `Dubins2D.CollectCandidates`, and `Dubins2D.New` then sorts and scans it.
- Lib.Mod2Pi is written as the floored remainder, and Lib.Mod2PiMatchesSource proves it equal to the source's truncated remainder plus the 2*pi adjustment.
- The `fmt::Debug` impl for `SegmentType` (src/dubins2d.rs:15-24) is presentation only and is not part of this model.
- examples/example1.rs (CSV output) and scripts/plot_path.py (plotting) are I/O and are not part of this model.
