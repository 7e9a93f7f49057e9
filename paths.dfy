/** The path records of src/dubins2d.rs, shared by the planar and the vertical
    solver, and the NaN-last comparator both solvers sort their candidates with
    (a stable sort, as Rust's `sort_by` is). */
module Paths {
  import opened Float
  import opened Lib

  datatype SegmentType = Right | Straight | Left | NoSegment

  /** Three segment kinds: first turn, middle, last turn. */
  datatype ManeuverCase = ManeuverCase(a: SegmentType, b: SegmentType, c: SegmentType)

  const NONE_CASE := ManeuverCase(NoSegment, NoSegment, NoSegment)
  const LSL := ManeuverCase(Left, Straight, Left)
  const RSR := ManeuverCase(Right, Straight, Right)
  const LSR := ManeuverCase(Left, Straight, Right)
  const RSL := ManeuverCase(Right, Straight, Left)
  const RLR := ManeuverCase(Right, Left, Right)
  const LRL := ManeuverCase(Left, Right, Left)
  const RRR := ManeuverCase(Right, Right, Right)

  /** One candidate path: the three segment lengths in units of the radius,
      the total length and the segment kinds. `kind` is the source's `case`. */
  datatype DubinsStruct = DubinsStruct(t: Ext, p: Ext, q: Ext, length: Ext, kind: ManeuverCase)

  /** A planar pose; in the vertical plane x is progress, y elevation and
      heading the pitch. */
  datatype Pose = Pose(x: real, y: real, heading: real)

  datatype Maneuver2D = Maneuver2D(qi: Pose, qf: Pose, rhomin: real, maneuver: DubinsStruct)

  /** The value a solver starts from and keeps when it selects nothing. */
  const UNSET := DubinsStruct(Fin(0.0), Fin(0.0), Fin(0.0), PosInf, NONE_CASE)

  /** length == (t + p + q) * rhomin, in f64 arithmetic. */
  predicate LengthMatches(ds: DubinsStruct, rhomin: real) {
    ds.length == Mul(Add(Add(ds.t, ds.p), ds.q), Fin(rhomin))
  }

  /** A family result with its length computed as (t + p + q) * rhomin. */
  function Family(t: Ext, p: Ext, q: Ext, rhomin: real, kind: ManeuverCase): (r: DubinsStruct)
    ensures LengthMatches(r, rhomin) && r.kind == kind && r.t == t && r.p == p && r.q == q
  {
    DubinsStruct(t, p, q, Mul(Add(Add(t, p), q), Fin(rhomin)), kind)
  }

  /** The infeasibility sentinel of a family: every parameter is +inf. */
  predicate AllInfinite(ds: DubinsStruct) {
    ds.t == PosInf && ds.p == PosInf && ds.q == PosInf
  }

  predicate Feasible(ds: DubinsStruct) {
    ds.t.Fin? && ds.p.Fin? && ds.q.Fin?
  }

  /** A family result of the planar solver: either the all-infinite sentinel
      or three finite non-negative parameters; the length agrees either way. */
  predicate WellFormed(ds: DubinsStruct, rhomin: real) {
    && LengthMatches(ds, rhomin)
    && (AllInfinite(ds) || (Feasible(ds) && ds.t.v >= 0.0 && ds.p.v >= 0.0 && ds.q.v >= 0.0))
  }

  /** The length of a feasible result is (t + p + q) * rhomin. */
  lemma FeasibleLength(ds: DubinsStruct, rhomin: real)
    requires LengthMatches(ds, rhomin) && Feasible(ds)
    ensures ds.length == Fin((ds.t.v + ds.p.v + ds.q.v) * rhomin)
  {
  }

  /** A well-formed result is finite exactly when it is not the sentinel. */
  lemma WellFormedLength(ds: DubinsStruct, rhomin: real)
    requires rhomin > 0.0 && WellFormed(ds, rhomin)
    ensures ds.length.Fin? <==> Feasible(ds)
    ensures AllInfinite(ds) <==> ds.length == PosInf
    ensures Feasible(ds) ==> ds.length.v >= 0.0
  {
    if Feasible(ds) {
      var s := ds.t.v + ds.p.v + ds.q.v;
      assert ds.length == Fin(s * rhomin);
      assert s * rhomin >= 0.0;
    }
  }

  /** The heading at the end of a segment of the given kind and length, as
      get_position_in_segment computes it (NONE yields heading 0). */
  function HeadingAfter(kind: SegmentType, heading: real, offset: real): real {
    match kind
    case Left => heading + offset
    case Right => heading - offset
    case Straight => heading
    case NoSegment => 0.0
  }

  /** The heading reached after all three segments, starting from h0. */
  function EndHeading(ds: DubinsStruct, h0: real): real
    requires Feasible(ds)
  {
    HeadingAfter(ds.kind.c, HeadingAfter(ds.kind.b, HeadingAfter(ds.kind.a, h0, ds.t.v), ds.p.v), ds.q.v)
  }

  /** A feasible path turns the heading h0 into h1, up to whole turns. */
  predicate TurnsTo(ds: DubinsStruct, h0: real, h1: real) {
    Feasible(ds) ==> Mod2Pi(EndHeading(ds, h0)) == Mod2Pi(h1)
  }

  /** Shifting both headings by the same amount preserves TurnsTo. */
  lemma TurnsToRotate(ds: DubinsStruct, h0: real, h1: real, c: real, k0: int, k1: int)
    requires ds.kind.a != NoSegment && ds.kind.b != NoSegment && ds.kind.c != NoSegment
    requires TurnsTo(ds, h0, h1)
    ensures TurnsTo(ds, h0 + c + WholeTurns(k0), h1 + c + WholeTurns(k1))
  {
    if Feasible(ds) {
      var g0, g1 := h0 + c + WholeTurns(k0), h1 + c + WholeTurns(k1);
      var e := EndHeading(ds, h0);
      assert EndHeading(ds, g0) == e + c + WholeTurns(k0);
      SameNormalisation(e, h1);
      var j := Winding(e) - Winding(h1);
      assert EndHeading(ds, g0) == g1 + WholeTurns(j + k0 - k1);
      SameAngle(EndHeading(ds, g0), g1, j + k0 - k1);
    }
  }

  // ---------------------------------------------------------------------
  // The comparator of `_paths.sort_by` (src/dubins2d.rs:111-120, repeated
  // at src/vertical.rs:32-41).

  datatype Ordering = Less | Equal | Greater

  /** NaN is greater than everything else and equal to NaN; other values are
      compared by `partial_cmp`, which is total on them. */
  function CompareLengths(x: Ext, y: Ext): (r: Ordering)
    ensures r == Equal <==> x == y
    ensures r == Less <==> (Lt(x, y) || (!x.NaN? && y.NaN?))
  {
    match (IsNan(x), IsNan(y))
    case (true, true) => Equal
    case (true, false) => Greater
    case (false, true) => Less
    case (false, false) => if Lt(x, y) then Less else if Lt(y, x) then Greater else Equal
  }

  /** The comparator is a total order on lengths: antisymmetric, transitive,
      and it calls two lengths equal only when they are the same value. */
  lemma CompareIsTotalOrder(x: Ext, y: Ext, z: Ext)
    ensures CompareLengths(x, y) == Less <==> CompareLengths(y, x) == Greater
    ensures CompareLengths(x, y) != Greater && CompareLengths(y, z) != Greater ==> CompareLengths(x, z) != Greater
    ensures CompareLengths(x, y) == Less && CompareLengths(y, z) != Greater ==> CompareLengths(x, z) == Less
  {
    LtIsStrictTotalOrder(x, y, z);
    LtIsStrictTotalOrder(y, x, z);
  }

  predicate NotAfter(x: DubinsStruct, y: DubinsStruct) {
    CompareLengths(x.length, y.length) != Greater
  }

  predicate SortedByLength(s: seq<DubinsStruct>) {
    forall i, j :: 0 <= i < j < |s| ==> NotAfter(s[i], s[j])
  }

  /** Inserts x behind every element that is not greater than it. */
  function InsertByLength(x: DubinsStruct, s: seq<DubinsStruct>): (r: seq<DubinsStruct>)
    ensures |r| == |s| + 1
  {
    if s == [] then [x]
    else if CompareLengths(s[0].length, x.length) == Greater then [x] + s
    else [s[0]] + InsertByLength(x, s[1..])
  }

  /** The stable sort of `sort_by` with the comparator above (insertion sort;
      any stable sort yields the same sequence). */
  function SortByLength(s: seq<DubinsStruct>): (r: seq<DubinsStruct>)
    ensures |r| == |s|
    ensures multiset(r) == multiset(s)
  {
    if s == [] then []
    else
      var init, last := s[..|s| - 1], s[|s| - 1];
      assert s == init + [last];
      InsertByLengthElements(last, SortByLength(init));
      InsertByLength(last, SortByLength(init))
  }

  /** The elements of s whose length is exactly v, in their order in s. */
  function WithLength(s: seq<DubinsStruct>, v: Ext): seq<DubinsStruct> {
    if s == [] then []
    else (if s[0].length == v then [s[0]] else []) + WithLength(s[1..], v)
  }

  lemma {:induction false} WithLengthAppend(s: seq<DubinsStruct>, x: DubinsStruct, v: Ext)
    ensures WithLength(s + [x], v) == WithLength(s, v) + (if x.length == v then [x] else [])
  {
    if s != [] {
      assert (s + [x])[1..] == s[1..] + [x];
      WithLengthAppend(s[1..], x, v);
    }
  }

  lemma {:induction false} WithLengthNone(s: seq<DubinsStruct>, v: Ext)
    requires forall i :: 0 <= i < |s| ==> s[i].length != v
    ensures WithLength(s, v) == []
  {
    if s != [] {
      WithLengthNone(s[1..], v);
    }
  }

  lemma {:induction false} InsertByLengthElements(x: DubinsStruct, s: seq<DubinsStruct>)
    ensures multiset(InsertByLength(x, s)) == multiset(s) + multiset{x}
  {
    if s != [] && CompareLengths(s[0].length, x.length) != Greater {
      InsertByLengthElements(x, s[1..]);
      assert s == [s[0]] + s[1..];
    }
  }

  lemma SortedTail(s: seq<DubinsStruct>)
    requires s != [] && SortedByLength(s)
    ensures SortedByLength(s[1..])
  {
    forall i, j | 0 <= i < j < |s| - 1
      ensures NotAfter(s[1..][i], s[1..][j])
    {
      assert s[1..][i] == s[i + 1] && s[1..][j] == s[j + 1];
    }
  }

  lemma {:induction false} InsertByLengthSorted(x: DubinsStruct, s: seq<DubinsStruct>)
    requires SortedByLength(s)
    ensures SortedByLength(InsertByLength(x, s))
  {
    var r := InsertByLength(x, s);
    if s == [] {
    } else if CompareLengths(s[0].length, x.length) == Greater {
      forall j | 0 <= j < |s|
        ensures NotAfter(x, s[j])
      {
        CompareIsTotalOrder(x.length, s[0].length, s[j].length);
      }
      assert forall j :: 0 < j < |r| ==> r[j] == s[j - 1];
    } else {
      var rest := InsertByLength(x, s[1..]);
      SortedTail(s);
      InsertByLengthSorted(x, s[1..]);
      InsertByLengthElements(x, s[1..]);
      forall k | 0 <= k < |rest|
        ensures NotAfter(s[0], rest[k])
      {
        assert rest[k] in multiset(rest);
        if rest[k] == x {
          CompareIsTotalOrder(x.length, s[0].length, x.length);
        } else {
          assert rest[k] in multiset(s[1..]);
          var i :| 0 <= i < |s[1..]| && s[1..][i] == rest[k];
          assert s[i + 1] == rest[k];
        }
      }
      assert forall j :: 0 < j < |r| ==> r[j] == rest[j - 1];
    }
  }

  /** Inserting in front of a sorted list whose head is longer: no element of
      the list has x's length, so x is the only one of that length. */
  lemma InsertInFrontStable(x: DubinsStruct, s: seq<DubinsStruct>, v: Ext)
    requires s != [] && SortedByLength(s) && CompareLengths(s[0].length, x.length) == Greater
    ensures WithLength([x] + s, v) == WithLength(s, v) + (if x.length == v then [x] else [])
  {
    var r := [x] + s;
    assert r[0] == x && r[1..] == s;
    if x.length == v {
      forall j | 0 <= j < |s|
        ensures s[j].length != v
      {
        CompareIsTotalOrder(x.length, s[0].length, s[j].length);
      }
      WithLengthNone(s, v);
    }
  }

  lemma {:induction false} InsertByLengthStable(x: DubinsStruct, s: seq<DubinsStruct>, v: Ext)
    requires SortedByLength(s)
    ensures WithLength(InsertByLength(x, s), v) == WithLength(s, v) + (if x.length == v then [x] else [])
  {
    var tail := if x.length == v then [x] else [];
    var r := InsertByLength(x, s);
    if s == [] {
      assert r == [x];
      assert WithLength(r, v) == tail + WithLength([], v);
    } else if CompareLengths(s[0].length, x.length) == Greater {
      InsertInFrontStable(x, s, v);
    } else {
      var head := if s[0].length == v then [s[0]] else [];
      var rest := InsertByLength(x, s[1..]);
      SortedTail(s);
      InsertByLengthStable(x, s[1..], v);
      assert r == [s[0]] + rest;
      assert r[0] == s[0] && r[1..] == rest;
      calc {
        WithLength(r, v);
        head + WithLength(rest, v);
        head + (WithLength(s[1..], v) + tail);
        (head + WithLength(s[1..], v)) + tail;
        WithLength(s, v) + tail;
      }
    }
  }

  lemma {:induction false} WithLengthSplit(a: seq<DubinsStruct>, b: seq<DubinsStruct>, v: Ext)
    ensures WithLength(a + b, v) == WithLength(a, v) + WithLength(b, v)
  {
    if a == [] {
      assert a + b == b;
    } else {
      var head := if a[0].length == v then [a[0]] else [];
      var ab := a + b;
      assert ab[0] == a[0] && ab[1..] == a[1..] + b;
      calc {
        WithLength(ab, v);
        head + WithLength(a[1..] + b, v);
        { WithLengthSplit(a[1..], b, v); }
        head + (WithLength(a[1..], v) + WithLength(b, v));
        (head + WithLength(a[1..], v)) + WithLength(b, v);
      }
    }
  }

  lemma {:induction false} WithLengthMember(s: seq<DubinsStruct>, v: Ext, j: nat)
    requires j < |s| && s[j].length == v
    ensures s[j] in WithLength(s, v)
  {
    if j > 0 {
      assert s[1..][j - 1] == s[j];
      WithLengthMember(s[1..], v, j - 1);
    }
  }

  lemma {:induction false} WithLengthSubset(s: seq<DubinsStruct>, v: Ext, c: DubinsStruct)
    requires c in WithLength(s, v)
    ensures c in s && c.length == v
  {
    if s != [] && !(s[0].length == v && c == s[0]) {
      WithLengthSubset(s[1..], v, c);
    }
  }

  /** An element of the length-v subsequence of s sits at some index k of s,
      and the part of the subsequence before it is drawn from s[..k]. */
  lemma {:induction false} LocateInWithLength(s: seq<DubinsStruct>, v: Ext,
                                               a: seq<DubinsStruct>, x: DubinsStruct, b: seq<DubinsStruct>)
    requires WithLength(s, v) == a + [x] + b
    ensures exists k :: 0 <= k < |s| && s[k] == x && WithLength(s[..k], v) == a
  {
    var w := a + [x] + b;
    assert s != [];
    var head := if s[0].length == v then [s[0]] else [];
    var rest := WithLength(s[1..], v);
    assert w == head + rest;
    if s[0].length == v && a == [] {
      assert w[0] == x;
      assert (head + rest)[0] == s[0];
      assert s[..0] == [];
      assert WithLength(s[..0], v) == [];
    } else {
      var a' := if s[0].length == v then a[1..] else a;
      assert rest == a' + [x] + b by {
        if s[0].length == v {
          assert a != [] && w == [a[0]] + (a[1..] + [x] + b);
          assert rest == w[1..];
        }
      }
      LocateInWithLength(s[1..], v, a', x, b);
      var k' :| 0 <= k' < |s[1..]| && s[1..][k'] == x && WithLength(s[1..][..k'], v) == a';
      var k := k' + 1;
      var pre := s[..k];
      assert pre[0] == s[0] && pre[1..] == s[1..][..k'];
      assert WithLength(pre, v) == head + a';
      assert head + a' == a by {
        if s[0].length == v {
          assert a != [] && w[0] == a[0] && w[0] == s[0];
        }
      }
      assert s[k] == x;
    }
  }

  lemma WithLengthSplitAt(r: seq<DubinsStruct>, i: nat, v: Ext)
    requires i <= |r|
    ensures WithLength(r, v) == WithLength(r[..i], v) + WithLength(r[i..], v)
  {
    assert r[..i] + r[i..] == r;
    WithLengthSplit(r[..i], r[i..], v);
  }

  lemma WithLengthAt(r: seq<DubinsStruct>, i: nat)
    requires i < |r|
    ensures WithLength(r[i..], r[i].length) == [r[i]] + WithLength(r[i + 1..], r[i].length)
  {
    var rest := r[i..];
    assert rest[0] == r[i] && rest[1..] == r[i + 1..];
  }

  /** The length-v subsequence of r, split around index i. */
  lemma WithLengthAround(r: seq<DubinsStruct>, i: nat)
    requires i < |r|
    ensures WithLength(r, r[i].length) ==
      WithLength(r[..i], r[i].length) + [r[i]] + WithLength(r[i + 1..], r[i].length)
  {
    WithLengthSplitAt(r, i, r[i].length);
    WithLengthAt(r, i);
  }

  /** Every element of s[..k] with length v is in the length-v subsequence of s[..k]. */
  lemma PrefixClassMembers(s: seq<DubinsStruct>, k: nat, v: Ext)
    requires k <= |s|
    ensures forall j :: 0 <= j < k && s[j].length == v ==> s[j] in WithLength(s[..k], v)
  {
    forall j | 0 <= j < k && s[j].length == v
      ensures s[j] in WithLength(s[..k], v)
    {
      assert s[..k][j] == s[j];
      WithLengthMember(s[..k], v, j);
    }
  }

  /** Stability, located: when r keeps the order of the elements of s whose
      length is r[i]'s, r[i] sits at some index k of s such that every earlier
      element of s with that length also comes before index i in r. */
  lemma StableOccurrence(s: seq<DubinsStruct>, r: seq<DubinsStruct>, i: nat)
    requires i < |r| && WithLength(r, r[i].length) == WithLength(s, r[i].length)
    ensures exists k :: (0 <= k < |s| && s[k] == r[i] &&
      forall j :: 0 <= j < k && s[j].length == r[i].length ==> s[j] in r[..i])
  {
    var v := r[i].length;
    var before := r[..i];
    WithLengthAround(r, i);
    LocateInWithLength(s, v, WithLength(before, v), r[i], WithLength(r[i + 1..], v));
    var k :| 0 <= k < |s| && s[k] == r[i] && WithLength(s[..k], v) == WithLength(before, v);
    PrefixClassMembers(s, k, v);
    forall j | 0 <= j < k && s[j].length == v
      ensures s[j] in before
    {
      WithLengthSubset(before, v, s[j]);
    }
  }

  /** SortByLength orders by the comparator, keeps every element, and is
      stable: elements of equal length stay in their original order. */
  lemma {:induction false} SortByLengthProperties(s: seq<DubinsStruct>)
    ensures SortedByLength(SortByLength(s))
    ensures multiset(SortByLength(s)) == multiset(s)
    ensures forall v :: WithLength(SortByLength(s), v) == WithLength(s, v)
  {
    if s != [] {
      var init, x := s[..|s| - 1], s[|s| - 1];
      assert s == init + [x];
      SortByLengthProperties(init);
      InsertByLengthSorted(x, SortByLength(init));
      InsertByLengthElements(x, SortByLength(init));
      forall v
        ensures WithLength(SortByLength(s), v) == WithLength(s, v)
      {
        InsertByLengthStable(x, SortByLength(init), v);
        WithLengthAppend(init, x, v);
      }
    }
  }

  lemma SortByLengthSameElements(s: seq<DubinsStruct>)
    ensures |SortByLength(s)| == |s|
    ensures forall x :: x in SortByLength(s) <==> x in s
  {
    SortByLengthProperties(s);
    assert |SortByLength(s)| == |multiset(SortByLength(s))|;
    forall x
      ensures x in SortByLength(s) <==> x in s
    {
      assert x in SortByLength(s) <==> x in multiset(SortByLength(s));
    }
  }

  /** Reference definition: the index of the first candidate, in list order,
      among those of minimal length. */
  function EarliestShortest(s: seq<DubinsStruct>): (k: nat)
    requires s != []
    ensures k < |s|
    ensures forall j :: 0 <= j < |s| ==> NotAfter(s[k], s[j])
    ensures forall j :: 0 <= j < k ==> s[j].length != s[k].length
    decreases |s|
  {
    if |s| == 1 then 0
    else
      var init := s[..|s| - 1];
      var k := EarliestShortest(init);
      assert forall j :: 0 <= j < |init| ==> init[j] == s[j];
      if CompareLengths(s[|s| - 1].length, s[k].length) == Less then
        assert forall j :: 0 <= j < |s| - 1 ==> CompareLengths(s[|s| - 1].length, s[j].length) == Less by {
          forall j | 0 <= j < |s| - 1
            ensures CompareLengths(s[|s| - 1].length, s[j].length) == Less
          {
            CompareIsTotalOrder(s[|s| - 1].length, s[k].length, s[j].length);
          }
        }
        |s| - 1
      else
        CompareIsTotalOrder(s[|s| - 1].length, s[k].length, s[k].length);
        k
  }

  lemma {:induction false} WithLengthFirst(s: seq<DubinsStruct>, k: nat)
    requires k < |s|
    requires forall j :: 0 <= j < k ==> s[j].length != s[k].length
    ensures WithLength(s, s[k].length) != [] && WithLength(s, s[k].length)[0] == s[k]
  {
    if k > 0 {
      WithLengthFirst(s[1..], k - 1);
    }
  }

  /** The head of the sorted candidates is the earliest shortest candidate:
      the minimal length, ties broken by the original order. */
  lemma SortedHeadIsEarliestShortest(s: seq<DubinsStruct>)
    requires s != []
    ensures SortByLength(s) != [] && SortByLength(s)[0] == s[EarliestShortest(s)]
  {
    var r := SortByLength(s);
    SortByLengthProperties(s);
    SortByLengthSameElements(s);
    var k := EarliestShortest(s);
    var h := r[0];
    assert h in s;
    var i :| 0 <= i < |s| && s[i] == h;
    CompareIsTotalOrder(h.length, s[k].length, h.length);
    assert s[k] in r;
    var j :| 0 <= j < |r| && r[j] == s[k];
    assert NotAfter(h, s[k]) by {
      if j > 0 {
        assert NotAfter(r[0], r[j]);
      }
    }
    assert NotAfter(s[k], h);
    assert h.length == s[k].length;
    WithLengthFirst(s, k);
    WithLengthFirst(r, 0);
  }

  /** Reference definition: the index of the first element of s whose length
      is at least `floor` (|s| when there is none). */
  function FirstAtLeast(s: seq<DubinsStruct>, floor: Ext): (i: nat)
    ensures i <= |s|
    ensures forall j :: 0 <= j < i ==> !Ge(s[j].length, floor)
    ensures i < |s| ==> Ge(s[i].length, floor)
  {
    if s == [] then 0
    else if Ge(s[0].length, floor) then 0
    else 1 + FirstAtLeast(s[1..], floor)
  }

  /** One more element below the floor extends the prefix below the floor. */
  lemma SkipBelowFloor(s: seq<DubinsStruct>, floor: Ext, i: nat)
    requires i < |s|
    requires forall j :: 0 <= j < i ==> !Ge(s[j].length, floor)
    requires !Ge(s[i].length, floor)
    ensures forall j :: 0 <= j < i + 1 ==> !Ge(s[j].length, floor)
  {
  }

  /** The index that satisfies FirstAtLeast's contract is its result. */
  lemma FirstAtLeastIs(s: seq<DubinsStruct>, floor: Ext, i: nat)
    requires i <= |s|
    requires forall j :: 0 <= j < i ==> !Ge(s[j].length, floor)
    requires i < |s| ==> Ge(s[i].length, floor)
    ensures FirstAtLeast(s, floor) == i
  {
  }

  /** Selection from the sorted candidates: with no floor (-inf) the head,
      otherwise the first one at least as long as the floor, else UNSET. */
  function SelectPath(sorted: seq<DubinsStruct>, minLength: Ext): (r: DubinsStruct)
    requires sorted != []
    ensures r == UNSET || r in sorted
    ensures minLength == NegInf && SortedByLength(sorted) ==> forall c :: c in sorted ==> NotAfter(r, c)
    ensures minLength != NegInf && r != UNSET ==> Ge(r.length, minLength)
    ensures minLength != NegInf && r == UNSET && UNSET !in sorted ==>
      forall c :: c in sorted ==> !Ge(c.length, minLength)
  {
    if minLength == NegInf then sorted[0]
    else
      var i := FirstAtLeast(sorted, minLength);
      if i < |sorted| then sorted[i] else UNSET
  }

  /** The selected path is one of the candidates, or nothing. */
  lemma SelectedIsCandidate(cands: seq<DubinsStruct>, minLength: Ext)
    requires cands != []
    ensures var ds := SelectPath(SortByLength(cands), minLength);
      ds == UNSET || ds in cands
  {
    SortByLengthSameElements(cands);
  }

  /** With a floor, the selected path is a shortest candidate among those at
      least as long as the floor; when none reaches it, nothing is selected. */
  lemma FloorSelectsShortestQualifying(cands: seq<DubinsStruct>, minLength: Ext)
    requires cands != [] && minLength != NegInf
    requires forall c :: c in cands ==> c.kind != NONE_CASE
    ensures var r := SelectPath(SortByLength(cands), minLength);
      && (r == UNSET <==> forall c :: c in cands ==> !Ge(c.length, minLength))
      && (r != UNSET ==> r in cands && Ge(r.length, minLength))
      && (r != UNSET ==> forall c :: c in cands && Ge(c.length, minLength) ==> NotAfter(r, c))
  {
    var sorted := SortByLength(cands);
    SortByLengthProperties(cands);
    SortByLengthSameElements(cands);
    var i := FirstAtLeast(sorted, minLength);
    forall c | c in cands && Ge(c.length, minLength)
      ensures i < |sorted| && NotAfter(sorted[i], c)
    {
      var j :| 0 <= j < |sorted| && sorted[j] == c;
      assert j >= i;
      if j > i {
        assert NotAfter(sorted[i], sorted[j]);
      } else {
        CompareIsTotalOrder(c.length, c.length, c.length);
      }
    }
    if i < |sorted| {
      assert sorted[i] in cands;
    }
  }

  /** x occurs in s at an index before which no element of s has x's length. */
  predicate FirstOfItsLength(s: seq<DubinsStruct>, x: DubinsStruct) {
    exists k :: 0 <= k < |s| && s[k] == x && forall j :: 0 <= j < k ==> s[j].length != x.length
  }

  /** Ties under a floor go to the earlier candidate: the selected path sits
      at an index of the candidate list before which no candidate has its
      length. */
  lemma FloorBreaksTiesByOrder(cands: seq<DubinsStruct>, minLength: Ext)
    requires cands != [] && minLength != NegInf
    ensures var r := SelectPath(SortByLength(cands), minLength);
      r != UNSET ==> FirstOfItsLength(cands, r)
  {
    var sorted := SortByLength(cands);
    SortByLengthProperties(cands);
    var i := FirstAtLeast(sorted, minLength);
    if i < |sorted| {
      var v := sorted[i].length;
      StableOccurrence(cands, sorted, i);
      var k :| (0 <= k < |cands| && cands[k] == sorted[i] &&
        forall j :: 0 <= j < k && cands[j].length == v ==> cands[j] in sorted[..i]);
      forall j | 0 <= j < k
        ensures cands[j].length != v
      {
      }
    }
  }
}
