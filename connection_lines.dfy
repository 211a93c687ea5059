/**
 * The per-frame work of the connection lines between the floating spheres of
 * the enhanced neural-network scene: every sphere's animated position is
 * overwritten, then every pair i < j of spheres closer than 10 units
 * contributes one line segment (six coordinates) to the position list.
 *
 * `distanceTo(...) < 10` is modelled as squared distance < 100, which is the
 * same test for the non-negative square root. Building the three.js buffer
 * attribute from the list is not modelled.
 */
module ConnectionLines {
  import opened Geometry

  /** The largest distance at which two spheres are connected. */
  const LinkDistance: real := 10.0

  predicate Close(a: Vec3, b: Vec3)
  {
    SquaredDistance(a, b) < LinkDistance * LinkDistance
  }

  /** Sphere i's position at `time`: its base position plus a small sinusoidal offset. */
  function Animated(m: MathLib, base: Vec3, i: nat, time: real): (v: Vec3)
    ensures TrigBounded(m) ==>
      && Abs(v.x - base.x) <= 0.5
      && Abs(v.y - base.y) <= 0.6
      && Abs(v.z - base.z) <= 0.4
  {
    var speed := 0.5 + i as real * 0.1;
    var cx, sy, sz := m.cos(time * speed * 0.7), m.sin(time * speed), m.sin(time * speed * 0.5);
    Vec3(base.x + cx * 0.5, base.y + sy * 0.6, base.z + sz * 0.4)
  }

  /** Overwrites every sphere's position in place. */
  method UpdateSpheres(m: MathLib, refs: array<Vec3>, spheres: seq<Vec3>, time: real)
    requires refs.Length == |spheres|
    modifies refs
    ensures forall i :: 0 <= i < |spheres| ==> refs[i] == Animated(m, spheres[i], i, time)
  {
    for i := 0 to |spheres|
      invariant forall k :: 0 <= k < i ==> refs[k] == Animated(m, spheres[k], k, time)
    {
      refs[i] := Animated(m, spheres[i], i, time);
    }
  }

  // ---------------------------------------------------------------------
  // Which pairs are connected, in which order
  // ---------------------------------------------------------------------

  /** The close pairs (i, k) with i < k < j, in increasing k. */
  function RowPairs(pts: seq<Vec3>, i: nat, j: nat): seq<(nat, nat)>
    requires i < |pts| && j <= |pts|
  {
    if j <= i + 1 then []
    else RowPairs(pts, i, j - 1) + if Close(pts[i], pts[j - 1]) then [(i, j - 1)] else []
  }

  /** The close pairs whose first sphere comes before sphere i, in lexicographic order. */
  function PairsBefore(pts: seq<Vec3>, i: nat): seq<(nat, nat)>
    requires i <= |pts|
  {
    if i == 0 then [] else PairsBefore(pts, i - 1) + RowPairs(pts, i - 1, |pts|)
  }

  /** Every connected pair, in the order the nested loops visit them. */
  function ClosePairs(pts: seq<Vec3>): seq<(nat, nat)>
  {
    PairsBefore(pts, |pts|)
  }

  predicate LexLess(p: (nat, nat), q: (nat, nat))
  {
    p.0 < q.0 || (p.0 == q.0 && p.1 < q.1)
  }

  /** Every entry of `r` is a close pair (h, k) with h < k < |pts| and h < i. */
  ghost predicate CloseBelow(pts: seq<Vec3>, r: seq<(nat, nat)>, i: nat)
  {
    forall a :: 0 <= a < |r| ==> r[a].0 < i && r[a].0 < r[a].1 < |pts| && Close(pts[r[a].0], pts[r[a].1])
  }

  ghost predicate LexSorted(r: seq<(nat, nat)>)
  {
    forall a, b :: 0 <= a < b < |r| ==> LexLess(r[a], r[b])
  }

  /** A row holds close pairs (i, k) with i < k < j, in increasing k, and at most j - i - 1 of them. */
  lemma {:induction false} RowPairsShape(pts: seq<Vec3>, i: nat, j: nat)
    requires i < |pts| && j <= |pts|
    ensures var r := RowPairs(pts, i, j);
      && (forall a :: 0 <= a < |r| ==> r[a].0 == i && i < r[a].1 < j && Close(pts[i], pts[r[a].1]))
      && (forall a, b :: 0 <= a < b < |r| ==> r[a].1 < r[b].1)
      && (j > i ==> |r| <= j - i - 1)
  {
    if j > i + 1 {
      RowPairsShape(pts, i, j - 1);
    }
  }

  /** A row holds every close pair (i, k) with i < k < j. */
  lemma {:induction false} RowPairsComplete(pts: seq<Vec3>, i: nat, j: nat)
    requires i < |pts| && j <= |pts|
    ensures forall k :: i < k < j && Close(pts[i], pts[k]) ==> (i, k) in RowPairs(pts, i, j)
  {
    if j > i + 1 {
      RowPairsComplete(pts, i, j - 1);
    }
  }

  /** Appending row i to the pairs of the rows before it keeps them close and sorted. */
  lemma AppendRow(pts: seq<Vec3>, prev: seq<(nat, nat)>, i: nat)
    requires i < |pts| && CloseBelow(pts, prev, i) && LexSorted(prev)
    ensures CloseBelow(pts, prev + RowPairs(pts, i, |pts|), i + 1)
    ensures LexSorted(prev + RowPairs(pts, i, |pts|))
  {
    var row := RowPairs(pts, i, |pts|);
    RowPairsShape(pts, i, |pts|);
    var r := prev + row;
    forall a | 0 <= a < |r|
      ensures r[a].0 < i + 1 && r[a].0 < r[a].1 < |pts| && Close(pts[r[a].0], pts[r[a].1])
    {
      if a < |prev| { assert r[a] == prev[a]; } else { assert r[a] == row[a - |prev|]; }
    }
    forall a, b | 0 <= a < b < |r|
      ensures LexLess(r[a], r[b])
    {
      if b < |prev| {
        assert r[a] == prev[a] && r[b] == prev[b];
      } else if a < |prev| {
        assert r[a] == prev[a] && r[b] == row[b - |prev|];
      } else {
        assert r[a] == row[a - |prev|] && r[b] == row[b - |prev|];
      }
    }
  }

  lemma {:induction false} PairsBeforeShape(pts: seq<Vec3>, i: nat)
    requires i <= |pts|
    ensures CloseBelow(pts, PairsBefore(pts, i), i)
    ensures LexSorted(PairsBefore(pts, i))
  {
    if i > 0 {
      PairsBeforeShape(pts, i - 1);
      AppendRow(pts, PairsBefore(pts, i - 1), i - 1);
    }
  }

  lemma {:induction false} PairsBeforeComplete(pts: seq<Vec3>, i: nat)
    requires i <= |pts|
    ensures forall h, k :: 0 <= h < i && h < k < |pts| && Close(pts[h], pts[k]) ==> (h, k) in PairsBefore(pts, i)
  {
    if i > 0 {
      var prev, row := PairsBefore(pts, i - 1), RowPairs(pts, i - 1, |pts|);
      var r := prev + row;
      forall h, k | 0 <= h < i && h < k < |pts| && Close(pts[h], pts[k])
        ensures (h, k) in r
      {
        if h < i - 1 {
          PairsBeforeComplete(pts, i - 1);
          var a :| 0 <= a < |prev| && prev[a] == (h, k);
          assert r[a] == (h, k);
        } else {
          RowPairsComplete(pts, i - 1, |pts|);
          var a :| 0 <= a < |row| && row[a] == (h, k);
          assert r[|prev| + a] == (h, k);
        }
      }
    }
  }

  /** Row r contributes at most n - r - 1 pairs, so the first i rows at most i(2n - i - 1)/2. */
  lemma {:induction false} PairsBeforeCount(pts: seq<Vec3>, i: nat)
    requires i <= |pts|
    ensures 2 * |PairsBefore(pts, i)| <= i * (2 * |pts| - i - 1)
  {
    if i > 0 {
      PairsBeforeCount(pts, i - 1);
      RowPairsShape(pts, i - 1, |pts|);
      var n := |pts|;
      assert (i - 1) * (2 * n - (i - 1) - 1) + 2 * (n - i) == i * (2 * n - i - 1);
    }
  }

  /**
   * The pairs emitted are exactly the close pairs i < j, each once, in
   * lexicographic order, and there are at most n(n-1)/2 of them.
   */
  lemma ClosePairsExactly(pts: seq<Vec3>)
    ensures var r := ClosePairs(pts);
      && (forall i: nat, j: nat :: (i, j) in r <==> i < j < |pts| && Close(pts[i], pts[j]))
      && (forall a, b :: 0 <= a < b < |r| ==> LexLess(r[a], r[b]))
      && 2 * |r| <= |pts| * (|pts| - 1)
  {
    PairsBeforeShape(pts, |pts|);
    PairsBeforeComplete(pts, |pts|);
    PairsBeforeCount(pts, |pts|);
    var r := ClosePairs(pts);
    forall i: nat, j: nat | (i, j) in r
      ensures i < j < |pts| && Close(pts[i], pts[j])
    {
      var a :| 0 <= a < |r| && r[a] == (i, j);
    }
  }

  // ---------------------------------------------------------------------
  // The position list
  // ---------------------------------------------------------------------

  /** The six coordinates pushed for one pair. */
  function Segment(a: Vec3, b: Vec3): seq<real>
  {
    [a.x, a.y, a.z, b.x, b.y, b.z]
  }

  ghost predicate PairsIn(pts: seq<Vec3>, pairs: seq<(nat, nat)>)
  {
    forall a :: 0 <= a < |pairs| ==> pairs[a].0 < |pts| && pairs[a].1 < |pts|
  }

  /**
   * The coordinates of the segments of a list of pairs, concatenated (a pair
   * naming a sphere that does not exist contributes nothing; the loops never
   * produce one).
   */
  function Segments(pts: seq<Vec3>, pairs: seq<(nat, nat)>): seq<real>
  {
    if pairs == [] then []
    else
      var last := pairs[|pairs| - 1];
      Segments(pts, pairs[..|pairs| - 1])
        + if last.0 < |pts| && last.1 < |pts| then Segment(pts[last.0], pts[last.1]) else []
  }

  /** Six coordinates per pair. */
  lemma {:induction false} SegmentsLength(pts: seq<Vec3>, pairs: seq<(nat, nat)>)
    requires PairsIn(pts, pairs)
    ensures |Segments(pts, pairs)| == 6 * |pairs|
  {
    if pairs != [] {
      SegmentsLength(pts, pairs[..|pairs| - 1]);
    }
  }

  /** Segment number a of the list is (x_i, y_i, z_i, x_j, y_j, z_j) for pair number a = (i, j). */
  lemma {:induction false} SegmentsAt(pts: seq<Vec3>, pairs: seq<(nat, nat)>, a: nat)
    requires PairsIn(pts, pairs) && a < |pairs|
    ensures |Segments(pts, pairs)| == 6 * |pairs|
      && Segments(pts, pairs)[6 * a .. 6 * a + 6] == Segment(pts[pairs[a].0], pts[pairs[a].1])
  {
    var init := pairs[..|pairs| - 1];
    assert PairsIn(pts, init);
    SegmentsLength(pts, init);
    if a < |pairs| - 1 {
      SegmentsAt(pts, init, a);
      assert Segments(pts, pairs)[6 * a .. 6 * a + 6] == Segments(pts, init)[6 * a .. 6 * a + 6];
    }
  }

  /** One more column of row i adds that pair's segment exactly when the two spheres are close. */
  lemma RowSegmentsStep(pts: seq<Vec3>, i: nat, j: nat)
    requires i < j < |pts|
    ensures Close(pts[i], pts[j]) ==>
      Segments(pts, RowPairs(pts, i, j + 1)) == Segments(pts, RowPairs(pts, i, j)) + Segment(pts[i], pts[j])
    ensures !Close(pts[i], pts[j]) ==>
      Segments(pts, RowPairs(pts, i, j + 1)) == Segments(pts, RowPairs(pts, i, j))
  {
    if Close(pts[i], pts[j]) {
      assert RowPairs(pts, i, j + 1) == RowPairs(pts, i, j) + [(i, j)];
      SegmentsAppend(pts, RowPairs(pts, i, j), (i, j));
    } else {
      assert RowPairs(pts, i, j + 1) == RowPairs(pts, i, j) + [];
      assert RowPairs(pts, i, j) + [] == RowPairs(pts, i, j);
    }
  }

  lemma {:induction false} SegmentsConcat(pts: seq<Vec3>, p: seq<(nat, nat)>, q: seq<(nat, nat)>)
    ensures Segments(pts, p + q) == Segments(pts, p) + Segments(pts, q)
  {
    if q != [] {
      var init := q[..|q| - 1];
      SegmentsConcat(pts, p, init);
      assert (p + q)[..|p + q| - 1] == p + init;
    } else {
      assert p + q == p;
    }
  }

  /** The segments of the first i + 1 rows are those of the first i rows followed by those of row i. */
  lemma NextRowSegments(pts: seq<Vec3>, i: nat)
    requires i < |pts|
    ensures Segments(pts, PairsBefore(pts, i + 1))
      == Segments(pts, PairsBefore(pts, i)) + Segments(pts, RowPairs(pts, i, |pts|))
  {
    SegmentsConcat(pts, PairsBefore(pts, i), RowPairs(pts, i, |pts|));
  }

  lemma SegmentsAppend(pts: seq<Vec3>, pairs: seq<(nat, nat)>, p: (nat, nat))
    requires p.0 < |pts| && p.1 < |pts|
    ensures Segments(pts, pairs + [p]) == Segments(pts, pairs) + Segment(pts[p.0], pts[p.1])
  {
    assert (pairs + [p])[..|pairs|] == pairs;
  }

  /**
   * The nested i < j loop over the current sphere positions: the list is the
   * segments of the close pairs, in visiting order.
   */
  method ConnectionPositions(pts: seq<Vec3>) returns (positions: seq<real>)
    ensures positions == Segments(pts, ClosePairs(pts))
  {
    positions := [];
    var i := 0;
    while i < |pts|
      invariant 0 <= i <= |pts|
      invariant positions == Segments(pts, PairsBefore(pts, i))
    {
      var row := PushRow(pts, i);
      NextRowSegments(pts, i);
      positions := positions + row;
      i := i + 1;
    }
  }

  /** The inner loop for sphere i: the segments to every later sphere close to it. */
  method PushRow(pts: seq<Vec3>, i: nat) returns (out: seq<real>)
    requires i < |pts|
    ensures out == Segments(pts, RowPairs(pts, i, |pts|))
  {
    out := [];
    var j := i + 1;
    while j < |pts|
      invariant i + 1 <= j <= |pts|
      invariant out == Segments(pts, RowPairs(pts, i, j))
    {
      RowSegmentsStep(pts, i, j);
      if Close(pts[i], pts[j]) {
        out := out + Segment(pts[i], pts[j]);
      }
      j := j + 1;
    }
  }

  /** One frame: move every sphere, then list the segments between close spheres at their new positions. */
  method Frame(m: MathLib, refs: array<Vec3>, spheres: seq<Vec3>, time: real) returns (positions: seq<real>)
    requires refs.Length == |spheres|
    modifies refs
    ensures forall i :: 0 <= i < |spheres| ==> refs[i] == Animated(m, spheres[i], i, time)
    ensures positions == Segments(refs[..], ClosePairs(refs[..]))
  {
    UpdateSpheres(m, refs, spheres, time);
    positions := ConnectionPositions(refs[..]);
  }
}
