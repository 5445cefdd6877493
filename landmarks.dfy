/**
 * Landmark lists of the deformation field generator: what a point file
 * yields, and the conversion of index-valued landmarks into physical
 * coordinates through an image's grid.
 */
module Landmarks {
  import opened ImageGrid

  /**
   * What the transformix input point reader leaves behind after `Update`:
   * whether reading raised an error (which the generator only reports),
   * whether the file declared its points to be grid indices, and the points
   * in file order.
   */
  datatype PointFile = PointFile(readFailed: bool, pointsAreIndices: bool, points: seq<Point>)

  predicate PointsHaveDimension(points: seq<Point>, dim: nat) {
    forall j :: 0 <= j < |points| ==> |points[j]| == dim
  }

  /**
   * `rnd` (vnl_math_rnd) rounds to a nearest integer: whichever way it breaks
   * ties, it moves no value by more than one half.
   */
  ghost predicate RoundsToNearest(rnd: real -> int) {
    forall x: real :: x - 0.5 <= rnd(x) as real <= x + 0.5
  }

  /** A rounding rule of that kind leaves whole numbers where they are. */
  lemma RoundingKeepsIntegers(rnd: real -> int, n: int)
    requires RoundsToNearest(rnd)
    ensures rnd(n as real) == n
  {
    var d := rnd(n as real) - n;
    assert -0.5 <= d as real <= 0.5;
  }

  /** The grid index of a landmark given as (possibly fractional) index: each component rounded. */
  function RoundedIndex(p: Point, rnd: real -> int): (idx: Index)
    ensures |idx| == |p|
  {
    seq(|p|, i requires 0 <= i < |p| => rnd(p[i]))
  }

  /**
   * The point set built by the conversion loop: point `j` of the result is
   * the physical point of the rounded index of point `j`.
   */
  function ConvertedPoints(points: seq<Point>, g: Grid, rnd: real -> int): (converted: seq<Point>)
    requires PointsHaveDimension(points, |g.origin|) && |g.spacing| == |g.origin|
    ensures |converted| == |points|
    ensures forall j :: 0 <= j < |points| ==>
              converted[j] == IndexToPhysical(g, RoundedIndex(points[j], rnd))
  {
    if |points| == 0 then []
    else
      var last := |points| - 1;
      ConvertedPoints(points[..last], g, rnd) + [IndexToPhysical(g, RoundedIndex(points[last], rnd))]
  }

  /** The landmarks of a point file in physical space: converted when they are indices, as read otherwise. */
  function PhysicalLandmarks(file: PointFile, g: Grid, rnd: real -> int): seq<Point>
    requires PointsHaveDimension(file.points, |g.origin|) && |g.spacing| == |g.origin|
  {
    if file.pointsAreIndices then ConvertedPoints(file.points, g, rnd) else file.points
  }

  /**
   * The conversion loop: for every point, round each component to an index,
   * map the index to its physical point and store it at the same position
   * of a new point set.
   */
  method ConvertIndexPoints(points: seq<Point>, g: Grid, rnd: real -> int) returns (converted: seq<Point>)
    requires PointsHaveDimension(points, |g.origin|) && |g.spacing| == |g.origin|
    ensures converted == ConvertedPoints(points, g, rnd)
  {
    converted := [];
    var j := 0;
    while j < |points|
      invariant 0 <= j <= |points|
      invariant converted == ConvertedPoints(points[..j], g, rnd)
    {
      var point := points[j];
      var index: Index := seq(|point|, _ => 0);
      var i := 0;
      while i < |point|
        invariant 0 <= i <= |point| && |index| == |point|
        invariant forall c :: 0 <= c < i ==> index[c] == rnd(point[c])
      {
        index := index[i := rnd(point[i])];
        i := i + 1;
      }
      assert index == RoundedIndex(point, rnd);
      assert points[..j + 1][..j] == points[..j];
      converted := converted + [IndexToPhysical(g, index)];
      j := j + 1;
    }
    assert points[..j] == points;
  }

  /**
   * Conversion works point by point and keeps the order: converting two
   * consecutive parts of a list gives the two converted parts in sequence.
   */
  lemma {:induction false} ConvertedPointsPreservesOrder(a: seq<Point>, b: seq<Point>, g: Grid, rnd: real -> int)
    requires PointsHaveDimension(a, |g.origin|) && PointsHaveDimension(b, |g.origin|) && |g.spacing| == |g.origin|
    ensures PointsHaveDimension(a + b, |g.origin|)
    ensures ConvertedPoints(a + b, g, rnd) == ConvertedPoints(a, g, rnd) + ConvertedPoints(b, g, rnd)
    decreases |b|
  {
    if |b| > 0 {
      var last := |b| - 1;
      assert (a + b)[..|a + b| - 1] == a + b[..last];
      assert (a + b)[|a + b| - 1] == b[last];
      ConvertedPointsPreservesOrder(a, b[..last], g, rnd);
    } else {
      assert a + b == a;
    }
  }

  /**
   * Landmarks that already sit exactly on grid indices are mapped to
   * `origin + spacing ⊙ point`, whatever tie-breaking the rounding uses.
   */
  lemma ConversionOfWholeIndices(points: seq<Point>, g: Grid, rnd: real -> int, j: nat, i: nat)
    requires PointsHaveDimension(points, |g.origin|) && |g.spacing| == |g.origin|
    requires RoundsToNearest(rnd)
    requires j < |points| && i < |g.origin|
    requires points[j][i] == points[j][i].Floor as real
    ensures ConvertedPoints(points, g, rnd)[j][i] == g.origin[i] + g.spacing[i] * points[j][i]
  {
    var x := points[j][i];
    RoundingKeepsIntegers(rnd, x.Floor);
    var idx := RoundedIndex(points[j], rnd);
    assert idx[i] as real == x;
    assert ConvertedPoints(points, g, rnd)[j] == IndexToPhysical(g, idx);
  }
}
