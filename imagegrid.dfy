/**
 * Image geometry shared by the tools: an image region (start index and size
 * per axis), the linear storage order of its cells, the increment of an ITK
 * region iterator, and the index-to-physical mapping of an image whose
 * direction matrix is the identity.
 */
module ImageGrid {
  import opened TypeDispatch

  /** A physical point or vector: one real coordinate per axis. */
  type Point = seq<real>

  /** A grid index: one integer per axis. */
  type Index = seq<int>

  /** An image region: the index of its first cell and its extent per axis. */
  datatype Region = Region(start: Index, size: seq<nat>)

  /**
   * The geometry of an image: origin, spacing and largest possible region.
   * None of the images the tools build has its direction set, so the
   * direction matrix is the identity and is not represented.
   */
  datatype Grid = Grid(origin: Point, spacing: seq<real>, region: Region)

  /** What reading an image header reports. */
  datatype ImageProperties = ImageProperties(
    componentType: ComponentType,
    dimension: nat,
    numberOfComponents: nat,
    size: seq<nat>)

  predicate RegionHasDimension(r: Region, dim: nat) {
    |r.start| == dim && |r.size| == dim
  }

  predicate GridHasDimension(g: Grid, dim: nat) {
    |g.origin| == dim && |g.spacing| == dim && RegionHasDimension(g.region, dim)
  }

  /** The number of cells of a region of extent `size`. */
  function NumCells(size: seq<nat>): nat {
    if |size| == 0 then 1 else size[0] * NumCells(size[1..])
  }

  predicate InRegion(r: Region, idx: Index)
    requires RegionHasDimension(r, |r.size|)
  {
    |idx| == |r.size| && forall i :: 0 <= i < |idx| ==> r.start[i] <= idx[i] < r.start[i] + r.size[i]
  }

  /** The region without its first axis. */
  function Tail(r: Region): Region
    requires |r.start| == |r.size| > 0
  {
    Region(r.start[1..], r.size[1..])
  }

  lemma DivisionBound(k: nat, a: nat, b: nat)
    requires k < a * b
    ensures a > 0 && k / a < b
  {
    if k / a >= b {
      MultiplyMonotone(a, b, k / a);
    }
  }

  lemma MultiplyMonotone(a: nat, x: nat, y: nat)
    requires x <= y
    ensures a * x <= a * y
  {
  }

  lemma MixedRadixBound(x: nat, a: nat, y: nat, b: nat)
    requires x < a && y < b
    ensures x + a * y < a * b
  {
    MultiplyMonotone(a, y, b - 1);
    assert a * (b - 1) == a * b - a;
  }

  /** A number is its remainder plus the multiple of the divisor below it. */
  lemma DivModIdentity(k: nat, a: nat)
    requires a > 0
    ensures k == k % a + a * (k / a)
  {
  }

  /** Division and remainder undo the mixed-radix composition `x + a * y`. */
  lemma MixedRadixDivMod(x: nat, a: nat, y: nat)
    requires x < a
    ensures (x + a * y) / a == y && (x + a * y) % a == x
  {
    var n := x + a * y;
    var q, m := n / a, n % a;
    assert a * q + m == n;
    assert a * (q - y) == x - m;
    if q > y {
      MultiplyMonotone(a, 1, q - y);
    } else if q < y {
      MultiplyMonotone(a, 1, y - q);
    }
  }

  /**
   * The index of the cell stored at linear offset `k`: the first axis varies
   * fastest, as in ITK's image buffers and region iterators.
   */
  function IndexAt(r: Region, k: nat): (idx: Index)
    requires RegionHasDimension(r, |r.size|) && k < NumCells(r.size)
    ensures InRegion(r, idx)
    decreases |r.size|
  {
    if |r.size| == 0 then []
    else
      DivisionBound(k, r.size[0], NumCells(r.size[1..]));
      var rest := IndexAt(Tail(r), k / r.size[0]);
      var idx := [r.start[0] + k % r.size[0]] + rest;
      assert forall i :: 1 <= i < |idx| ==> idx[i] == rest[i - 1];
      idx
  }

  /** The linear offset of a cell of the region: the inverse of `IndexAt`. */
  function OffsetOf(r: Region, idx: Index): (k: nat)
    requires RegionHasDimension(r, |r.size|) && InRegion(r, idx)
    ensures k < NumCells(r.size)
    decreases |r.size|
  {
    if |r.size| == 0 then 0
    else
      assert InRegion(Tail(r), idx[1..]) by {
        assert forall i :: 0 <= i < |idx[1..]| ==> idx[1..][i] == idx[i + 1];
      }
      var rest := OffsetOf(Tail(r), idx[1..]);
      MixedRadixBound(idx[0] - r.start[0], r.size[0], rest, NumCells(r.size[1..]));
      (idx[0] - r.start[0]) + r.size[0] * rest
  }

  lemma {:induction false} OffsetOfIndexAt(r: Region, k: nat)
    requires RegionHasDimension(r, |r.size|) && k < NumCells(r.size)
    ensures OffsetOf(r, IndexAt(r, k)) == k
    decreases |r.size|
  {
    if |r.size| > 0 {
      var a := r.size[0];
      IndexAtSplit(r, k);
      var idx := IndexAt(r, k);
      assert idx[0] - r.start[0] == k % a;
      assert idx[1..] == IndexAt(Tail(r), k / a);
      OffsetOfIndexAt(Tail(r), k / a);
      assert OffsetOf(r, idx) == k % a + a * (k / a);
      DivModIdentity(k, a);
    }
  }

  lemma {:induction false} IndexAtOffsetOf(r: Region, idx: Index)
    requires RegionHasDimension(r, |r.size|) && InRegion(r, idx)
    ensures IndexAt(r, OffsetOf(r, idx)) == idx
    decreases |r.size|
  {
    if |r.size| > 0 {
      assert InRegion(Tail(r), idx[1..]) by {
        assert forall i :: 0 <= i < |idx[1..]| ==> idx[1..][i] == idx[i + 1];
      }
      var rest := OffsetOf(Tail(r), idx[1..]);
      IndexAtDigits(r, idx[0] - r.start[0], rest);
      IndexAtOffsetOf(Tail(r), idx[1..]);
      assert IndexAt(r, OffsetOf(r, idx)) == [idx[0]] + idx[1..];
    }
  }

  /**
   * Walking the offsets 0 .. NumCells - 1 visits every index of the region
   * exactly once: each index of the region is reached at exactly one offset.
   */
  lemma EveryIndexAtExactlyOneOffset(r: Region, idx: Index)
    requires RegionHasDimension(r, |r.size|) && InRegion(r, idx)
    ensures OffsetOf(r, idx) < NumCells(r.size) && IndexAt(r, OffsetOf(r, idx)) == idx
    ensures forall k :: 0 <= k < NumCells(r.size) && IndexAt(r, k) == idx ==> k == OffsetOf(r, idx)
  {
    IndexAtOffsetOf(r, idx);
    forall k | 0 <= k < NumCells(r.size) && IndexAt(r, k) == idx
      ensures k == OffsetOf(r, idx)
    {
      OffsetOfIndexAt(r, k);
    }
  }

  /** ITK's `++iterator` on a region iterator with index: advance the first axis, carrying into later axes. */
  function NextIndex(r: Region, idx: Index): (next: Index)
    requires RegionHasDimension(r, |r.size|) && |idx| == |r.size|
    ensures |next| == |idx|
    decreases |r.size|
  {
    if |r.size| == 0 then []
    else if idx[0] + 1 < r.start[0] + r.size[0] then [idx[0] + 1] + idx[1..]
    else [r.start[0]] + NextIndex(Tail(r), idx[1..])
  }

  /** `GoToBegin` places the iterator on the region's start index, the cell at offset 0. */
  lemma {:induction false} IndexAtZero(r: Region)
    requires RegionHasDimension(r, |r.size|) && 0 < NumCells(r.size)
    ensures IndexAt(r, 0) == r.start
    decreases |r.size|
  {
    if |r.size| > 0 {
      DivisionBound(0, r.size[0], NumCells(r.size[1..]));
      IndexAtZero(Tail(r));
    }
  }

  /** `IndexAt` on a region with at least one axis, split into its first axis and the rest. */
  lemma IndexAtSplit(r: Region, k: nat)
    requires RegionHasDimension(r, |r.size|) && |r.size| > 0 && k < NumCells(r.size)
    ensures r.size[0] > 0 && k / r.size[0] < NumCells(r.size[1..])
    ensures IndexAt(r, k) == [r.start[0] + k % r.size[0]] + IndexAt(Tail(r), k / r.size[0])
  {
    DivisionBound(k, r.size[0], NumCells(r.size[1..]));
  }

  /** The cell at offset `m + a * q`, where `a` is the extent of the first axis and `m < a`. */
  lemma IndexAtDigits(r: Region, m: nat, q: nat)
    requires RegionHasDimension(r, |r.size|) && |r.size| > 0
    requires m < r.size[0] && q < NumCells(r.size[1..])
    ensures m + r.size[0] * q < NumCells(r.size)
    ensures IndexAt(r, m + r.size[0] * q) == [r.start[0] + m] + IndexAt(Tail(r), q)
  {
    MixedRadixBound(m, r.size[0], q, NumCells(r.size[1..]));
    MixedRadixDivMod(m, r.size[0], q);
    IndexAtSplit(r, m + r.size[0] * q);
  }

  /** One iterator increment moves from the cell at offset `k` to the cell at offset `k + 1`. */
  lemma {:induction false} NextIndexAt(r: Region, k: nat)
    requires RegionHasDimension(r, |r.size|) && k + 1 < NumCells(r.size)
    ensures NextIndex(r, IndexAt(r, k)) == IndexAt(r, k + 1)
    decreases |r.size|, 1
  {
    if |r.size| > 0 {
      DivisionBound(k, r.size[0], NumCells(r.size[1..]));
      DivModIdentity(k, r.size[0]);
      var m, q := k % r.size[0], k / r.size[0];
      assert k == m + r.size[0] * q;
      NextIndexAtDigits(r, m, q);
    }
  }

  /** `NextIndexAt` for the offset written as the digits `m` (first axis) and `q` (the other axes). */
  lemma {:induction false} NextIndexAtDigits(r: Region, m: nat, q: nat)
    requires RegionHasDimension(r, |r.size|) && |r.size| > 0
    requires m < r.size[0] && q < NumCells(r.size[1..]) && m + r.size[0] * q + 1 < NumCells(r.size)
    ensures NextIndex(r, IndexAt(r, m + r.size[0] * q)) == IndexAt(r, m + r.size[0] * q + 1)
    decreases |r.size|, 0
  {
    IndexAtDigits(r, m, q);
    if m + 1 < r.size[0] {
      NextIndexWithinAxis(r, m, q);
    } else {
      CarryBound(r.size[0], q, NumCells(r.size[1..]));
      NextIndexAt(Tail(r), q);
      NextIndexCarry(r, q);
    }
  }

  /** An offset whose first digit is the last of its axis carries into the next digit. */
  lemma CarryBound(a: nat, q: nat, n: nat)
    requires a > 0 && (a - 1) + a * q + 1 < a * n
    ensures (a - 1) + a * q + 1 == a * (q + 1) && q + 1 < n
  {
    assert (a - 1) + a * q + 1 == 0 + a * (q + 1);
    DivisionBound(0 + a * (q + 1), a, n);
    MixedRadixDivMod(0, a, q + 1);
  }

  /** Without a carry, the increment advances the first axis only. */
  lemma NextIndexWithinAxis(r: Region, m: nat, q: nat)
    requires RegionHasDimension(r, |r.size|) && |r.size| > 0
    requires m + 1 < r.size[0] && q < NumCells(r.size[1..])
    ensures m + r.size[0] * q + 1 < NumCells(r.size)
    ensures NextIndex(r, [r.start[0] + m] + IndexAt(Tail(r), q)) == IndexAt(r, m + r.size[0] * q + 1)
  {
    IndexAtDigits(r, m + 1, q);
    var rest := IndexAt(Tail(r), q);
    assert ([r.start[0] + m] + rest)[1..] == rest;
  }

  /** With a carry, the first axis returns to its start and the other axes advance. */
  lemma NextIndexCarry(r: Region, q: nat)
    requires RegionHasDimension(r, |r.size|) && |r.size| > 0 && r.size[0] > 0
    requires q + 1 < NumCells(r.size[1..])
    requires NextIndex(Tail(r), IndexAt(Tail(r), q)) == IndexAt(Tail(r), q + 1)
    ensures r.size[0] * (q + 1) < NumCells(r.size)
    ensures NextIndex(r, [r.start[0] + r.size[0] - 1] + IndexAt(Tail(r), q)) == IndexAt(r, r.size[0] * (q + 1))
  {
    IndexAtDigits(r, 0, q + 1);
    var rest := IndexAt(Tail(r), q);
    assert ([r.start[0] + r.size[0] - 1] + rest)[1..] == rest;
  }

  /** The index a region iterator with index stands on after `GoToBegin` and `k` increments. */
  function Walk(r: Region, k: nat): (idx: Index)
    requires RegionHasDimension(r, |r.size|)
    ensures |idx| == |r.size|
  {
    if k == 0 then r.start else NextIndex(r, Walk(r, k - 1))
  }

  /** The iterator follows the buffer layout: after `k` increments it stands on the cell stored at offset `k`. */
  lemma {:induction false} WalkIsIndexAt(r: Region, k: nat)
    requires RegionHasDimension(r, |r.size|) && k < NumCells(r.size)
    ensures Walk(r, k) == IndexAt(r, k)
  {
    if k == 0 {
      IndexAtZero(r);
    } else {
      WalkIsIndexAt(r, k - 1);
      NextIndexAt(r, k - 1);
    }
  }

  /**
   * A walk of `NumCells` steps meets every index of the region exactly
   * once: step `k` is inside the region at offset `k`, and every index of
   * the region is met at the step of its offset.
   */
  lemma WalkVisitsEveryIndexOnce(r: Region)
    requires RegionHasDimension(r, |r.size|)
    ensures forall k :: 0 <= k < NumCells(r.size) ==> InRegion(r, Walk(r, k)) && OffsetOf(r, Walk(r, k)) == k
    ensures forall k, l :: 0 <= k < l < NumCells(r.size) ==> Walk(r, k) != Walk(r, l)
    ensures forall idx :: InRegion(r, idx) ==> Walk(r, OffsetOf(r, idx)) == idx
  {
    forall k | 0 <= k < NumCells(r.size)
      ensures InRegion(r, Walk(r, k)) && OffsetOf(r, Walk(r, k)) == k
    {
      WalkIsIndexAt(r, k);
      OffsetOfIndexAt(r, k);
    }
    forall idx | InRegion(r, idx)
      ensures Walk(r, OffsetOf(r, idx)) == idx
    {
      WalkIsIndexAt(r, OffsetOf(r, idx));
      IndexAtOffsetOf(r, idx);
    }
  }

  /**
   * `TransformIndexToPhysicalPoint` with identity direction:
   * `origin + spacing ⊙ index`, axis by axis.
   */
  function IndexToPhysical(g: Grid, idx: Index): (p: Point)
    requires |idx| == |g.origin| == |g.spacing|
    ensures |p| == |idx|
  {
    seq(|idx|, i requires 0 <= i < |idx| => g.origin[i] + g.spacing[i] * idx[i] as real)
  }

  /** With non-zero spacing, distinct indices map to distinct physical points. */
  lemma IndexToPhysicalInjective(g: Grid, a: Index, b: Index)
    requires |a| == |b| == |g.origin| == |g.spacing|
    requires forall i :: 0 <= i < |g.spacing| ==> g.spacing[i] != 0.0
    requires IndexToPhysical(g, a) == IndexToPhysical(g, b)
    ensures a == b
  {
    forall i | 0 <= i < |a|
      ensures a[i] == b[i]
    {
      assert IndexToPhysical(g, a)[i] == IndexToPhysical(g, b)[i];
      assert g.spacing[i] * (a[i] as real - b[i] as real) == 0.0;
    }
  }
}
