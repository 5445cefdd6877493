/**
 * The deformation field generator: the checks on its inputs, the conversion
 * of index-valued landmarks, the choice of kernel transform, the dense loop
 * that stores `T(p) - p` at every cell of the first image's grid, and the
 * program's dispatch on the image dimension.
 *
 * Fitting the kernel transform to the landmarks and evaluating it are left
 * abstract: `evaluate(kt, p)` is the point the transform fitted from the
 * configuration `kt` maps `p` to.
 */
module DeformationField {
  import opened Results
  import opened ImageGrid
  import opened Landmarks
  import opened Kernels

  /** What is handed to the kernel transform before its weights are computed. */
  datatype KernelTransform = KernelTransform(
    kernel: KernelKind,
    stiffness: real,
    source: seq<Point>,
    target: seq<Point>)

  /** The fitted kernel transform, evaluated at a point. */
  type Evaluator = (KernelTransform, Point) -> Point

  /** ITK points have the image dimension: the transform maps a point to one of the same dimension. */
  ghost predicate KeepsDimension(evaluate: Evaluator) {
    forall kt, p :: |evaluate(kt, p)| == |p|
  }

  /** A dense vector image: a grid and one vector per cell, in storage order. */
  datatype DeformationField = DeformationField(grid: Grid, cells: seq<Point>)

  /** What a successful run produces: the configured transform and the field it induces. */
  datatype Generation = Generation(transform: KernelTransform, field: DeformationField)

  /** The exceptions the generator raises. */
  datatype GeneratorError = PointCountMismatch | SecondImageNeeded | UnknownKernel

  /** The program's inputs, with the file reads already done. */
  datatype GeneratorInput = GeneratorInput(
    image1: Grid,       // header of -in1
    image2Name: string, // -in2, "" when not given
    image2: Grid,       // header of -in2, read only when the second point set holds indices
    points1: PointFile, // -ipp1
    points2: PointFile, // -ipp2
    kernelName: string, // -k, "TPS" by default
    stiffness: real)    // -s, 0.0 by default

  predicate InputHasDimension(input: GeneratorInput, dim: nat) {
    && GridHasDimension(input.image1, dim)
    && GridHasDimension(input.image2, dim)
    && PointsHaveDimension(input.points1.points, dim)
    && PointsHaveDimension(input.points2.points, dim)
  }

  /** The vector that moves `pointin` onto `pointout`. */
  function Displacement(pointout: Point, pointin: Point): (v: Point)
    requires |pointout| == |pointin|
    ensures |v| == |pointin|
    ensures forall i :: 0 <= i < |v| ==> pointin[i] + v[i] == pointout[i]
  {
    seq(|pointin|, i requires 0 <= i < |pointin| => pointout[i] - pointin[i])
  }

  /**
   * The displacement the field loop stores at its `k`-th step, which is the
   * cell at storage offset `k` of the field over `g` (`WalkIsIndexAt`).
   */
  function CellValue(g: Grid, evaluate: Evaluator, kt: KernelTransform, k: nat): Point
    requires GridHasDimension(g, |g.origin|) && k < NumCells(g.region.size)
    requires KeepsDimension(evaluate)
  {
    var p := IndexToPhysical(g, Walk(g.region, k));
    Displacement(evaluate(kt, p), p)
  }

  /** The contents of the whole field, offset by offset. */
  function ExpectedCells(g: Grid, evaluate: Evaluator, kt: KernelTransform): seq<Point>
    requires GridHasDimension(g, |g.origin|) && KeepsDimension(evaluate)
  {
    seq(NumCells(g.region.size), k requires 0 <= k < NumCells(g.region.size) => CellValue(g, evaluate, kt, k))
  }

  /** What a run of the generator yields for its inputs, or the exception it raises. */
  function ExpectedGeneration(input: GeneratorInput, evaluate: Evaluator, rnd: real -> int): Result<Generation, GeneratorError>
    requires InputHasDimension(input, |input.image1.origin|) && KeepsDimension(evaluate)
  {
    if |input.points1.points| != |input.points2.points| then Failure(PointCountMismatch)
    else if input.points2.pointsAreIndices && input.image2Name == "" then Failure(SecondImageNeeded)
    else
      match SelectKernel(input.kernelName)
      case None => Failure(UnknownKernel)
      case Some(kernel) =>
        var kt := KernelTransform(
          kernel,
          input.stiffness,
          PhysicalLandmarks(input.points1, input.image1, rnd),
          PhysicalLandmarks(input.points2, input.image2, rnd));
        Success(Generation(kt, DeformationField(input.image1, ExpectedCells(input.image1, evaluate, kt))))
  }

  /**
   * The field loop: an iterator with index walks the region from its start,
   * and at each cell the displacement from the cell's physical point to its
   * image under the transform is stored, in the buffer's order.
   */
  method FillField(field: array<Point>, g: Grid, evaluate: Evaluator, kt: KernelTransform)
    requires GridHasDimension(g, |g.origin|) && field.Length == NumCells(g.region.size)
    requires KeepsDimension(evaluate)
    modifies field
    ensures field[..] == ExpectedCells(g, evaluate, kt)
  {
    var n := field.Length;
    var index := g.region.start;
    ghost var cells := ExpectedCells(g, evaluate, kt);
    var k := 0;
    while k < n
      invariant 0 <= k <= n && index == Walk(g.region, k)
      invariant field[..k] == cells[..k]
    {
      var pointin := IndexToPhysical(g, index);
      var pointout := evaluate(kt, pointin);
      field[k] := Displacement(pointout, pointin);
      index := NextIndex(g.region, index);
      k := k + 1;
    }
    assert field[..] == field[..n];
  }

  /** `DeformationFieldGenerator<Dimension>`: one run of the generator on inputs of dimension `dim`. */
  method DeformationFieldGenerator(dim: nat, input: GeneratorInput, evaluate: Evaluator, rnd: real -> int)
    returns (r: Result<Generation, GeneratorError>)
    requires InputHasDimension(input, dim) && KeepsDimension(evaluate)
    ensures r == ExpectedGeneration(input, evaluate, rnd)
  {
    var nrofpoints1 := |input.points1.points|;
    var nrofpoints2 := |input.points2.points|;
    if nrofpoints2 != nrofpoints1 {
      return Failure(PointCountMismatch);
    }
    if input.points2.pointsAreIndices && input.image2Name == "" {
      return Failure(SecondImageNeeded);
    }
    var source := input.points1.points;
    if input.points1.pointsAreIndices {
      source := ConvertIndexPoints(source, input.image1, rnd);
    }
    var target := input.points2.points;
    if input.points2.pointsAreIndices {
      target := ConvertIndexPoints(target, input.image2, rnd);
    }
    var kernel := SelectKernel(input.kernelName);
    if kernel.None? {
      return Failure(UnknownKernel);
    }
    var kt := KernelTransform(kernel.value, input.stiffness, source, target);
    var field := new Point[NumCells(input.image1.region.size)];
    FillField(field, input.image1, evaluate, kt);
    r := Success(Generation(kt, DeformationField(input.image1, field[..])));
  }

  /** The `run` macro fires for a 2D or a 3D image. */
  predicate SupportedDimension(dim: nat) {
    dim == 2 || dim == 3
  }

  /** The header was read, describes a scalar image and has a supported dimension. */
  predicate GeneratorRuns(props: Option<ImageProperties>) {
    props.Some? && props.value.numberOfComponents <= 1 && SupportedDimension(props.value.dimension)
  }

  /**
   * The program after argument parsing: read the first image's header,
   * refuse vector images, run the generator for 3D or 2D, and turn an
   * exception or an unsupported dimension into exit code 1. `written` is
   * what reaches the writer; `runs` lists the dimensions a `run` macro fired for.
   */
  method GeneratorMain(props: Option<ImageProperties>, input: GeneratorInput, evaluate: Evaluator, rnd: real -> int)
    returns (exitCode: int, written: Option<Generation>, ghost runs: seq<nat>)
    requires KeepsDimension(evaluate)
    requires props.Some? && SupportedDimension(props.value.dimension) ==> InputHasDimension(input, props.value.dimension)
    ensures exitCode == 0 || exitCode == 1
    ensures exitCode == 0 <==> GeneratorRuns(props) && ExpectedGeneration(input, evaluate, rnd).Success?
    ensures exitCode == 0 ==> written == Some(ExpectedGeneration(input, evaluate, rnd).value)
    ensures exitCode == 1 ==> written == None
    ensures runs == if GeneratorRuns(props) then [props.value.dimension] else []
  {
    runs := [];
    written := None;
    if props.None? {
      return 1, None, [];
    }
    var properties := props.value;
    if properties.numberOfComponents > 1 {
      return 1, None, [];
    }
    var dimension := properties.dimension;
    var supported := false;
    if dimension == 3 {
      var r := DeformationFieldGenerator(3, input, evaluate, rnd);
      runs := runs + [3];
      if r.Failure? {
        return 1, None, runs;
      }
      written := Some(r.value);
      supported := true;
    }
    if dimension == 2 {
      var r := DeformationFieldGenerator(2, input, evaluate, rnd);
      runs := runs + [2];
      if r.Failure? {
        return 1, None, runs;
      }
      written := Some(r.value);
      supported := true;
    }
    if !supported {
      return 1, None, runs;
    }
    exitCode := 0;
  }

  /**
   * Unequal point counts raise the count exception, whatever else is wrong
   * with the inputs: no later check, conversion or fit is reached.
   */
  lemma PointCountMismatchComesFirst(input: GeneratorInput, evaluate: Evaluator, rnd: real -> int)
    requires InputHasDimension(input, |input.image1.origin|) && KeepsDimension(evaluate)
    ensures ExpectedGeneration(input, evaluate, rnd).Failure? && ExpectedGeneration(input, evaluate, rnd).error == PointCountMismatch
            <==> |input.points1.points| != |input.points2.points|
  {
  }

  /**
   * The second image is needed exactly when the second point set holds
   * indices; when it does not, neither the second image's name nor its
   * header has any influence on the run.
   */
  lemma SecondImageOnlyForIndexPoints(input: GeneratorInput, name2: string, image2: Grid, evaluate: Evaluator, rnd: real -> int)
    requires InputHasDimension(input, |input.image1.origin|) && KeepsDimension(evaluate)
    requires GridHasDimension(image2, |input.image1.origin|)
    requires |input.points1.points| == |input.points2.points|
    ensures ExpectedGeneration(input, evaluate, rnd) == Failure(SecondImageNeeded)
            <==> input.points2.pointsAreIndices && input.image2Name == ""
    ensures !input.points2.pointsAreIndices ==>
              ExpectedGeneration(input.(image2Name := name2, image2 := image2), evaluate, rnd)
              == ExpectedGeneration(input, evaluate, rnd)
  {
  }

  /** An error while reading a point file is only reported: the run goes on with what the reader holds. */
  lemma PointFileReadErrorsAreIgnored(input: GeneratorInput, failed1: bool, failed2: bool, evaluate: Evaluator, rnd: real -> int)
    requires InputHasDimension(input, |input.image1.origin|) && KeepsDimension(evaluate)
    ensures ExpectedGeneration(input.(points1 := input.points1.(readFailed := failed1),
                                      points2 := input.points2.(readFailed := failed2)), evaluate, rnd)
            == ExpectedGeneration(input, evaluate, rnd)
  {
  }

  /**
   * Once the counts and the second image are in order, the run fails on the
   * kernel exactly when the name is not one of the five, and otherwise uses
   * the named kernel and the given stiffness.
   */
  lemma KernelChosenByName(input: GeneratorInput, evaluate: Evaluator, rnd: real -> int)
    requires InputHasDimension(input, |input.image1.origin|) && KeepsDimension(evaluate)
    requires |input.points1.points| == |input.points2.points|
    requires !(input.points2.pointsAreIndices && input.image2Name == "")
    ensures ExpectedGeneration(input, evaluate, rnd) == Failure(UnknownKernel)
            <==> input.kernelName !in {"TPS", "TPSR2LOGR", "VS", "EBS", "EBSR"}
    ensures ExpectedGeneration(input, evaluate, rnd).Success? ==>
              var kt := ExpectedGeneration(input, evaluate, rnd).value.transform;
              KernelName(kt.kernel) == input.kernelName && kt.stiffness == input.stiffness
  {
    SelectKernelAcceptsExactlyFiveNames(input.kernelName, input.kernelName);
  }

  /**
   * The landmarks handed to the fit: set 1 in image 1's physical space,
   * set 2 in image 2's, each of the common count and in file order; point
   * `j` of an index-valued set is the physical point of its rounded index.
   */
  lemma LandmarksHandedToFit(input: GeneratorInput, evaluate: Evaluator, rnd: real -> int, j: nat)
    requires InputHasDimension(input, |input.image1.origin|) && KeepsDimension(evaluate)
    requires ExpectedGeneration(input, evaluate, rnd).Success?
    requires j < |input.points1.points|
    ensures var kt := ExpectedGeneration(input, evaluate, rnd).value.transform;
            && |kt.source| == |kt.target| == |input.points1.points|
            && kt.source[j] == (if input.points1.pointsAreIndices
                                then IndexToPhysical(input.image1, RoundedIndex(input.points1.points[j], rnd))
                                else input.points1.points[j])
            && kt.target[j] == (if input.points2.pointsAreIndices
                                then IndexToPhysical(input.image2, RoundedIndex(input.points2.points[j], rnd))
                                else input.points2.points[j])
  {
  }

  /**
   * The field lives on image 1's grid, has one cell per index of its
   * region, and the cell of index `idx` holds `T(p) - p` for the physical
   * point `p` of `idx`.
   */
  lemma FieldOnFirstImageGrid(input: GeneratorInput, evaluate: Evaluator, rnd: real -> int, idx: Index)
    requires InputHasDimension(input, |input.image1.origin|) && KeepsDimension(evaluate)
    requires ExpectedGeneration(input, evaluate, rnd).Success?
    requires InRegion(input.image1.region, idx)
    ensures var gen := ExpectedGeneration(input, evaluate, rnd).value;
            var p := IndexToPhysical(input.image1, idx);
            && gen.field.grid == input.image1
            && |gen.field.cells| == NumCells(input.image1.region.size)
            && OffsetOf(input.image1.region, idx) < |gen.field.cells|
            && gen.field.cells[OffsetOf(input.image1.region, idx)] == Displacement(evaluate(gen.transform, p), p)
  {
    WalkVisitsEveryIndexOnce(input.image1.region);
  }

  /** A transform that leaves every point in place yields the zero vector in every cell. */
  lemma IdentityTransformGivesZeroField(g: Grid, evaluate: Evaluator, kt: KernelTransform)
    requires GridHasDimension(g, |g.origin|) && KeepsDimension(evaluate)
    requires forall p :: evaluate(kt, p) == p
    ensures forall k :: 0 <= k < |ExpectedCells(g, evaluate, kt)| ==>
              ExpectedCells(g, evaluate, kt)[k] == seq(|g.origin|, _ => 0.0)
  {
    forall k | 0 <= k < |ExpectedCells(g, evaluate, kt)|
      ensures ExpectedCells(g, evaluate, kt)[k] == seq(|g.origin|, _ => 0.0)
    {
      var p := IndexToPhysical(g, Walk(g.region, k));
      assert evaluate(kt, p) == p;
    }
  }
}
