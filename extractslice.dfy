/**
 * The slice extraction tool: its per-component-type instantiations, the
 * extraction region it hands to the extract filter, and its program: the
 * sanity checks on slice number and axis, the default output name and the
 * probe over the supported component types.
 */
module ExtractSlice {
  import opened Results
  import opened TypeDispatch
  import opened ImageGrid

  /** The component types the tool is instantiated for, in the order the program probes them. */
  const ExtractSliceTypes: seq<ComponentType> := [UChar, Char, UShort, Short, Float]

  /**
   * The extraction region for slice `slicenumber` along axis `axis`: the
   * input region with that axis collapsed (size 0) and its start moved to
   * the slice, every other axis as in the input.
   */
  predicate IsExtractionRegion(input: Region, axis: nat, slicenumber: nat, desired: Region)
    requires RegionHasDimension(input, |input.size|) && axis < |input.size|
  {
    && RegionHasDimension(desired, |input.size|)
    && desired.size[axis] == 0
    && desired.start[axis] == slicenumber
    && (forall a :: 0 <= a < |input.size| && a != axis ==> desired.size[a] == input.size[a])
    && (forall a :: 0 <= a < |input.size| && a != axis ==> desired.start[a] == input.start[a])
  }

  /** `ITKToolsExtractSlice<TComponentType>`, with the template argument kept as `componentType`. */
  class ExtractSliceTool {
    const componentType: ComponentType
    var inputFileName: string
    var outputFileName: string
    var slicenumber: nat
    var whichDimension: nat

    constructor (t: ComponentType)
      ensures componentType == t
      ensures inputFileName == "" && outputFileName == "" && slicenumber == 0 && whichDimension == 0
    {
      componentType := t;
      inputFileName := "";
      outputFileName := "";
      slicenumber := 0;
      whichDimension := 0;
    }

    /** A new instantiation for `t` when `t` is the requested type, and null otherwise. */
    static method New(t: ComponentType, requested: ComponentType) returns (tool: ExtractSliceTool?)
      ensures tool != null <==> IsType(t, requested)
      ensures tool != null ==> fresh(tool) && tool.componentType == t
      ensures tool != null ==> tool.inputFileName == "" && tool.outputFileName == ""
                               && tool.slicenumber == 0 && tool.whichDimension == 0
    {
      if IsType(t, requested) {
        tool := new ExtractSliceTool(t);
      } else {
        tool := null;
      }
    }

    /** The program fills in the tool's members before running it. */
    method Configure(inputFileName: string, outputFileName: string, whichDimension: nat, slicenumber: nat)
      modifies this
      ensures this.inputFileName == inputFileName && this.outputFileName == outputFileName
      ensures this.whichDimension == whichDimension && this.slicenumber == slicenumber
    {
      this.inputFileName := inputFileName;
      this.outputFileName := outputFileName;
      this.whichDimension := whichDimension;
      this.slicenumber := slicenumber;
    }

    /**
     * The region computation of `Run`: take the largest possible region of
     * the 3D image read, set the size on the chosen axis to 0 and the start
     * on that axis to the slice number.
     */
    method Run(inputRegion: Region) returns (desired: Region)
      requires RegionHasDimension(inputRegion, 3) && whichDimension < 3
      ensures IsExtractionRegion(inputRegion, whichDimension, slicenumber, desired)
    {
      var size := inputRegion.size;
      size := size[whichDimension := 0];
      var start := inputRegion.start;
      start := start[whichDimension := slicenumber];
      desired := Region(start, size);
    }
  }

  /** The extraction region is determined by the input region, the axis and the slice number. */
  lemma ExtractionRegionIsUnique(input: Region, axis: nat, slicenumber: nat, d1: Region, d2: Region)
    requires RegionHasDimension(input, |input.size|) && axis < |input.size|
    requires IsExtractionRegion(input, axis, slicenumber, d1)
    requires IsExtractionRegion(input, axis, slicenumber, d2)
    ensures d1 == d2
  {
    assert d1.size == d2.size;
    assert d1.start == d2.start;
  }

  /**
   * When the slice number is a slice of the input region, the one-cell-thick
   * slab the extraction region describes lies inside the input region.
   */
  lemma ExtractedSliceInsideImage(input: Region, axis: nat, slicenumber: nat, desired: Region, idx: Index)
    requires RegionHasDimension(input, |input.size|) && axis < |input.size|
    requires IsExtractionRegion(input, axis, slicenumber, desired)
    requires input.start[axis] <= slicenumber < input.start[axis] + input.size[axis]
    requires InRegion(Region(desired.start, desired.size[axis := 1]), idx)
    ensures InRegion(input, idx)
  {
  }

  /** The possible outcomes of the two sanity checks. */
  datatype CheckOutcome = Passed | Rejected | ReadsPastImageSize

  /**
   * The sanity checks in the order the program runs them: the slice check
   * reads `imagesize[which]` first, and only then is `which` compared with
   * the dimension. A read past the end of `imagesize` is reported as
   * `ReadsPastImageSize`.
   */
  function SanityChecksAsWritten(dimension: nat, imagesize: seq<nat>, which: nat, slicenumber: nat): (r: CheckOutcome)
    requires 1 <= dimension && |imagesize| == dimension
    ensures r == ReadsPastImageSize <==> which >= dimension
    ensures r == Passed <==> which < dimension && slicenumber <= imagesize[which]
  {
    if which >= |imagesize| then ReadsPastImageSize
    else if slicenumber > imagesize[which] then Rejected
    else if which > dimension - 1 then Rejected
    else Passed
  }

  /**
   * The sanity checks with the axis checked before it is used and the slice
   * number compared with `>=`: a request passes exactly when it names an
   * existing axis and an existing slice along it.
   */
  function SanityChecks(dimension: nat, imagesize: seq<nat>, which: nat, slicenumber: nat): (accepted: bool)
    requires 1 <= dimension && |imagesize| == dimension
    ensures accepted <==> which < dimension && slicenumber < imagesize[which]
  {
    if which > dimension - 1 then false
    else if slicenumber >= imagesize[which] then false
    else true
  }

  /** A 2D image with the default axis 2: the slice check reads past the end of the image size. */
  lemma AsWrittenReadsPastImageSize()
    ensures SanityChecksAsWritten(2, [256, 256], 2, 0) == ReadsPastImageSize
    ensures !SanityChecks(2, [256, 256], 2, 0)
  {
  }

  /**
   * A 3D image with four slices along z: slice number 4, one past the last
   * slice, passes the checks as written, and its slab leaves the image.
   */
  lemma AsWrittenAcceptsOnePastLastSlice()
    ensures SanityChecksAsWritten(3, [4, 4, 4], 2, 4) == Passed
    ensures !SanityChecks(3, [4, 4, 4], 2, 4)
    ensures !InRegion(Region([0, 0, 0], [4, 4, 4]), [0, 0, 4])
  {
  }

  /** Wherever the checks as written are defined and the slice number is not the axis size, both agree. */
  lemma SanityChecksAgreeWhereDefined(dimension: nat, imagesize: seq<nat>, which: nat, slicenumber: nat)
    requires 1 <= dimension && |imagesize| == dimension
    requires which < dimension && slicenumber != imagesize[which]
    ensures (SanityChecksAsWritten(dimension, imagesize, which, slicenumber) == Passed)
            == SanityChecks(dimension, imagesize, which, slicenumber)
  {
  }

  /**
   * The checks as written accept every request the corrected checks accept,
   * and exactly one more slice per axis: the slice number equal to the axis
   * size, which lies outside the image.
   */
  lemma AsWrittenAcceptsExactlyOneMoreSlice(dimension: nat, imagesize: seq<nat>, which: nat, slicenumber: nat)
    requires 1 <= dimension && |imagesize| == dimension
    ensures SanityChecks(dimension, imagesize, which, slicenumber)
            ==> SanityChecksAsWritten(dimension, imagesize, which, slicenumber) == Passed
    ensures SanityChecksAsWritten(dimension, imagesize, which, slicenumber) == Passed
            && !SanityChecks(dimension, imagesize, which, slicenumber)
            <==> which < dimension && slicenumber == imagesize[which]
  {
  }

  /** The letter naming an axis in the default output name: x, y, and z for every other axis. */
  function DirectionLetter(axis: nat): (letter: string)
    ensures |letter| == 1
    ensures letter == "x" <==> axis == 0
    ensures letter == "y" <==> axis == 1
    ensures letter == "z" <==> axis >= 2
  {
    if axis == 0 then "x"
    else if axis == 1 then "y"
    else "z"
  }

  /** The default output name: input stem, `_slice_`, axis letter, `=`, slice number as given, input extension. */
  function DefaultOutputName(stem: string, letter: string, slicenumberString: string, ext: string): (name: string)
    ensures |name| == |stem| + 7 + |letter| + 1 + |slicenumberString| + |ext|
    ensures name[..|stem|] == stem && name[|name| - |ext|..] == ext
  {
    stem + "_slice_" + letter + "=" + slicenumberString + ext
  }

  /**
   * The default name can be read back: between the stem with `_slice_`,
   * letter and `=` in front and the extension behind lies the slice number
   * as given, so different slice numbers give different default names.
   */
  lemma DefaultOutputNameParts(stem: string, letter: string, slicenumberString: string, ext: string)
    ensures var name := DefaultOutputName(stem, letter, slicenumberString, ext);
            && name[|stem|..|stem| + 7] == "_slice_"
            && name[|stem| + 7..|stem| + 7 + |letter|] == letter
            && name[|stem| + 7 + |letter|] == '='
            && name[|stem| + 7 + |letter| + 1..|name| - |ext|] == slicenumberString
  {
    var name := DefaultOutputName(stem, letter, slicenumberString, ext);
    assert name == stem + ("_slice_" + (letter + ("=" + (slicenumberString + ext))));
  }

  /** The command-line arguments the program reads after `-in`. */
  datatype ExtractSliceArgs = ExtractSliceArgs(
    inputFileName: string,                // -in
    pixelType: Option<ComponentType>,     // -pt, overrides the header's component type
    slicenumber: nat,                     // -sn, as a number
    slicenumberString: string,            // -sn, as written
    whichDimension: Option<nat>,          // -d
    outputFileName: Option<string>)       // -out

  /** What the program hands to `Run`: the instantiation chosen, the file names and the extraction region. */
  datatype ExtractionJob = ExtractionJob(
    componentType: ComponentType,
    inputFileName: string,
    outputFileName: string,
    whichDimension: nat,
    slicenumber: nat,
    region: Region)

  /** The axis to slice along: `-d`, by default 2 (z). */
  function Axis(args: ExtractSliceArgs): nat {
    args.whichDimension.GetOr(2)
  }

  /** The component type to instantiate for: `-pt` when given, else the header's. */
  function RequestedType(props: ImageProperties, args: ExtractSliceArgs): ComponentType {
    args.pixelType.GetOr(props.componentType)
  }

  /** The output name: `-out` when given, the default name otherwise. */
  function OutputFileName(args: ExtractSliceArgs, stem: string, ext: string): (name: string)
    ensures args.outputFileName.Some? ==> name == args.outputFileName.value
    ensures args.outputFileName.None? ==>
              name == DefaultOutputName(stem, DirectionLetter(Axis(args)), args.slicenumberString, ext)
  {
    args.outputFileName.GetOr(DefaultOutputName(stem, DirectionLetter(Axis(args)), args.slicenumberString, ext))
  }

  predicate HeaderIsValid(props: Option<ImageProperties>) {
    props.Some? ==> 1 <= props.value.dimension <= 3 && |props.value.size| == props.value.dimension
  }

  /**
   * Every check of the program, as written, passes and some instantiation
   * matches the requested type.
   */
  predicate SliceRequestAccepted(props: Option<ImageProperties>, args: ExtractSliceArgs)
    requires HeaderIsValid(props)
  {
    && props.Some?
    && props.value.numberOfComponents <= 1
    && SanityChecksAsWritten(props.value.dimension, props.value.size, Axis(args), args.slicenumber) == Passed
    && FirstMatch(ExtractSliceTypes, IsTypeOf(RequestedType(props.value, args))).Some?
  }

  /**
   * The probe of the program: try the instantiations in the order of
   * `ExtractSliceTypes`, each only while no earlier one has matched.
   */
  method NewForComponentType(componentType: ComponentType) returns (extractSlice: ExtractSliceTool?)
    ensures extractSlice != null <==> FirstMatch(ExtractSliceTypes, IsTypeOf(componentType)).Some?
    ensures extractSlice != null ==>
              && fresh(extractSlice)
              && Some(extractSlice.componentType) == FirstMatch(ExtractSliceTypes, IsTypeOf(componentType))
              && extractSlice.inputFileName == "" && extractSlice.outputFileName == ""
  {
    extractSlice := null;
    if extractSlice == null { extractSlice := ExtractSliceTool.New(UChar, componentType); }
    if extractSlice == null { extractSlice := ExtractSliceTool.New(Char, componentType); }
    if extractSlice == null { extractSlice := ExtractSliceTool.New(UShort, componentType); }
    if extractSlice == null { extractSlice := ExtractSliceTool.New(Short, componentType); }
    if extractSlice == null { extractSlice := ExtractSliceTool.New(Float, componentType); }
    FirstMatchSelectsRequestedType(ExtractSliceTypes, componentType);
  }

  /**
   * The program after argument parsing: read the header, let `-pt`
   * override its component type, refuse vector images, run the sanity
   * checks as written (a read past the image size ends in exit 1, since
   * the axis check that follows it rejects the axis), build the output name, probe the
   * instantiations in order, fill in the chosen one and compute its
   * extraction region from `readRegion`, the region of the 3D image read.
   */
  method ExtractSliceMain(props: Option<ImageProperties>, args: ExtractSliceArgs, stem: string, ext: string, readRegion: Region)
    returns (exitCode: int, job: Option<ExtractionJob>)
    requires HeaderIsValid(props) && RegionHasDimension(readRegion, 3)
    ensures exitCode == 0 || exitCode == 1
    ensures exitCode == 0 <==> SliceRequestAccepted(props, args)
    ensures exitCode == 1 ==> job == None
    ensures exitCode == 0 ==>
              && job.Some?
              && Some(job.value.componentType) == FirstMatch(ExtractSliceTypes, IsTypeOf(RequestedType(props.value, args)))
              && job.value.inputFileName == args.inputFileName
              && job.value.outputFileName == OutputFileName(args, stem, ext)
              && job.value.whichDimension == Axis(args) < 3
              && job.value.slicenumber == args.slicenumber
              && IsExtractionRegion(readRegion, Axis(args), args.slicenumber, job.value.region)
  {
    job := None;
    if props.None? {
      return 1, None;
    }
    var properties := props.value;
    var componentType := args.pixelType.GetOr(properties.componentType);
    if properties.numberOfComponents > 1 {
      return 1, None;
    }
    var slicenumber := args.slicenumber;
    var whichDimension := args.whichDimension.GetOr(2);
    var outcome := SanityChecksAsWritten(properties.dimension, properties.size, whichDimension, slicenumber);
    if outcome != Passed {
      return 1, None;
    }
    var direction := DirectionLetter(whichDimension);
    var outputFileName := DefaultOutputName(stem, direction, args.slicenumberString, ext);
    if args.outputFileName.Some? {
      outputFileName := args.outputFileName.value;
    }

    var extractSlice := NewForComponentType(componentType);
    if extractSlice == null {
      return 1, None;
    }

    extractSlice.Configure(args.inputFileName, outputFileName, whichDimension, slicenumber);
    var region := extractSlice.Run(readRegion);
    exitCode := 0;
    job := Some(ExtractionJob(extractSlice.componentType, extractSlice.inputFileName, extractSlice.outputFileName,
                              extractSlice.whichDimension, extractSlice.slicenumber, region));
  }

  /**
   * The program goes on to extraction for slice 4 of a scalar 4×4×4 short
   * image along z, one slice past the last, which the corrected checks
   * refuse.
   */
  lemma ProgramAcceptsOnePastLastSlice()
    ensures var props := Some(ImageProperties(Short, 3, 1, [4, 4, 4]));
            var args := ExtractSliceArgs("in.mhd", None, 4, "4", None, None);
            && HeaderIsValid(props)
            && SliceRequestAccepted(props, args)
            && !SanityChecks(3, [4, 4, 4], Axis(args), args.slicenumber)
  {
    FirstMatchSelectsRequestedType(ExtractSliceTypes, Short);
  }
}
