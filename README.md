# ITKTools: deformation field generator, slice extraction, 3D cast-convert dispatch

This project is a Dafny model of three command-line tools from ITKTools:

- **pxdeformationfieldgenerator** reads two landmark files and the header of
  a first image. Landmarks given as grid indices are rounded and mapped to
  physical points through their image's grid. The tool checks that both
  sets have the same number of points and that a second image exists when
  the second set holds indices. It selects one of five kernel transforms by
  name. For every cell of the first image's grid, walked by an ITK region
  iterator, it stores the vector `T(p) - p`, where `p` is the cell's
  physical point. The program runs this for 3D or 2D images. Exceptions and
  unsupported dimensions become exit code 1.
- **pxextractslice** reads an image header and lets `-pt` override the
  component type. It refuses vector images and runs two sanity checks on
  the slice number and the axis. It builds the default output name
  `<stem>_slice_<x|y|z>=<sn><ext>` and probes five component-type
  specialisations in order. The selected specialisation collapses the
  chosen axis of the image's region to the requested slice.
- **castconvert3D** probes ten component-type specialisations of the
  cast-convert tool, each in 3D, in a fixed order. Each probe runs only
  while the in/out reference is still null.

Modules:

- `ImageGrid` holds:
  - regions and grids;
  - the mixed-radix layout of a region's cells in the buffer, first axis fastest;
  - the iterator's `++` with carry, and the walk it produces;
  - index-to-physical mapping.
- `TypeDispatch` holds component type tags, `IsType`, and the first-match probe.
- `Landmarks` holds point files and the index-to-point conversion loop.
- `Kernels` holds the five kernels and their names.
- `DeformationField` holds the generator, its field loop and the program.
- `ExtractSlice` holds the extract-slice tool class and its program.
- `CastConvert` holds the 3D cast-convert probe.
- `Results` holds `Option` and `Result`.

Several things are parameters of the model rather than computed by it:

- Reading files and headers is outside the model. Their outcome is an
  input: an `ImageProperties` option, `PointFile` values, `Grid` values and
  the region of the image read.
- The fitted kernel transform is the parameter `evaluate`.
- The rounding function `vnl_math_rnd` is the parameter `rnd`.
- Whether a cast-convert specialisation accepts a request is the
  parameter `accepts`.

## Model

| member | source | states |
|---|---|---|
| TypeDispatch.FirstMatch | src/extractslice/extractslice.cxx:264-279 | The probe's outcome is a candidate that accepts, and there is no outcome exactly when no candidate accepts |
| TypeDispatch.FirstMatchIsEarliest | src/extractslice/extractslice.cxx:264-269 | The chosen candidate sits at some position, and every candidate before it was rejected |
| TypeDispatch.FirstMatchIgnoresLaterCandidates | src/castconvert/castconvert3D.cxx:25-34 | Once an earlier candidate accepts, candidates appended after it cannot change the outcome |
| TypeDispatch.FirstMatchSelectsRequestedType | src/extractslice/extractslice.cxx:92-99 | Under the `IsType` test, the probe yields the requested tag when it is among the candidates, and nothing otherwise |
| TypeDispatch.FirstMatchStep | src/castconvert/castconvert3D.cxx:25 | One guarded line: the outcome from position `i` is the `i`-th candidate if it accepts, else the outcome from `i + 1` |
| ImageGrid.IndexAt | src/deformationfieldgenerator/deformationfieldgenerator.cxx:376-377 | The index stored at buffer offset `k` lies inside the region |
| ImageGrid.OffsetOf | src/deformationfieldgenerator/deformationfieldgenerator.cxx:376-377 | The buffer offset of an index of the region is below the region's cell count |
| ImageGrid.OffsetOfIndexAt | src/deformationfieldgenerator/deformationfieldgenerator.cxx:376-377 | Offset → index → offset is the identity on `0 .. NumCells - 1` |
| ImageGrid.IndexAtOffsetOf | src/deformationfieldgenerator/deformationfieldgenerator.cxx:376-377 | Index → offset → index is the identity on the region |
| ImageGrid.EveryIndexAtExactlyOneOffset | src/deformationfieldgenerator/deformationfieldgenerator.cxx:376-377 | Every index of the region is stored at exactly one offset |
| ImageGrid.NextIndex | src/deformationfieldgenerator/deformationfieldgenerator.cxx:390 | `++iterator` keeps the index's dimension; `NextIndexAt` states where it moves |
| ImageGrid.Walk | src/deformationfieldgenerator/deformationfieldgenerator.cxx:378-391 | The iterator's index after `GoToBegin` and `k` increments keeps the region's dimension; `WalkIsIndexAt` and `WalkVisitsEveryIndexOnce` state which cell it is |
| ImageGrid.IndexAtZero | src/deformationfieldgenerator/deformationfieldgenerator.cxx:378 | `GoToBegin` stands on the region's start index, the cell at offset 0 |
| ImageGrid.NextIndexAt | src/deformationfieldgenerator/deformationfieldgenerator.cxx:390 | `++iterator`, with its carry into later axes, moves from the cell at offset `k` to the cell at offset `k + 1` |
| ImageGrid.NextIndexWithinAxis | src/deformationfieldgenerator/deformationfieldgenerator.cxx:390 | Without a carry, the increment advances only the first axis, and lands on the next offset |
| ImageGrid.NextIndexCarry | src/deformationfieldgenerator/deformationfieldgenerator.cxx:390 | With a carry, the first axis returns to its start, the other axes advance, and the result is the next offset |
| ImageGrid.WalkIsIndexAt | src/deformationfieldgenerator/deformationfieldgenerator.cxx:378-391 | After `k` increments from `GoToBegin`, the iterator stands on the cell stored at offset `k` |
| ImageGrid.WalkVisitsEveryIndexOnce | src/deformationfieldgenerator/deformationfieldgenerator.cxx:382-391 | The iterator's walk meets every index of the region exactly once, each at the step of its offset, and repeats none |
| ImageGrid.IndexToPhysical | src/deformationfieldgenerator/deformationfieldgenerator.cxx:386 | `TransformIndexToPhysicalPoint` keeps the dimension |
| ImageGrid.IndexToPhysicalInjective | src/deformationfieldgenerator/deformationfieldgenerator.cxx:311 | With non-zero spacing, distinct indices map to distinct physical points |
| Landmarks.RoundingKeepsIntegers | src/deformationfieldgenerator/deformationfieldgenerator.cxx:309 | A round-to-nearest rule, whatever its tie rule, leaves whole numbers unchanged |
| Landmarks.ConvertedPoints | src/deformationfieldgenerator/deformationfieldgenerator.cxx:302-313 | The converted set has one point per landmark, and point `j` is the physical point of the rounded index of landmark `j` |
| Landmarks.ConvertIndexPoints | src/deformationfieldgenerator/deformationfieldgenerator.cxx:295-315 | The nested conversion loops build exactly `ConvertedPoints` |
| Landmarks.ConvertedPointsPreservesOrder | src/deformationfieldgenerator/deformationfieldgenerator.cxx:302-313 | Conversion works point by point: converting `a + b` gives the conversions of `a` and `b` in sequence |
| Landmarks.ConversionOfWholeIndices | src/deformationfieldgenerator/deformationfieldgenerator.cxx:307-311 | A landmark component that is already a whole number becomes `origin + spacing * component` |
| Kernels.SelectKernel | src/deformationfieldgenerator/deformationfieldgenerator.cxx:340-364 | A selected kernel carries the name that selected it |
| Kernels.SelectKernelByName | src/deformationfieldgenerator/deformationfieldgenerator.cxx:82 | Each kernel is selected by its own name, and the default "TPS" selects the thin plate spline |
| Kernels.SelectKernelAcceptsExactlyFiveNames | src/deformationfieldgenerator/deformationfieldgenerator.cxx:340-364 | Exactly the five names are accepted, and distinct names select distinct kernels |
| DeformationField.Displacement | src/deformationfieldgenerator/deformationfieldgenerator.cxx:388 | `pointout - pointin` is the vector that moves `pointin` onto `pointout`, component by component |
| DeformationField.FillField | src/deformationfieldgenerator/deformationfieldgenerator.cxx:371-391 | The iterator loop leaves the field buffer equal to `ExpectedCells`: at each step's offset, the displacement of that step's index |
| DeformationField.DeformationFieldGenerator | src/deformationfieldgenerator/deformationfieldgenerator.cxx:267-391 | One run yields exactly `ExpectedGeneration`: the three exceptions in source order, or the configured transform and its field |
| DeformationField.GeneratorMain | src/deformationfieldgenerator/deformationfieldgenerator.cxx:108-149 | Exit code 0 exactly when the header is usable, the image is scalar 2D or 3D and the run succeeds; only then is a field written; at most one `run` fires, for the header's dimension |
| DeformationField.PointCountMismatchComesFirst | src/deformationfieldgenerator/deformationfieldgenerator.cxx:267-270 | The count exception is raised exactly when the counts differ, whatever else is wrong |
| DeformationField.SecondImageOnlyForIndexPoints | src/deformationfieldgenerator/deformationfieldgenerator.cxx:278-291 | The second image is required exactly when set 2 holds indices; otherwise its name and header do not affect the run |
| DeformationField.PointFileReadErrorsAreIgnored | src/deformationfieldgenerator/deformationfieldgenerator.cxx:221-229 | A read error in either point file does not change the outcome of the run |
| DeformationField.KernelChosenByName | src/deformationfieldgenerator/deformationfieldgenerator.cxx:340-366 | After the earlier checks, the run fails on the kernel exactly for names outside the five; otherwise the named kernel and the given stiffness are used |
| DeformationField.LandmarksHandedToFit | src/deformationfieldgenerator/deformationfieldgenerator.cxx:294-338 | Source and target landmarks have the common count; landmark `j` is converted through its own image when given as an index, and passed unchanged otherwise |
| DeformationField.FieldOnFirstImageGrid | src/deformationfieldgenerator/deformationfieldgenerator.cxx:372-389 | The field has image 1's grid and one cell per index, and the cell of each index holds `T(p) - p` for its physical point `p` |
| DeformationField.IdentityTransformGivesZeroField | src/deformationfieldgenerator/deformationfieldgenerator.cxx:386-389 | A transform that fixes every point yields the zero vector in every cell |
| ExtractSlice.ExtractSliceTool.New | src/extractslice/extractslice.cxx:92-99 | A specialisation is created exactly when its type is the requested one, with the members of the base constructor |
| ExtractSlice.ExtractSliceTool.Configure | src/extractslice/extractslice.cxx:281-284 | The four members are set to the program's values |
| ExtractSlice.ExtractSliceTool.Run | src/extractslice/extractslice.cxx:125-137 | The extraction region has size 0 on the chosen axis and starts at the slice number there; every other axis is as in the input region |
| ExtractSlice.ExtractionRegionIsUnique | src/extractslice/extractslice.cxx:125-137 | The extraction region is determined by the input region, the axis and the slice number |
| ExtractSlice.ExtractedSliceInsideImage | src/extractslice/extractslice.cxx:125-137 | For a slice inside the image, the one-cell-thick slab of the extraction region lies inside the input region |
| ExtractSlice.SanityChecksAsWritten | src/extractslice/extractslice.cxx:222-243 | The checks as written read past the image size exactly when the axis is not below the dimension, and pass exactly when the axis exists and the slice number is at most the axis size, the axis size itself included |
| ExtractSlice.SanityChecks | src/extractslice/extractslice.cxx:222-243 | A request passes exactly when it names an existing axis and an existing slice along it |
| ExtractSlice.AsWrittenReadsPastImageSize | src/extractslice/extractslice.cxx:219-223 | A 2D image with the default axis 2 makes the slice check read past the image size |
| ExtractSlice.AsWrittenAcceptsOnePastLastSlice | src/extractslice/extractslice.cxx:223 | Slice 4 of an image with 4 slices along z passes the checks as written, and lies outside the image |
| ExtractSlice.AsWrittenAcceptsExactlyOneMoreSlice | src/extractslice/extractslice.cxx:222-243 | Every request the corrected checks pass also passes as written; the only extra requests are those whose slice number equals the axis size |
| ExtractSlice.SanityChecksAgreeWhereDefined | src/extractslice/extractslice.cxx:222-243 | Where the checks as written are defined and the slice number differs from the axis size, both versions agree |
| ExtractSlice.DirectionLetter | src/extractslice/extractslice.cxx:246-248 | Axis 0 is "x", axis 1 is "y", and every other axis is "z" |
| ExtractSlice.DefaultOutputName | src/extractslice/extractslice.cxx:249-253 | The default name starts with the stem, ends with the extension, and has their lengths plus the middle part |
| ExtractSlice.DefaultOutputNameParts | src/extractslice/extractslice.cxx:253 | The default name splits back into stem, `_slice_`, letter, `=`, slice number string and extension |
| ExtractSlice.OutputFileName | src/extractslice/extractslice.cxx:245-254 | `-out` overrides the output name; without it the default name is used |
| ExtractSlice.NewForComponentType | src/extractslice/extractslice.cxx:264-279 | The probe creates a specialisation exactly when the requested type is one of the five, and it is the first that matches |
| ExtractSlice.ExtractSliceMain | src/extractslice/extractslice.cxx:185-298 | Exit code 0 exactly when the header is usable, the image is scalar, the checks as written pass (a read past the image size gives exit 1) and a specialisation exists; the job then carries the program's file names, axis, slice and extraction region |
| ExtractSlice.ProgramAcceptsOnePastLastSlice | src/extractslice/extractslice.cxx:222-286 | The program accepts slice 4 of a scalar 4×4×4 short image along z, and goes on to extraction, although the corrected checks refuse it |
| CastConvert.CastConvertTool.New | src/castconvert/castconvert3D.cxx:25 | A specialisation is created exactly when it accepts the request, with its component type and dimension |
| CastConvert.ProbeCandidate | src/castconvert/castconvert3D.cxx:25-34 | One guarded line: a non-null reference is kept; otherwise the candidate's `New` is called and its answer taken |
| CastConvert.ProbeStateStep | src/castconvert/castconvert3D.cxx:25-34 | Each guarded line keeps the probe's state: still null with the outcome left to the remaining candidates, or holding the first acceptor |
| CastConvert.ProbeFive | src/castconvert/castconvert3D.cxx:25-34 | Five consecutive guarded lines keep the probe's state |
| CastConvert.ProbeStateFinal | src/castconvert/castconvert3D.cxx:34 | After the ten lines, the probe's state is its outcome |
| CastConvert.CastConvert3D | src/castconvert/castconvert3D.cxx:21-36 | A non-null reference is returned unchanged and nothing is probed. Otherwise the result is the 3D specialisation of the first accepting candidate in the fixed order, or null when none accepts. Only 3D candidates are probed, as a prefix of the order |

## Left out

- Reading images, headers and point files, and writing the output images: the model takes their results as inputs.
- Progress and error messages written to the console are not modelled.
- Parsing the command line is not modelled. Options arrive already parsed, with their defaults: `-k` defaults to "TPS", `-s` to 0.0 and `-d` to 2.
- Fitting the kernel transform (`ComputeWMatrix`) and evaluating it are not modelled: `evaluate` stands for them. A fit on a singular landmark system is not checked by the code and is not modelled either.
- The field stores `float` vectors and the transform computes in `double`. The model uses exact reals, so rounding to `float` is not modelled.
- `vnl_math_rnd` is a parameter. Only its round-to-nearest property is assumed, so its tie rule is not modelled.
- `TransformIndexToPhysicalPoint` is modelled with the identity direction matrix. Image direction cosines are not modelled.
- The `ExtractImageFilter`'s copying of pixels and its `SetDirectionCollapseToSubmatrix` are not modelled. The model stops at the extraction region handed to the filter.
- ITK exceptions raised by readers, writers and `Run` are not modelled, so neither is the exit code they cause.
- `ExtractSlice.HeaderIsValid`: the header is taken to report a dimension from 1 to 3 with one size per axis. A 0-dimensional header is left out because the unsigned `Dimension - 1` at line 235 would wrap. Headers of 4 or more dimensions are left out as well, and the model does not capture what the source does with them. For example, a 4-D header with `-d 3` passes both checks at lines 223 and 235. `Run` would then write entry 3 of the three-axis size and index of the 3D region (lines 127 and 131), unless the 3D reader throws first.
- `ExtractSlice.ExtractSliceMain`: the out-of-range read at line 223 is taken to yield some value and let the program reach the axis check at line 235. That check rejects the request with exit 1. A crash at the read itself is not modelled.
- The slice number and axis are unsigned in the source. Negative command-line values wrap around; the model takes natural numbers.
- `GetComponentTypeFromString` is not modelled. The component type arrives as a tag.
- `itksys::SystemTools` filename splitting is not modelled. The stem and extension are inputs.
- `IsType` is modelled as tag equality. `ITKToolsHelpers.h` and `castconverthelpers.h` are not part of this model.
- `CastConvert.CastConvertTool.New`: when a cast-convert specialisation accepts a request is left to the parameter `accepts`, because the acceptance test lives in `castconverthelpers.h`.
- The 2D probe and the cast-convert program that calls `ITKToolsCastConvert3D` are not part of this model.

## Findings

| source | as written | input that shows it | evidently intended | confidence | as-written member | corrected member |
|---|---|---|---|---|---|---|
| src/extractslice/extractslice.cxx:223 | The slice check reads `imagesize[which_dimension]` before the axis check at line 235 has compared `which_dimension` with `Dimension` | A 2D image with the default axis 2 (`-d` not given): `imagesize` has two entries and entry 2 is read | Check the axis first, then the slice number | not executed | ExtractSlice.SanityChecksAsWritten, ExtractSlice.AsWrittenReadsPastImageSize | ExtractSlice.SanityChecks |
| src/extractslice/extractslice.cxx:223 | `slicenumber > imagesize[which_dimension]` lets the slice number equal to the axis size through | A 3D image of size 4×4×4 with `-sn 4`: the check passes and slice 4 is outside the image | `slicenumber >= imagesize[which_dimension]` rejects it | not executed | ExtractSlice.SanityChecksAsWritten, ExtractSlice.AsWrittenAcceptsOnePastLastSlice | ExtractSlice.SanityChecks |

`ExtractSlice.ExtractSliceMain` runs the checks as written, as the program does. The corrected `SanityChecks` is related to them by `ExtractSlice.AsWrittenAcceptsExactlyOneMoreSlice` and `ExtractSlice.SanityChecksAgreeWhereDefined`.
