# nd.warp grid geometry and target-grid resolution, in Dafny

This project models the geometry core of the `nd.warp` package. That core covers:

- deriving bounds, an affine transform and a resolution from a gridded dataset's pixel-centre coordinate arrays;
- reading the legacy SNAP `i2m` transform string;
- computing the common bounds and the common resolution of a batch of grids;
- validating the ways a caller may name a reprojection target, and resolving them to one grid;
- aligning a batch of grids onto one shared grid.

The model follows the behaviour that `nd/warp/tests/test_warp.py` asserts. Where the tests leave a rule open, the choice made is listed under "## Left out". `nd/warp/warp_.py` is not part of this model.

Modules, in dependency order:

- `Results`: the `Option` and `Result` types, the error values and their messages, and `MapResult`.
- `Aggregates`: `Min`, `Max`, `Sum` and `Mean` over real sequences, with their bounds.
- `Geometry`: bounds, affine transforms, resolutions, the transform spanned by a box, and pixel counts.
- `Grids`: a grid as a projection, x and y coordinate arrays and a set of variable names. Holds `GetBounds`, `GetTransform`, `GetResolution`, and grids built from a transform or an extent.
- `Snap`: the `crs` variable holding the projection and a comma-separated `i2m` string (coefficient order a, d, b, e, c, f).
- `Common`: common bounds, the `min`, `max` and `mean` resolution modes, and common resolution.
- `Reprojection`: target parameters, their validation, target resolution and reprojection.
- `Alignment`: the shared extent, the shared resolution policy and the batch regridding.

Conventions:

- **Coordinates** are pixel centres. Bounds run from the first to the last centre. The spacing is the span divided by the pixel count minus one. A grid needs at least two pixels per axis to have a transform. A grid with no coordinates on an axis has no bounds and gets `EmptyGrid`. A grid with exactly one coordinate on an axis gets `DegenerateGrid` where the spacing formula would divide by zero.
- **Reals** are exact: `assert_almost_equal` in the tests becomes equality.
- **Projections** are opaque identifiers.
- **Number text in `i2m`** comes from two functions passed as parameters: one formats a number, the other parses it. They must round-trip on the six coefficients written.
- **The source's bounds in the target projection** come from the projection library, so the model takes them as a parameter (`Reprojection.Fallback`). `Reprojection.SourceFallback` ties that parameter to the source grid: its resolution always, and its bounds when the projection does not change.
- **Purity:** every operation is a pure function, so reprojection leaves its input grid unchanged by construction (`test_reproject_no_hidden_effects`).

## Model

| member | source | states |
|---|---|---|
| Results.MessagesMatchPatterns | nd/warp/tests/test_warp.py:104-372 | the error messages contain the phrases callers match: "Unsupported mode: '<m>'", the projection mismatch sentence, the transform-needs-size and extent-needs-size-or-res phrases |
| Aggregates.Min | nd/warp/tests/test_warp.py:341-357 | the minimum is an element of the sequence and no element is smaller |
| Aggregates.Max | nd/warp/tests/test_warp.py:341-357 | the maximum is an element of the sequence and no element is larger |
| Aggregates.MeanBetween | nd/warp/tests/test_warp.py:341-357 | the mean of a non-empty sequence lies between its minimum and maximum |
| Geometry.TransformFromBounds | nd/warp/tests/test_warp.py:204-215 | for at least two pixels per axis: no shear, origin at (left, top), last centre at (right, bottom); the transform is north-up exactly when the box is well formed |
| Geometry.BoundsOf | nd/warp/tests/test_warp.py:277-286 | the box a transform spans at a size of at least one pixel each way has the first and last centre along each axis as its two sides, in order |
| Geometry.BoundsRoundTrip | nd/warp/tests/test_warp.py:204-215 | box -> transform -> box gives back a well-formed box |
| Geometry.TransformRoundTrip | nd/warp/tests/test_warp.py:204-215 | a north-up transform is recovered from the box its grid spans |
| Geometry.PixelCount | nd/warp/tests/test_warp.py:398-435 | a count exists exactly when the spacing is non-zero and the span covers at least half a pixel; it is at least two and lies within half a pixel of span / spacing + 1 |
| Geometry.PixelCountInverts | nd/warp/tests/test_warp.py:398-435 | dividing a span by the spacing it has at n pixels gives back n |
| Grids.GetBounds | nd/warp/tests/test_warp.py:277-286 | bounds exist exactly when both axes have coordinates; they enclose every coordinate and each side is a coordinate |
| Grids.GetTransform | nd/warp/tests/test_warp.py:204-215 | a transform exists exactly when both axes have two or more coordinates; it is north-up and anchored at the bounds' left and top |
| Grids.TransformSpacing | nd/warp/tests/test_warp.py:204-215 | the transform's a is (right - left) / (ncols - 1) and its e is (bottom - top) / (nrows - 1) |
| Grids.GetResolution | nd/warp/tests/test_warp.py:258-264 | the resolution equals (a, abs(e)) of the grid's transform and is non-negative; it fails exactly when the transform does |
| Grids.ResolutionFromBounds | nd/warp/tests/test_warp.py:267-274 | the resolution is abs(right - left) / (ncols - 1) by abs(bottom - top) / (nrows - 1) |
| Grids.LinspaceExtremes | nd/warp/tests/test_warp.py:277-286 | evenly spaced coordinates have the first and last centre as their extremes |
| Grids.GridOfSize | nd/warp/tests/test_warp.py:192-201 | a grid generated at nx by ny pixels has nx columns and ny rows |
| Grids.GridOfBounds | nd/warp/tests/test_warp.py:277-286 | the grid a transform generates has the bounds the transform spans |
| Grids.GridOfTransform | nd/warp/tests/test_warp.py:204-215 | the grid a north-up transform generates gives that transform back |
| Grids.GridFromExtent | nd/warp/tests/test_warp.py:192-201 | a grid made from an extent and a size has that many rows and columns, and, for a well-formed extent, exactly those bounds |
| Snap.CoefficientsRoundTrip | nd/warp/tests/test_warp.py:81-92 | listing the coefficients in i2m order and reading them back is the identity |
| Snap.SplitJoin | nd/warp/tests/test_warp.py:81-92 | splitting comma-joined comma-free fields on commas gives the fields back |
| Snap.EncodeI2m | nd/warp/tests/test_warp.py:81-92 | with comma-free number text, the i2m string's comma-separated fields are the texts of a, d, b, e, c, f in that order |
| Snap.DecodeI2m | nd/warp/tests/test_warp.py:219-229 | decoding succeeds exactly when there are six fields that all parse; the parsed numbers are the coefficients in i2m order; otherwise the i2m error |
| Snap.I2mRoundTrip | nd/warp/tests/test_warp.py:219-229 | decoding an encoded i2m string gives the original transform, when each of the six coefficients' text is comma-free and parses back to it |
| Snap.ToSnap | nd/warp/tests/test_warp.py:81-92 | the legacy form exists exactly when the grid has a transform; it keeps the coordinates, variables and projection, and its i2m string is the encoding of the grid's transform, whose comma-separated fields are the texts of a, d, b, e, c, f |
| Snap.SnapAgrees | nd/warp/tests/test_warp.py:219-255 | a grid rewritten with the legacy convention yields the same transform and projection as the grid itself |
| Common.UnionAll | nd/warp/tests/test_warp.py:301-312 | the union contains every box and each side is some box's side |
| Common.UnionAllIsLeast | nd/warp/tests/test_warp.py:301-312 | every box containing all boxes contains their union |
| Common.CommonBounds | nd/warp/tests/test_warp.py:301-312 | empty input and mixed projections are errors; otherwise the result contains every grid's bounds and each side is attained |
| Common.UnionAllExample | nd/warp/tests/test_warp.py:301-312 | the four test extents have common bounds (-13, 40, 1, 61) |
| Common.CommonBoundsOfExtents | nd/warp/tests/test_warp.py:301-312 | grids made from extents have the union of those extents as common bounds |
| Common.ParseMode | nd/warp/tests/test_warp.py:360-364 | exactly "min", "max" and "mean" are modes; anything else is an unsupported mode naming the input |
| Common.CommonResolution | nd/warp/tests/test_warp.py:341-372 | errors in order: unsupported mode, no datasets, mixed projections, a grid without a resolution; otherwise non-negative |
| Common.CommonResolutionIsAggregate | nd/warp/tests/test_warp.py:341-357 | per axis the result is the min, max or mean of the grids' resolutions |
| Common.CommonResolutionExtremes | nd/warp/tests/test_warp.py:341-357 | min mode is at most and max mode at least every grid's resolution, along each axis |
| Common.CommonResolutionBetween | nd/warp/tests/test_warp.py:341-357 | in every mode, along each axis, the common resolution lies between some grid's resolution and another's |
| Reprojection.Validate | nd/warp/tests/test_warp.py:104-113 | a transform without both width and height, or an extent without a transform and with neither or both of res and the width-height pair, is refused with the matching error; every other combination is accepted unchanged |
| Reprojection.UnderspecifiedRefused | nd/warp/tests/test_warp.py:104-113 | a transform alone, or an extent alone, is refused with a message naming what is missing |
| Reprojection.LegalCallsAccepted | nd/warp/tests/test_warp.py:95-129 | a projection alone, a resolution alone, and a size alone pass validation |
| Reprojection.ValidatedResolves | nd/warp/tests/test_warp.py:104-113 | parameters that pass validation never fail to resolve for want of a size |
| Reprojection.FitResolution | nd/warp/tests/test_warp.py:398-435 | an extent and a resolution give at least two pixels per axis and the transform spanning the extent at that size |
| Reprojection.FittedExtentIsProper | nd/warp/tests/test_warp.py:398-435 | an extent a non-negative resolution fits has positive width and height |
| Reprojection.ResolveTarget | nd/warp/tests/test_warp.py:398-435 | for each combination, when it resolves and to what: a transform with a size is kept when the size is at least two; a transform with an extent takes the extent's span in pixels; an extent or the default extent takes the size, the resolution or the default resolution; the given projection, transform and size are kept and without a transform the target spans the extent; a transform without size or extent, or an extent with neither or both of size and res, is an error |
| Reprojection.Reproject | nd/warp/tests/test_warp.py:95-101 | the result is in the target projection, keeps the variables, has the resolved size, and spans the requested extent or carries the given transform; it fails exactly when the target does not resolve |
| Reprojection.ReprojectKeepsGeometry | nd/warp/tests/test_warp.py:95-101 | reprojecting into the source's own projection with nothing else named keeps the source's size, transform, bounds and resolution |
| Reprojection.EquivalentTargets | nd/warp/tests/test_warp.py:398-435 | transform+size, transform+extent, extent+res and extent+size naming one grid all resolve to it |
| Reprojection.EquivalentReprojections | nd/warp/tests/test_warp.py:398-435 | those four reprojections are equal, with the named transform, bounds, resolution (a, abs(e)) and projection |
| Reprojection.FitsEvenly | nd/warp/tests/test_warp.py:116-129 | a resolution dividing an extent evenly fits exactly that many pixels with that spacing |
| Reprojection.FitsOwnResolution | nd/warp/tests/test_warp.py:398-435 | the resolution of a proper box at a given size fits that box at exactly that size again |
| Reprojection.ResampleToResolution | nd/warp/tests/test_warp.py:116-129 | resampling a grid to a resolution, a pair or a single number, that divides its bounds evenly gives a grid of that resolution over the same bounds in the source's projection |
| Alignment.SharedExtent | nd/warp/tests/test_warp.py:498-501 | the caller's extent when given; otherwise it exists exactly when there are grids, all in one projection and all with bounds, and it then contains every grid's bounds with each side taken from some grid |
| Alignment.SharedResolution | nd/warp/tests/test_warp.py:484-517 | taken from the first grid, it exists exactly when that grid has at least two columns and two rows, is refused as empty or degenerate otherwise, and is the transform's spacing; combined, it exists exactly when the mode is known, the grids share a projection and each has a resolution, is refused for an unknown mode or mixed projections, is no coarser (min) or no finer (max) than every grid's and always lies between two grids' resolutions; it is never negative |
| Alignment.SharedTarget | nd/warp/tests/test_warp.py:484-517 | no grids is an error; it exists exactly when the shared extent and resolution exist and the resolution fits the extent; it is then the fit of the shared extent at the shared resolution, in the first grid's projection, at least two pixels each way, with the transform that puts the outer centres on the extent |
| Alignment.SharedTargetSize | nd/warp/tests/test_warp.py:484-517 | the shared target's width and height are the pixel counts of the shared extent's sides at the shared resolution |
| Alignment.Align | nd/warp/tests/test_warp.py:484-517 | succeeds exactly when the shared target exists and otherwise fails with its error; one output per input with its variables, each bounded by the shared extent, each the shared target's width and height with its transform, all with identical coordinates |
| Alignment.RegridAll | nd/warp/tests/test_warp.py:484-517 | every grid reprojected onto one target has the target's extent, size and transform and the same coordinates as the first |
| Alignment.AlignedGeometry | nd/warp/tests/test_warp.py:510-517 | grids on one target differ only in their variables |

## Left out

- Projection parsing and formats (`_parse_crs`, `get_crs(format=...)`): projections are opaque identifiers.
- `get_extent` and `get_common_extent`: they transform bounds point-wise into latitude and longitude, which needs the projection library.
- Reprojecting bounds between projections: `Reprojection.Fallback` carries the source's bounds already expressed in the target projection.
- Width-only or height-only targets: the aspect-ratio rounding is not visible, so `Reprojection.ResolveTarget` and `Reprojection.Reproject` require that both or neither are given when there is no transform.
- Pixel values, resampling kernels, no-data (NaN) fill and non-spatial coordinates: a reprojected grid carries only the variable names.
- `get_dims` and the time dimension.
- Reading and writing files: alignment from file paths, and output file names.
- Floating-point rounding: all arithmetic is on exact reals.
- The text form of numbers in `i2m`: given as format and parse parameters.
- Common.CommonBounds: requires one shared projection rather than reprojecting every grid's bounds into a common one first.
- Alignment.Align: regrids into the first grid's projection; a separately chosen target projection is not modelled.
- Geometry.PixelCount: rounds to the nearest whole pixel, halves up. The package's own rounding rule is not visible, so only whole-pixel spans are stated exactly (`Geometry.PixelCountInverts`, `Reprojection.FitsEvenly`).
- Reprojection.ResolveTarget: with neither a transform nor an extent, a size given together with `res` takes precedence over `res`; the rule that exactly one of them is given is stated for an extent only.
- A `transform` attribute stored on the dataset: the test datasets carry one beside `crs`, and `get_transform` can read it. The model always derives the transform from the coordinate arrays, or from `i2m` for the legacy form.
- Common.CommonResolution: takes the mode as a required argument. The package's default mode, used when `get_common_resolution` is called without one, is not visible, so it is not modelled.
- Reprojection.ResampleToResolution: a resolution that does not divide the source's bounds into a whole number of pixels is not met. The bounds are kept, the pixel count is rounded, and the spacing becomes span / (count - 1).
- Reprojection.ResolveTarget: refuses a given transform whose width or height is below 2 with `DegenerateGrid`. Nothing divides there; this is the model's own choice, so that every resolved target has a transform that its grid gives back.
