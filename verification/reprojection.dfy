/** Resolution of a reprojection target: the parameters a caller may give
    (projection, transform, extent, width, height, resolution), the checks made
    when a reprojection is set up, and the one target grid every legal
    combination resolves to. Resampling of pixel values is not modelled: a
    reprojected grid carries the source's data-variable names on the target
    geometry. */
module Reprojection {
  import opened Results
  import opened Geometry
  import opened Grids

  /** The target parameters; every one of them is optional. */
  datatype TargetSpec = TargetSpec(
    crs: Option<Crs>,
    transform: Option<Affine>,
    extent: Option<Bounds>,
    width: Option<nat>,
    height: Option<nat>,
    res: Option<ResSpec>)

  /** A fully determined target grid. */
  datatype Target = Target(crs: Crs, transform: Affine, width: nat, height: nat)

  /** What the source grid supplies when the caller fixes neither a transform
      nor an extent: its bounds expressed in the target projection (computed
      by the projection library; the grid's own bounds when the projection
      does not change) and its own resolution. */
  datatype Fallback = Fallback(extent: Bounds, res: Resolution)

  predicate HasSize(spec: TargetSpec)
  {
    spec.width.Some? && spec.height.Some?
  }

  /** Only one of `width` and `height` without a transform: resolved by an
      aspect-ratio rule this model does not cover. */
  predicate OneSidedSize(spec: TargetSpec)
  {
    spec.transform.None? && spec.width.Some? != spec.height.Some?
  }

  /** The checks made when a reprojection is constructed: a transform needs
      both `width` and `height`; an extent without a transform needs exactly
      one of `res` and the pair `width` and `height`. */
  function Validate(spec: TargetSpec): (r: Result<TargetSpec>)
    ensures r == Err(TransformNeedsSize) <==>
      spec.transform.Some? && (spec.width.None? || spec.height.None?)
    ensures r == Err(ExtentNeedsSizeOrRes) <==>
      && spec.transform.None? && spec.extent.Some?
      && ((spec.width.Some? && spec.height.Some?) == spec.res.Some?)
    ensures r.Err? ==> r.error in {TransformNeedsSize, ExtentNeedsSizeOrRes}
    ensures r.Ok? ==> r.value == spec
  {
    if spec.transform.Some? && !HasSize(spec) then Err(TransformNeedsSize)
    else if spec.transform.None? && spec.extent.Some? && HasSize(spec) == spec.res.Some? then
      Err(ExtentNeedsSizeOrRes)
    else Ok(spec)
  }

  function TargetCrs(src: Grid, spec: TargetSpec): Crs
  {
    if spec.crs.Some? then spec.crs.value else src.crs
  }

  /** The extent the target covers when no transform is given. */
  function TargetExtent(spec: TargetSpec, fb: Fallback): Bounds
  {
    if spec.extent.Some? then spec.extent.value else fb.extent
  }

  /** The grid over `extent` whose spacing is `res`, rounded to a whole
      number of pixels; the outermost centres lie on the extent's edges. */
  function FitResolution(crs: Crs, extent: Bounds, res: Resolution): (r: Result<Target>)
    ensures r.Ok? <==>
      PixelCount(extent.right - extent.left, res.x).Ok? && PixelCount(extent.top - extent.bottom, res.y).Ok?
    ensures r.Ok? ==>
      && PixelCount(extent.right - extent.left, res.x) == Ok(r.value.width)
      && PixelCount(extent.top - extent.bottom, res.y) == Ok(r.value.height)
    ensures r.Err? ==> r.error == DegenerateGrid
    ensures r.Ok? ==> r.value.crs == crs && r.value.width >= 2 && r.value.height >= 2
    ensures r.Ok? ==> TransformFromBounds(extent, r.value.width, r.value.height) == Ok(r.value.transform)
  {
    var w :- PixelCount(extent.right - extent.left, res.x);
    var h :- PixelCount(extent.top - extent.bottom, res.y);
    Ok(Target(crs, TransformFromBounds(extent, w, h).value, w, h))
  }

  /** The size of a fitted target, as pixel counts of the extent's sides. */
  lemma FitCounts(crs: Crs, extent: Bounds, res: Resolution)
    requires FitResolution(crs, extent, res).Ok?
    ensures var t := FitResolution(crs, extent, res).value;
      && PixelCount(extent.right - extent.left, res.x) == Ok(t.width)
      && PixelCount(extent.top - extent.bottom, res.y) == Ok(t.height)
  {
  }

  /** An extent a non-negative resolution fits is a proper box: each side
      spans at least half a pixel, so it is positive. */
  lemma FittedExtentIsProper(crs: Crs, extent: Bounds, res: Resolution)
    requires res.x >= 0.0 && res.y >= 0.0 && FitResolution(crs, extent, res).Ok?
    ensures extent.left < extent.right && extent.bottom < extent.top
  {
    var w := PixelCount(extent.right - extent.left, res.x).value;
    var h := PixelCount(extent.top - extent.bottom, res.y).value;
    SpanSign(extent.right - extent.left, res.x, w);
    SpanSign(extent.top - extent.bottom, res.y, h);
  }

  /** A span divided at a non-negative spacing into at least two centres is
      positive. */
  lemma SpanSign(span: real, spacing: real, n: nat)
    requires spacing >= 0.0 && spacing != 0.0 && n >= 2
    requires -0.5 <= span / spacing - ((n - 1) as real)
    ensures span > 0.0
  {
    assert span / spacing > 0.0;
    assert (span / spacing) * spacing == span;
  }

  /** The target grid a parameter combination determines. */
  function ResolveTarget(src: Grid, spec: TargetSpec, fb: Fallback): (r: Result<Target>)
    requires !OneSidedSize(spec)
    ensures r.Ok? ==> r.value.crs == TargetCrs(src, spec) && r.value.width >= 2 && r.value.height >= 2
    ensures r.Ok? && spec.transform.Some? ==> r.value.transform == spec.transform.value
    ensures r.Ok? && HasSize(spec) ==>
      r.value.width == spec.width.value && r.value.height == spec.height.value
    ensures r.Ok? && spec.transform.None? ==>
      TransformFromBounds(TargetExtent(spec, fb), r.value.width, r.value.height) == Ok(r.value.transform)
    // A transform with a size: kept as given.
    ensures spec.transform.Some? && HasSize(spec) ==>
      (r.Ok? <==> spec.width.value >= 2 && spec.height.value >= 2)
    // A transform with an extent: the size is the extent's span in pixels.
    ensures spec.transform.Some? && !HasSize(spec) && spec.extent.Some? ==>
      && (r.Ok? <==>
            && PixelCount(spec.extent.value.right - spec.extent.value.left, spec.transform.value.a).Ok?
            && PixelCount(spec.extent.value.bottom - spec.extent.value.top, spec.transform.value.e).Ok?)
      && (r.Ok? ==>
            && r.value.width == PixelCount(spec.extent.value.right - spec.extent.value.left, spec.transform.value.a).value
            && r.value.height == PixelCount(spec.extent.value.bottom - spec.extent.value.top, spec.transform.value.e).value)
    ensures spec.transform.Some? && !HasSize(spec) && spec.extent.None? ==> r == Err(TransformNeedsSize)
    // An extent needs exactly one of a size and a resolution.
    ensures spec.transform.None? && spec.extent.Some? && HasSize(spec) == spec.res.Some? ==>
      r == Err(ExtentNeedsSizeOrRes)
    ensures spec.transform.None? && HasSize(spec) && !(spec.extent.Some? && spec.res.Some?) ==>
      (r.Ok? <==> spec.width.value >= 2 && spec.height.value >= 2)
    ensures spec.transform.None? && !HasSize(spec) && spec.res.Some? ==>
      r == FitResolution(TargetCrs(src, spec), TargetExtent(spec, fb), Expand(spec.res.value))
    // Nothing but a projection: the source's extent at the source's resolution.
    ensures spec.transform.None? && spec.extent.None? && !HasSize(spec) && spec.res.None? ==>
      r == FitResolution(TargetCrs(src, spec), fb.extent, fb.res)
    ensures r.Err? ==> r.error in {TransformNeedsSize, ExtentNeedsSizeOrRes, DegenerateGrid}
  {
    var crs := TargetCrs(src, spec);
    match spec.transform
    case Some(t) =>
      if HasSize(spec) then
        var w, h := spec.width.value, spec.height.value;
        if w < 2 || h < 2 then Err(DegenerateGrid) else Ok(Target(crs, t, w, h))
      else if spec.extent.Some? then
        var e := spec.extent.value;
        var w :- PixelCount(e.right - e.left, t.a);
        var h :- PixelCount(e.bottom - e.top, t.e);
        Ok(Target(crs, t, w, h))
      else Err(TransformNeedsSize)
    case None =>
      var extent := TargetExtent(spec, fb);
      if spec.extent.Some? && HasSize(spec) == spec.res.Some? then Err(ExtentNeedsSizeOrRes)
      else if HasSize(spec) then
        var w, h := spec.width.value, spec.height.value;
        var t :- TransformFromBounds(extent, w, h);
        Ok(Target(crs, t, w, h))
      else if spec.res.Some? then FitResolution(crs, extent, Expand(spec.res.value))
      else FitResolution(crs, extent, fb.res)
  }

  /** The grid a reprojection produces: the source's data variables on the
      resolved target geometry. */
  function Reproject(src: Grid, spec: TargetSpec, fb: Fallback): (r: Result<Grid>)
    requires !OneSidedSize(spec)
    ensures r.Ok? <==> ResolveTarget(src, spec, fb).Ok?
    ensures r.Err? ==> r.error == ResolveTarget(src, spec, fb).error
    ensures r.Ok? ==> r.value.crs == TargetCrs(src, spec) && r.value.vars == src.vars
    ensures r.Ok? ==>
      && NCols(r.value) == ResolveTarget(src, spec, fb).value.width
      && NRows(r.value) == ResolveTarget(src, spec, fb).value.height
    ensures r.Ok? && spec.transform.None? && WellFormed(TargetExtent(spec, fb)) ==>
      GetBounds(r.value) == Ok(TargetExtent(spec, fb))
    ensures r.Ok? && spec.transform.Some? && NorthUp(spec.transform.value) ==>
      GetTransform(r.value) == Ok(spec.transform.value)
  {
    var target :- ResolveTarget(src, spec, fb);
    var g := GridOf(target.crs, target.transform, target.width, target.height, src.vars);
    TargetGrid(target, src.vars);
    BoundsRoundTrip(TargetExtent(spec, fb), target.width, target.height);
    Ok(g)
  }

  /** The grid of a target has the target's transform and spans the box the
      transform spans. */
  lemma TargetGrid(target: Target, vars: set<string>)
    requires target.width >= 1 && target.height >= 1
    ensures var g := GridOf(target.crs, target.transform, target.width, target.height, vars);
      && GetBounds(g) == Ok(BoundsOf(target.transform, target.width, target.height))
      && (NorthUp(target.transform) && target.width >= 2 && target.height >= 2 ==>
            GetTransform(g) == Ok(target.transform))
  {
    GridOfBounds(target.crs, target.transform, target.width, target.height, vars);
    if NorthUp(target.transform) && target.width >= 2 && target.height >= 2 {
      GridOfTransform(target.crs, target.transform, target.width, target.height, vars);
    }
  }

  /** A reprojection given a transform alone, or an extent alone, is refused
      with a message naming what is missing. */
  lemma UnderspecifiedRefused(crs: Crs, t: Affine, b: Bounds)
    ensures Validate(TargetSpec(Some(crs), Some(t), None, None, None, None)) == Err(TransformNeedsSize)
    ensures Mentions(Message(TransformNeedsSize), SizePhrase)
    ensures Validate(TargetSpec(Some(crs), None, Some(b), None, None, None)) == Err(ExtentNeedsSizeOrRes)
    ensures Mentions(Message(ExtentNeedsSizeOrRes), AlternativePhrase)
  {
    MessagesMatchPatterns("");
  }

  /** The calls the tests make with only a projection, only a resolution
      or only a size pass validation. */
  lemma LegalCallsAccepted(crs: Crs, rs: ResSpec, w: nat, h: nat)
    ensures Validate(TargetSpec(Some(crs), None, None, None, None, None)).Ok?
    ensures Validate(TargetSpec(None, None, None, None, None, Some(rs))).Ok?
    ensures Validate(TargetSpec(None, None, None, Some(w), Some(h), None)).Ok?
  {
  }

  /** Parameters that pass validation never fail to resolve for want of a
      size: the only remaining failure is a grid of fewer than two pixels
      along an axis. */
  lemma ValidatedResolves(src: Grid, spec: TargetSpec, fb: Fallback)
    requires Validate(spec).Ok? && !OneSidedSize(spec)
    ensures ResolveTarget(src, spec, fb).Err? ==> ResolveTarget(src, spec, fb).error == DegenerateGrid
  {
  }

  /** The spacing between `n` centres that span `span`. */
  lemma SpacingIs(span: real, n: nat, a: real)
    requires n >= 2 && ((n - 1) as real) * a == span
    ensures a == span / ((n - 1) as real)
  {
  }

  /** The four ways of naming one north-up target grid: transform and size,
      transform and extent, extent and resolution, extent and size. */
  function EquivalentSpecs(crs: Crs, b: Bounds, w: nat, h: nat): (specs: seq<TargetSpec>)
    requires w >= 2 && h >= 2
    ensures |specs| == 4
    ensures forall k :: 0 <= k < 4 ==> specs[k].crs == Some(crs) && !OneSidedSize(specs[k])
  {
    var t := TransformFromBounds(b, w, h).value;
    [ TargetSpec(Some(crs), Some(t), None, Some(w), Some(h), None),
      TargetSpec(Some(crs), Some(t), Some(b), None, None, None),
      TargetSpec(Some(crs), None, Some(b), None, None, Some(PerAxis(Resolution(t.a, Abs(t.e))))),
      TargetSpec(Some(crs), None, Some(b), Some(w), Some(h), None) ]
  }

  /** All four ways resolve to the same target. */
  lemma EquivalentTargets(src: Grid, fb: Fallback, crs: Crs, b: Bounds, w: nat, h: nat)
    requires b.left < b.right && b.bottom < b.top && w >= 2 && h >= 2
    ensures forall k :: 0 <= k < 4 ==>
      ResolveTarget(src, EquivalentSpecs(crs, b, w, h)[k], fb)
        == Ok(Target(crs, TransformFromBounds(b, w, h).value, w, h))
  {
    var t := TransformFromBounds(b, w, h).value;
    var specs := EquivalentSpecs(crs, b, w, h);
    var expected := Ok(Target(crs, t, w, h));
    SpacingIs(b.right - b.left, w, t.a);
    SpacingIs(b.bottom - b.top, h, t.e);
    PixelCountInverts(b.right - b.left, w);
    PixelCountInverts(b.bottom - b.top, h);
    FitsOwnResolution(crs, b, w, h);
    assert ResolveTarget(src, specs[0], fb) == expected;
    assert ResolveTarget(src, specs[1], fb) == expected;
    assert ResolveTarget(src, specs[2], fb) == expected;
    assert ResolveTarget(src, specs[3], fb) == expected;
  }

  /** The resolution of the grid a proper box spans at `w` by `h` pixels
      fits that box at exactly that size again. */
  lemma FitsOwnResolution(crs: Crs, b: Bounds, w: nat, h: nat)
    requires b.left < b.right && b.bottom < b.top && w >= 2 && h >= 2
    ensures var t := TransformFromBounds(b, w, h).value;
      FitResolution(crs, b, Resolution(t.a, Abs(t.e))) == Ok(Target(crs, t, w, h))
  {
    var t := TransformFromBounds(b, w, h).value;
    SpacingIs(b.right - b.left, w, t.a);
    SpacingIs(b.top - b.bottom, h, -t.e);
    SignOfQuotient(b.top - b.bottom, (h - 1) as real);
    PixelCountInverts(b.right - b.left, w);
    PixelCountInverts(b.top - b.bottom, h);
    assert Abs(t.e) == -t.e;
  }

  /** The grid all four ways produce has the named transform, bounds,
      resolution and projection. */
  lemma EquivalentReprojections(src: Grid, fb: Fallback, crs: Crs, b: Bounds, w: nat, h: nat)
    requires b.left < b.right && b.bottom < b.top && w >= 2 && h >= 2
    ensures var t := TransformFromBounds(b, w, h).value;
      var g := GridOf(crs, t, w, h, src.vars);
      && (forall k :: 0 <= k < 4 ==> Reproject(src, EquivalentSpecs(crs, b, w, h)[k], fb) == Ok(g))
      && GetTransform(g) == Ok(t)
      && GetBounds(g) == Ok(b)
      && GetResolution(g) == Ok(Resolution(t.a, Abs(t.e)))
      && g.crs == crs
  {
    var t := TransformFromBounds(b, w, h).value;
    EquivalentTargets(src, fb, crs, b, w, h);
    GridOfTransform(crs, t, w, h, src.vars);
    GridOfBounds(crs, t, w, h, src.vars);
    BoundsRoundTrip(b, w, h);
  }

  /** A resolution that divides an extent evenly into `w` by `h` centres
      fits exactly that grid. */
  lemma FitsEvenly(crs: Crs, e: Bounds, res: Resolution, w: nat, h: nat)
    requires res.x > 0.0 && res.y > 0.0 && w >= 2 && h >= 2
    requires e.right - e.left == ((w - 1) as real) * res.x
    requires e.top - e.bottom == ((h - 1) as real) * res.y
    ensures FitResolution(crs, e, res) == Ok(Target(crs, TransformFromBounds(e, w, h).value, w, h))
    ensures TransformFromBounds(e, w, h).value.a == res.x
    ensures TransformFromBounds(e, w, h).value.e == -res.y
  {
    var sx, sy := (w - 1) as real, (h - 1) as real;
    Positive(sx, res.x);
    Positive(sy, res.y);
    SpacingIs(e.right - e.left, w, res.x);
    SpacingIs(e.top - e.bottom, h, res.y);
    PixelCountInverts(e.right - e.left, w);
    PixelCountInverts(e.top - e.bottom, h);
    var t := TransformFromBounds(e, w, h).value;
    Cancel(sx, t.a, res.x);
    Cancel(sy, t.e, -res.y);
  }

  lemma Positive(s: real, a: real)
    requires s > 0.0 && a > 0.0
    ensures s * a > 0.0
  {
  }

  /** What a source grid supplies as the default target geometry: its own
      resolution and, when the projection does not change, its own bounds. */
  predicate SourceFallback(src: Grid, spec: TargetSpec, fb: Fallback)
  {
    && GetResolution(src).Ok? && GetBounds(src).Ok?
    && fb.res == GetResolution(src).value
    && (TargetCrs(src, spec) == src.crs ==> fb.extent == GetBounds(src).value)
  }

  /** The parameters of a resampling to a resolution. */
  function ResampleSpec(rs: ResSpec): TargetSpec
  {
    TargetSpec(None, None, None, None, None, Some(rs))
  }

  /** Reprojecting into the source's own projection with nothing else named
      keeps the source's size, transform, bounds and resolution. */
  lemma ReprojectKeepsGeometry(src: Grid, fb: Fallback)
    requires SourceFallback(src, TargetSpec(Some(src.crs), None, None, None, None, None), fb)
    requires GetTransform(src).Ok?
    requires GetBounds(src).value.left < GetBounds(src).value.right
    requires GetBounds(src).value.bottom < GetBounds(src).value.top
    ensures var r := Reproject(src, TargetSpec(Some(src.crs), None, None, None, None, None), fb);
      && r.Ok?
      && r.value.crs == src.crs && r.value.vars == src.vars
      && NCols(r.value) == NCols(src) && NRows(r.value) == NRows(src)
      && GetTransform(r.value) == GetTransform(src)
      && GetBounds(r.value) == GetBounds(src)
      && GetResolution(r.value) == GetResolution(src)
  {
    var b := GetBounds(src).value;
    var t := GetTransform(src).value;
    assert t == TransformFromBounds(b, NCols(src), NRows(src)).value;
    FitsOwnResolution(src.crs, b, NCols(src), NRows(src));
    GridOfTransform(src.crs, t, NCols(src), NRows(src), src.vars);
  }

  /** Resampling a grid to a resolution that divides its bounds evenly gives
      a grid of exactly that resolution over the same bounds, in the source's
      projection. */
  lemma ResampleToResolution(src: Grid, fb: Fallback, rs: ResSpec, w: nat, h: nat)
    requires SourceFallback(src, ResampleSpec(rs), fb)
    requires Expand(rs).x > 0.0 && Expand(rs).y > 0.0 && w >= 2 && h >= 2
    requires GetBounds(src).value.right - GetBounds(src).value.left == ((w - 1) as real) * Expand(rs).x
    requires GetBounds(src).value.top - GetBounds(src).value.bottom == ((h - 1) as real) * Expand(rs).y
    ensures var r := Reproject(src, ResampleSpec(rs), fb);
      && r.Ok?
      && r.value.crs == src.crs
      && NCols(r.value) == w && NRows(r.value) == h
      && GetResolution(r.value) == Ok(Expand(rs))
      && GetBounds(r.value) == GetBounds(src)
  {
    FitsEvenly(src.crs, fb.extent, Expand(rs), w, h);
    var t := TransformFromBounds(fb.extent, w, h).value;
    GridOfTransform(src.crs, t, w, h, src.vars);
  }
}
