/** Co-registration of a batch of grids onto one shared grid: one target
    extent (the caller's, or the union of the inputs' bounds), one resolution
    policy, one target transform, and every input regridded onto it. */
module Alignment {
  import opened Results
  import opened Geometry
  import opened Grids
  import opened Common
  import opened Reprojection

  /** Where the shared resolution comes from: the first grid, or the
      combination of all the grids' resolutions under a named mode
      ("min", "max" or "mean"). */
  datatype ResPolicy = FromFirst | Combined(mode: string)

  /** The resolution every output shares: the first grid's own pixel size,
      refused as that grid's transform is refused; or the grids' resolutions
      combined under the mode, which must be known and needs one projection. */
  function SharedResolution(grids: seq<Grid>, policy: ResPolicy): (r: Result<Resolution>)
    requires |grids| > 0
    ensures r.Ok? ==> r.value.x >= 0.0 && r.value.y >= 0.0
    ensures policy.FromFirst? ==> (r.Ok? <==> NCols(grids[0]) >= 2 && NRows(grids[0]) >= 2)
    ensures policy.FromFirst? && r.Err? ==>
      r.error == (if NCols(grids[0]) == 0 || NRows(grids[0]) == 0 then EmptyGrid else DegenerateGrid)
    ensures policy.FromFirst? && r.Ok? ==>
      var t := GetTransform(grids[0]).value;
      r.value == Resolution(t.a, Abs(t.e))
    ensures policy.Combined? ==>
      (r.Ok? <==>
        && ParseMode(policy.mode).Ok? && SameProjection(grids)
        && forall i :: 0 <= i < |grids| ==> GetResolution(grids[i]).Ok?)
    ensures policy.Combined? && ParseMode(policy.mode).Err? ==> r == Err(UnsupportedMode(policy.mode))
    ensures policy.Combined? && ParseMode(policy.mode).Ok? && !SameProjection(grids) ==> r == Err(ProjectionMismatch)
    ensures policy.Combined? && policy.mode == "min" && r.Ok? ==> forall i :: 0 <= i < |grids| ==>
      r.value.x <= GetResolution(grids[i]).value.x && r.value.y <= GetResolution(grids[i]).value.y
    ensures policy.Combined? && policy.mode == "max" && r.Ok? ==> forall i :: 0 <= i < |grids| ==>
      GetResolution(grids[i]).value.x <= r.value.x && GetResolution(grids[i]).value.y <= r.value.y
    ensures policy.Combined? && r.Ok? ==> exists j, k :: (0 <= j < |grids| && 0 <= k < |grids| &&
      GetResolution(grids[j]).value.x <= r.value.x <= GetResolution(grids[k]).value.x)
    ensures policy.Combined? && r.Ok? ==> exists j, k :: (0 <= j < |grids| && 0 <= k < |grids| &&
      GetResolution(grids[j]).value.y <= r.value.y <= GetResolution(grids[k]).value.y)
  {
    match policy
    case FromFirst => GetResolution(grids[0])
    case Combined(mode) =>
      var c := CommonResolution(grids, mode);
      if c.Ok? then
        CommonResolutionExtremes(grids, mode);
        CommonResolutionBetween(grids, mode);
        c
      else c
  }

  /** The extent every output covers. */
  function SharedExtent(grids: seq<Grid>, extent: Option<Bounds>): (r: Result<Bounds>)
    ensures extent.Some? ==> r == Ok(extent.value)
    ensures extent.None? ==>
      (r.Ok? <==> |grids| > 0 && SameProjection(grids) && forall i :: 0 <= i < |grids| ==> GetBounds(grids[i]).Ok?)
    ensures extent.None? && r.Ok? ==>
      forall i :: 0 <= i < |grids| ==> Contains(r.value, GetBounds(grids[i]).value)
    ensures extent.None? && r.Ok? ==> exists i :: 0 <= i < |grids| && r.value.left == GetBounds(grids[i]).value.left
    ensures extent.None? && r.Ok? ==> exists i :: 0 <= i < |grids| && r.value.bottom == GetBounds(grids[i]).value.bottom
    ensures extent.None? && r.Ok? ==> exists i :: 0 <= i < |grids| && r.value.right == GetBounds(grids[i]).value.right
    ensures extent.None? && r.Ok? ==> exists i :: 0 <= i < |grids| && r.value.top == GetBounds(grids[i]).value.top
  {
    if extent.Some? then Ok(extent.value) else CommonBounds(grids)
  }

  /** The one target the whole batch is regridded onto, in the first grid's
      projection. */
  function SharedTarget(grids: seq<Grid>, extent: Option<Bounds>, policy: ResPolicy): (r: Result<Target>)
    ensures |grids| == 0 ==> r == Err(NoDatasets)
    ensures r.Ok? <==>
      && |grids| > 0
      && SharedExtent(grids, extent).Ok?
      && SharedResolution(grids, policy).Ok?
      && FitResolution(grids[0].crs, SharedExtent(grids, extent).value, SharedResolution(grids, policy).value).Ok?
    ensures r.Ok? ==>
      var e := SharedExtent(grids, extent).value;
      && r.value.crs == grids[0].crs
      && r.value.width >= 2 && r.value.height >= 2
      && e.left < e.right && e.bottom < e.top
      && TransformFromBounds(e, r.value.width, r.value.height) == Ok(r.value.transform)
    ensures r.Ok? ==> r == FitResolution(grids[0].crs, SharedExtent(grids, extent).value, SharedResolution(grids, policy).value)
  {
    if |grids| == 0 then Err(NoDatasets)
    else
      var e :- SharedExtent(grids, extent);
      var res :- SharedResolution(grids, policy);
      var target :- FitResolution(grids[0].crs, e, res);
      FittedExtentIsProper(grids[0].crs, e, res);
      Ok(target)
  }

  /** The shared target's size is the number of pixel centres that cover the
      shared extent at the shared resolution, along each axis. */
  lemma SharedTargetSize(grids: seq<Grid>, extent: Option<Bounds>, policy: ResPolicy)
    requires SharedTarget(grids, extent, policy).Ok?
    ensures var e, res := SharedExtent(grids, extent).value, SharedResolution(grids, policy).value;
      var target := SharedTarget(grids, extent, policy).value;
      && PixelCount(e.right - e.left, res.x) == Ok(target.width)
      && PixelCount(e.top - e.bottom, res.y) == Ok(target.height)
  {
    var e, res := SharedExtent(grids, extent).value, SharedResolution(grids, policy).value;
    var fit := FitResolution(grids[0].crs, e, res);
    assert SharedTarget(grids, extent, policy) == fit;
    FitCounts(grids[0].crs, e, res);
  }

  /** The reprojection parameters every grid of the batch is given. */
  function TargetSpecOf(target: Target, e: Bounds): TargetSpec
  {
    TargetSpec(Some(target.crs), None, Some(e), Some(target.width), Some(target.height), None)
  }

  /** Aligns a batch of grids: each output carries its input's variables on
      the one shared target grid. */
  method Align(grids: seq<Grid>, extent: Option<Bounds>, policy: ResPolicy) returns (r: Result<seq<Grid>>)
    ensures r.Ok? <==> SharedTarget(grids, extent, policy).Ok?
    ensures r.Err? ==> r.error == SharedTarget(grids, extent, policy).error
    ensures r.Ok? ==> |r.value| == |grids|
    ensures r.Ok? ==> forall i :: 0 <= i < |grids| ==>
      r.value[i].vars == grids[i].vars && r.value[i].crs == grids[0].crs
    ensures r.Ok? ==> forall i :: 0 <= i < |grids| ==>
      GetBounds(r.value[i]) == SharedExtent(grids, extent)
    ensures r.Ok? ==> forall i :: 0 <= i < |grids| ==>
      && r.value[i].xs == r.value[0].xs && r.value[i].ys == r.value[0].ys
      && GetTransform(r.value[i]) == GetTransform(r.value[0])
    ensures r.Ok? ==> forall i :: 0 <= i < |grids| ==>
      && NCols(r.value[i]) == SharedTarget(grids, extent, policy).value.width
      && NRows(r.value[i]) == SharedTarget(grids, extent, policy).value.height
      && GetTransform(r.value[i]) == Ok(SharedTarget(grids, extent, policy).value.transform)
  {
    var shared := SharedTarget(grids, extent, policy);
    if shared.Err? {
      return Err(shared.error);
    }
    var target, e := shared.value, SharedExtent(grids, extent).value;
    assert e.left < e.right && e.bottom < e.top && target.width >= 2 && target.height >= 2;
    assert TransformFromBounds(e, target.width, target.height) == Ok(target.transform);
    var out := RegridAll(grids, target, e);
    return Ok(out);
  }

  /** Reprojects every grid onto one target covering `e`. */
  method RegridAll(grids: seq<Grid>, target: Target, e: Bounds) returns (out: seq<Grid>)
    requires e.left < e.right && e.bottom < e.top && target.width >= 2 && target.height >= 2
    requires TransformFromBounds(e, target.width, target.height) == Ok(target.transform)
    ensures |out| == |grids|
    ensures forall i :: 0 <= i < |grids| ==>
      out[i].vars == grids[i].vars && out[i].crs == target.crs
    ensures forall i :: 0 <= i < |grids| ==> GetBounds(out[i]) == Ok(e)
    ensures forall i :: 0 <= i < |grids| ==>
      && out[i].xs == out[0].xs && out[i].ys == out[0].ys
      && GetTransform(out[i]) == Ok(target.transform)
    ensures forall i :: 0 <= i < |grids| ==>
      NCols(out[i]) == target.width && NRows(out[i]) == target.height
  {
    var spec := TargetSpecOf(target, e);
    var fb := Fallback(e, Resolution(0.0, 0.0));
    out := [];
    for i := 0 to |grids|
      invariant |out| == i
      invariant forall j :: 0 <= j < i ==>
        out[j] == GridOf(target.crs, target.transform, target.width, target.height, grids[j].vars)
    {
      ReprojectsOntoTarget(target, e, grids[i], fb);
      out := out + [Reproject(grids[i], spec, fb).value];
    }
    AlignedGeometry(target, e, grids, out);
  }

  /** Every grid given the shared parameters lands on the shared target. */
  lemma ReprojectsOntoTarget(target: Target, e: Bounds, src: Grid, fb: Fallback)
    requires target.width >= 2 && target.height >= 2
    requires TransformFromBounds(e, target.width, target.height) == Ok(target.transform)
    ensures Reproject(src, TargetSpecOf(target, e), fb)
      == Ok(GridOf(target.crs, target.transform, target.width, target.height, src.vars))
  {
  }

  /** Grids that share one target differ only in their variables: they have
      the same coordinates, the same transform and the target's extent. */
  lemma AlignedGeometry(target: Target, e: Bounds, grids: seq<Grid>, out: seq<Grid>)
    requires e.left < e.right && e.bottom < e.top && target.width >= 2 && target.height >= 2
    requires TransformFromBounds(e, target.width, target.height) == Ok(target.transform)
    requires |out| == |grids|
    requires forall j :: 0 <= j < |out| ==>
      out[j] == GridOf(target.crs, target.transform, target.width, target.height, grids[j].vars)
    ensures forall j :: 0 <= j < |out| ==> GetBounds(out[j]) == Ok(e)
    ensures forall j :: 0 <= j < |out| ==>
      && out[j].xs == out[0].xs && out[j].ys == out[0].ys
      && GetTransform(out[j]) == Ok(target.transform)
    ensures forall j :: 0 <= j < |out| ==>
      NCols(out[j]) == target.width && NRows(out[j]) == target.height
  {
    forall j | 0 <= j < |out|
      ensures GetBounds(out[j]) == Ok(e) && GetTransform(out[j]) == Ok(target.transform)
      ensures NCols(out[j]) == target.width && NRows(out[j]) == target.height
    {
      GridOfSize(target.crs, target.transform, target.width, target.height, grids[j].vars);
      GridOfBounds(target.crs, target.transform, target.width, target.height, grids[j].vars);
      GridOfTransform(target.crs, target.transform, target.width, target.height, grids[j].vars);
      BoundsRoundTrip(e, target.width, target.height);
    }
  }
}
