/** Aggregates over collections of grids in one projection: the union of
    their bounds and a common resolution. */
module Common {
  import opened Results
  import opened Aggregates
  import opened Geometry
  import opened Grids

  /** Every grid is in the projection of the first. */
  predicate SameProjection(gs: seq<Grid>)
  {
    forall i :: 0 <= i < |gs| ==> gs[i].crs == gs[0].crs
  }

  function Lefts(bs: seq<Bounds>): seq<real>
  {
    seq(|bs|, i requires 0 <= i < |bs| => bs[i].left)
  }

  function Bottoms(bs: seq<Bounds>): seq<real>
  {
    seq(|bs|, i requires 0 <= i < |bs| => bs[i].bottom)
  }

  function Rights(bs: seq<Bounds>): seq<real>
  {
    seq(|bs|, i requires 0 <= i < |bs| => bs[i].right)
  }

  function Tops(bs: seq<Bounds>): seq<real>
  {
    seq(|bs|, i requires 0 <= i < |bs| => bs[i].top)
  }

  /** The coordinate-wise union of boxes: the smallest box containing each. */
  function UnionAll(bs: seq<Bounds>): (r: Bounds)
    requires |bs| > 0
    ensures forall i :: 0 <= i < |bs| ==> Contains(r, bs[i])
    ensures exists i :: 0 <= i < |bs| && r.left == bs[i].left
    ensures exists i :: 0 <= i < |bs| && r.bottom == bs[i].bottom
    ensures exists i :: 0 <= i < |bs| && r.right == bs[i].right
    ensures exists i :: 0 <= i < |bs| && r.top == bs[i].top
  {
    var r := Bounds(Min(Lefts(bs)), Min(Bottoms(bs)), Max(Rights(bs)), Max(Tops(bs)));
    assert forall i :: 0 <= i < |bs| ==>
      Lefts(bs)[i] == bs[i].left && Bottoms(bs)[i] == bs[i].bottom &&
      Rights(bs)[i] == bs[i].right && Tops(bs)[i] == bs[i].top;
    r
  }

  /** Any box containing every box contains their union. */
  lemma UnionAllIsLeast(bs: seq<Bounds>, c: Bounds)
    requires |bs| > 0
    requires forall i :: 0 <= i < |bs| ==> Contains(c, bs[i])
    ensures Contains(c, UnionAll(bs))
  {
    var u := UnionAll(bs);
    var l :| 0 <= l < |bs| && u.left == bs[l].left;
    var b :| 0 <= b < |bs| && u.bottom == bs[b].bottom;
    var r :| 0 <= r < |bs| && u.right == bs[r].right;
    var t :| 0 <= t < |bs| && u.top == bs[t].top;
    assert Contains(c, bs[l]) && Contains(c, bs[b]) && Contains(c, bs[r]) && Contains(c, bs[t]);
  }

  /** The union of the bounds of grids that share one projection. */
  function CommonBounds(gs: seq<Grid>): (r: Result<Bounds>)
    ensures |gs| == 0 ==> r == Err(NoDatasets)
    ensures |gs| > 0 && !SameProjection(gs) ==> r == Err(ProjectionMismatch)
    ensures r.Ok? <==>
      |gs| > 0 && SameProjection(gs) && forall i :: 0 <= i < |gs| ==> GetBounds(gs[i]).Ok?
    ensures r.Ok? ==> forall i :: 0 <= i < |gs| ==> Contains(r.value, GetBounds(gs[i]).value)
    ensures r.Ok? ==> exists i :: 0 <= i < |gs| && r.value.left == GetBounds(gs[i]).value.left
    ensures r.Ok? ==> exists i :: 0 <= i < |gs| && r.value.bottom == GetBounds(gs[i]).value.bottom
    ensures r.Ok? ==> exists i :: 0 <= i < |gs| && r.value.right == GetBounds(gs[i]).value.right
    ensures r.Ok? ==> exists i :: 0 <= i < |gs| && r.value.top == GetBounds(gs[i]).value.top
  {
    if |gs| == 0 then Err(NoDatasets)
    else if !SameProjection(gs) then Err(ProjectionMismatch)
    else
      var bs :- MapResult(gs, GetBounds);
      Ok(UnionAll(bs))
  }

  /** The four boxes of the package's own example unite to (-13, 40, 1, 61). */
  lemma UnionAllExample()
    ensures UnionAll([Bounds(-10.0, 50.0, 0.0, 60.0), Bounds(-12.0, 40.0, -2.0, 52.0),
                      Bounds(-13.0, 50.0, -3.0, 60.0), Bounds(-9.0, 51.0, 1.0, 61.0)])
            == Bounds(-13.0, 40.0, 1.0, 61.0)
  {
    var bs := [Bounds(-10.0, 50.0, 0.0, 60.0), Bounds(-12.0, 40.0, -2.0, 52.0),
               Bounds(-13.0, 50.0, -3.0, 60.0), Bounds(-9.0, 51.0, 1.0, 61.0)];
    assert Lefts(bs) == [-10.0, -12.0, -13.0, -9.0];
    assert Bottoms(bs) == [50.0, 40.0, 50.0, 51.0];
    assert Rights(bs) == [0.0, -2.0, -3.0, 1.0];
    assert Tops(bs) == [60.0, 52.0, 60.0, 61.0];
    MinIs(Lefts(bs), 2);
    MinIs(Bottoms(bs), 1);
    MaxIs(Rights(bs), 3);
    MaxIs(Tops(bs), 3);
  }

  /** Grids laid out over given boxes have those boxes' union as common bounds. */
  lemma CommonBoundsOfExtents(crs: Crs, bs: seq<Bounds>, nx: nat, ny: nat)
    requires |bs| > 0 && nx >= 2 && ny >= 2
    requires forall i :: 0 <= i < |bs| ==> WellFormed(bs[i])
    ensures var gs := seq(|bs|, i requires 0 <= i < |bs| => GridFromExtent(crs, bs[i], nx, ny, {}).value);
      CommonBounds(gs) == Ok(UnionAll(bs))
  {
    var gs := seq(|bs|, i requires 0 <= i < |bs| => GridFromExtent(crs, bs[i], nx, ny, {}).value);
    assert forall i :: 0 <= i < |gs| ==> GetBounds(gs[i]) == Ok(bs[i]);
    assert SameProjection(gs);
    var m := MapResult(gs, GetBounds);
    assert m.Ok? && m.value == bs;
  }

  /** How per-grid resolutions are combined. */
  datatype Mode = Smallest | Largest | Average

  function ParseMode(s: string): (r: Result<Mode>)
    ensures r.Ok? <==> s == "min" || s == "max" || s == "mean"
    ensures r.Err? ==> r.error == UnsupportedMode(s)
  {
    if s == "min" then Ok(Smallest)
    else if s == "max" then Ok(Largest)
    else if s == "mean" then Ok(Average)
    else Err(UnsupportedMode(s))
  }

  function Aggregate(m: Mode, xs: seq<real>): (r: real)
    requires |xs| > 0
    ensures Min(xs) <= r <= Max(xs)
  {
    match m
    case Smallest => Min(xs)
    case Largest => Max(xs)
    case Average => MeanBetween(xs); Mean(xs)
  }

  function XRes(rs: seq<Resolution>): seq<real>
  {
    seq(|rs|, i requires 0 <= i < |rs| => rs[i].x)
  }

  function YRes(rs: seq<Resolution>): seq<real>
  {
    seq(|rs|, i requires 0 <= i < |rs| => rs[i].y)
  }

  /** One resolution for grids sharing a projection: the per-axis minimum,
      maximum or mean of their resolutions. */
  function CommonResolution(gs: seq<Grid>, mode: string): (r: Result<Resolution>)
    ensures ParseMode(mode).Err? ==> r == Err(UnsupportedMode(mode))
    ensures ParseMode(mode).Ok? && |gs| == 0 ==> r == Err(NoDatasets)
    ensures ParseMode(mode).Ok? && |gs| > 0 && !SameProjection(gs) ==> r == Err(ProjectionMismatch)
    ensures r.Ok? <==>
      && ParseMode(mode).Ok? && |gs| > 0 && SameProjection(gs)
      && forall i :: 0 <= i < |gs| ==> GetResolution(gs[i]).Ok?
    ensures r.Ok? ==> r.value.x >= 0.0 && r.value.y >= 0.0
  {
    var m :- ParseMode(mode);
    if |gs| == 0 then Err(NoDatasets)
    else if !SameProjection(gs) then Err(ProjectionMismatch)
    else
      var rs :- MapResult(gs, GetResolution);
      Ok(Combine(m, rs))
  }

  /** Resolutions combined axis by axis; the result lies between the finest
      and the coarsest along each axis. */
  function Combine(m: Mode, rs: seq<Resolution>): (r: Resolution)
    requires |rs| > 0
    requires forall i :: 0 <= i < |rs| ==> rs[i].x >= 0.0 && rs[i].y >= 0.0
    ensures r.x >= 0.0 && r.y >= 0.0
    ensures Min(XRes(rs)) <= r.x <= Max(XRes(rs))
    ensures Min(YRes(rs)) <= r.y <= Max(YRes(rs))
  {
    var xs, ys := XRes(rs), YRes(rs);
    assert xs[0] >= 0.0 && ys[0] >= 0.0;
    assert Min(xs) >= 0.0 && Min(ys) >= 0.0;
    Resolution(Aggregate(m, xs), Aggregate(m, ys))
  }

  /** The common resolution is the per-axis minimum, maximum or mean of the
      grids' own resolutions. */
  lemma CommonResolutionIsAggregate(gs: seq<Grid>, mode: string, rs: seq<Resolution>)
    requires CommonResolution(gs, mode).Ok?
    requires |rs| == |gs| && forall i :: 0 <= i < |gs| ==> GetResolution(gs[i]) == Ok(rs[i])
    ensures mode == "min" ==> CommonResolution(gs, mode).value == Resolution(Min(XRes(rs)), Min(YRes(rs)))
    ensures mode == "max" ==> CommonResolution(gs, mode).value == Resolution(Max(XRes(rs)), Max(YRes(rs)))
    ensures mode == "mean" ==> CommonResolution(gs, mode).value == Resolution(Mean(XRes(rs)), Mean(YRes(rs)))
  {
    assert MapResult(gs, GetResolution).value == rs;
  }

  /** With mode "min" the common resolution is no coarser than any grid's
      along either axis, and with "max" no finer. */
  lemma CommonResolutionExtremes(gs: seq<Grid>, mode: string)
    requires CommonResolution(gs, mode).Ok?
    ensures mode == "min" ==> forall i :: 0 <= i < |gs| ==>
      && CommonResolution(gs, mode).value.x <= GetResolution(gs[i]).value.x
      && CommonResolution(gs, mode).value.y <= GetResolution(gs[i]).value.y
    ensures mode == "max" ==> forall i :: 0 <= i < |gs| ==>
      && GetResolution(gs[i]).value.x <= CommonResolution(gs, mode).value.x
      && GetResolution(gs[i]).value.y <= CommonResolution(gs, mode).value.y
  {
    var rs := MapResult(gs, GetResolution).value;
    var r := CommonResolution(gs, mode).value;
    CommonResolutionIsAggregate(gs, mode, rs);
    forall i | 0 <= i < |gs|
      ensures mode == "min" ==> r.x <= GetResolution(gs[i]).value.x && r.y <= GetResolution(gs[i]).value.y
      ensures mode == "max" ==> GetResolution(gs[i]).value.x <= r.x && GetResolution(gs[i]).value.y <= r.y
    {
      assert GetResolution(gs[i]) == Ok(rs[i]);
      assert XRes(rs)[i] == rs[i].x && YRes(rs)[i] == rs[i].y;
    }
  }

  /** In every mode the common resolution lies, along each axis, between the
      finest and the coarsest of the grids' own resolutions. */
  lemma CommonResolutionBetween(gs: seq<Grid>, mode: string)
    requires CommonResolution(gs, mode).Ok?
    ensures exists j, k :: (0 <= j < |gs| && 0 <= k < |gs| &&
      GetResolution(gs[j]).value.x <= CommonResolution(gs, mode).value.x <= GetResolution(gs[k]).value.x)
    ensures exists j, k :: (0 <= j < |gs| && 0 <= k < |gs| &&
      GetResolution(gs[j]).value.y <= CommonResolution(gs, mode).value.y <= GetResolution(gs[k]).value.y)
  {
    var rs := MapResult(gs, GetResolution).value;
    var r := CommonResolution(gs, mode).value;
    var xs, ys := XRes(rs), YRes(rs);
    var jx :| 0 <= jx < |xs| && xs[jx] == Min(xs);
    var kx :| 0 <= kx < |xs| && xs[kx] == Max(xs);
    var jy :| 0 <= jy < |ys| && ys[jy] == Min(ys);
    var ky :| 0 <= ky < |ys| && ys[ky] == Max(ys);
    assert GetResolution(gs[jx]).value.x <= r.x <= GetResolution(gs[kx]).value.x;
    assert GetResolution(gs[jy]).value.y <= r.y <= GetResolution(gs[ky]).value.y;
  }
}
