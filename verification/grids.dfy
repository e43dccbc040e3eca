/** A raster grid as the warp operations see it: its projection, the
    pixel-centre coordinate arrays along x and y, and the names of its data
    variables. Bounds, transform and resolution are derived from the
    coordinate arrays on demand. */
module Grids {
  import opened Results
  import opened Aggregates
  import opened Geometry

  datatype Grid = Grid(crs: Crs, xs: seq<real>, ys: seq<real>, vars: set<string>)

  function NCols(g: Grid): nat
  {
    |g.xs|
  }

  function NRows(g: Grid): nat
  {
    |g.ys|
  }

  /** The box spanned by the pixel centres: the extreme coordinates along each axis. */
  function GetBounds(g: Grid): (r: Result<Bounds>)
    ensures r.Ok? <==> NCols(g) > 0 && NRows(g) > 0
    ensures r.Err? ==> r.error == EmptyGrid
    ensures r.Ok? ==> WellFormed(r.value)
    ensures r.Ok? ==> forall i :: 0 <= i < |g.xs| ==> r.value.left <= g.xs[i] <= r.value.right
    ensures r.Ok? ==> forall j :: 0 <= j < |g.ys| ==> r.value.bottom <= g.ys[j] <= r.value.top
    ensures r.Ok? ==> r.value.left in g.xs && r.value.right in g.xs
    ensures r.Ok? ==> r.value.bottom in g.ys && r.value.top in g.ys
  {
    if |g.xs| == 0 || |g.ys| == 0 then Err(EmptyGrid)
    else Ok(Bounds(Min(g.xs), Min(g.ys), Max(g.xs), Max(g.ys)))
  }

  /** The transform under the pixel-centre convention: origin at the top-left
      centre, spacing the span of the centres over the count minus one. */
  function GetTransform(g: Grid): (r: Result<Affine>)
    ensures r.Ok? <==> NCols(g) >= 2 && NRows(g) >= 2
    ensures r.Err? ==> r.error == (if NCols(g) == 0 || NRows(g) == 0 then EmptyGrid else DegenerateGrid)
    ensures r.Ok? ==> NorthUp(r.value)
    ensures r.Ok? ==> r.value.c == GetBounds(g).value.left && r.value.f == GetBounds(g).value.top
  {
    var b :- GetBounds(g);
    TransformFromBounds(b, NCols(g), NRows(g))
  }

  /** The spacing of the transform is the span of the centres over the count
      minus one, along each axis. */
  lemma TransformSpacing(g: Grid)
    requires GetTransform(g).Ok?
    ensures var t, b := GetTransform(g).value, GetBounds(g).value;
      && t.a == (b.right - b.left) / ((NCols(g) - 1) as real)
      && t.e == (b.bottom - b.top) / ((NRows(g) - 1) as real)
  {
  }

  /** The pixel spacing along each axis, never negative. */
  function GetResolution(g: Grid): (r: Result<Resolution>)
    ensures r.Ok? <==> GetTransform(g).Ok?
    ensures r.Err? ==> r.error == GetTransform(g).error
    ensures r.Ok? ==> r.value.x >= 0.0 && r.value.y >= 0.0
    ensures r.Ok? ==>
      var t := GetTransform(g).value;
      r.value == Resolution(t.a, Abs(t.e))
  {
    var t :- GetTransform(g);
    Ok(Resolution(Abs(t.a), Abs(t.e)))
  }

  /** The resolution is the absolute span of the centres over the count minus
      one, along each axis. */
  lemma ResolutionFromBounds(g: Grid)
    requires GetResolution(g).Ok?
    ensures var r, b := GetResolution(g).value, GetBounds(g).value;
      && r.x == Abs(b.right - b.left) / ((NCols(g) - 1) as real)
      && r.y == Abs(b.bottom - b.top) / ((NRows(g) - 1) as real)
  {
    var b := GetBounds(g).value;
    TransformSpacing(g);
    SignOfQuotient(b.top - b.bottom, (NRows(g) - 1) as real);
  }

  /** `n` coordinates `step` apart, starting at `start`. */
  function Linspace(start: real, step: real, n: nat): seq<real>
  {
    seq(n, i => Centre(start, step, i))
  }

  /** Coordinates step one way: the first and last are the extremes. */
  lemma LinspaceMonotone(start: real, step: real, n: nat)
    requires n >= 1
    ensures var xs := Linspace(start, step, n);
      step >= 0.0 ==> forall i :: 0 <= i < n ==> xs[0] <= xs[i] <= xs[n - 1]
    ensures var xs := Linspace(start, step, n);
      step < 0.0 ==> forall i :: 0 <= i < n ==> xs[n - 1] <= xs[i] <= xs[0]
  {
    var xs := Linspace(start, step, n);
    forall i | 0 <= i < n
      ensures step >= 0.0 ==> xs[0] <= xs[i] <= xs[n - 1]
      ensures step < 0.0 ==> xs[n - 1] <= xs[i] <= xs[0]
    {
      var k, m := i as real, (n - 1 - i) as real;
      assert xs[i] - xs[0] == k * step;
      assert xs[n - 1] - xs[i] == m * step;
      assert k >= 0.0 && m >= 0.0;
      if step >= 0.0 {
        assert k * step >= 0.0 && m * step >= 0.0;
      } else {
        assert k * step <= 0.0 && m * step <= 0.0;
      }
    }
  }

  /** The extremes of evenly spaced coordinates are its two ends. */
  lemma LinspaceExtremes(start: real, step: real, n: nat)
    requires n >= 1
    ensures Min(Linspace(start, step, n)) == Lesser(start, Centre(start, step, n - 1))
    ensures Max(Linspace(start, step, n)) == Greater(start, Centre(start, step, n - 1))
  {
    var xs := Linspace(start, step, n);
    LinspaceMonotone(start, step, n);
    assert xs[0] == start && xs[n - 1] == Centre(start, step, n - 1);
    if step >= 0.0 {
      MinIs(xs, 0);
      MaxIs(xs, n - 1);
    } else {
      MinIs(xs, n - 1);
      MaxIs(xs, 0);
    }
  }

  /** The grid an `nx` by `ny` raster under `t` describes: column `i` centred
      on `c + i*a`, row `j` on `f + j*e` (shear terms are not representable by
      coordinate arrays and are ignored). */
  function GridOf(crs: Crs, t: Affine, nx: nat, ny: nat, vars: set<string>): Grid
  {
    Grid(crs, Linspace(t.c, t.a, nx), Linspace(t.f, t.e, ny), vars)
  }

  /** A grid generated at `nx` by `ny` pixels has `nx` columns and `ny` rows,
      in the given projection and with the given variables. */
  lemma GridOfSize(crs: Crs, t: Affine, nx: nat, ny: nat, vars: set<string>)
    ensures var g := GridOf(crs, t, nx, ny, vars);
      NCols(g) == nx && NRows(g) == ny && g.crs == crs && g.vars == vars
  {
  }

  /** Transform -> coordinates -> bounds gives the box the transform spans. */
  lemma GridOfBounds(crs: Crs, t: Affine, nx: nat, ny: nat, vars: set<string>)
    requires nx >= 1 && ny >= 1
    ensures GetBounds(GridOf(crs, t, nx, ny, vars)) == Ok(BoundsOf(t, nx, ny))
  {
    LinspaceExtremes(t.c, t.a, nx);
    LinspaceExtremes(t.f, t.e, ny);
  }

  /** Transform -> coordinates -> transform returns a north-up transform. */
  lemma GridOfTransform(crs: Crs, t: Affine, nx: nat, ny: nat, vars: set<string>)
    requires NorthUp(t) && nx >= 2 && ny >= 2
    ensures GetTransform(GridOf(crs, t, nx, ny, vars)) == Ok(t)
  {
    GridOfBounds(crs, t, nx, ny, vars);
    TransformRoundTrip(t, nx, ny);
  }

  /** A grid of `nx` by `ny` pixel centres spread evenly over `b`, the
      outermost centres on its edges. */
  function GridFromExtent(crs: Crs, b: Bounds, nx: nat, ny: nat, vars: set<string>): (r: Result<Grid>)
    ensures r.Ok? <==> nx >= 2 && ny >= 2
    ensures r.Err? ==> r.error == DegenerateGrid
    ensures r.Ok? ==> r.value.crs == crs && r.value.vars == vars
    ensures r.Ok? ==> NCols(r.value) == nx && NRows(r.value) == ny
    ensures r.Ok? && WellFormed(b) ==> GetBounds(r.value) == Ok(b)
    ensures r.Ok? && WellFormed(b) ==> GetTransform(r.value) == TransformFromBounds(b, nx, ny)
  {
    var t :- TransformFromBounds(b, nx, ny);
    GridOfBounds(crs, t, nx, ny, vars);
    BoundsRoundTrip(b, nx, ny);
    Ok(GridOf(crs, t, nx, ny, vars))
  }
}
