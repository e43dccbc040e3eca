/** The georeferencing values of a raster grid: projections, bounding boxes,
    affine pixel-to-map transforms and resolutions, and the pixel-centre
    convention that links a box, a pixel count and a transform. */
module Geometry {
  import opened Results

  /** An opaque coordinate reference system, compared only by identity. */
  datatype Crs = Crs(id: nat)

  /** A bounding box `(left, bottom, right, top)` in the grid's own projection units. */
  datatype Bounds = Bounds(left: real, bottom: real, right: real, top: real)

  predicate WellFormed(b: Bounds)
  {
    b.left <= b.right && b.bottom <= b.top
  }

  predicate Contains(outer: Bounds, inner: Bounds)
  {
    && outer.left <= inner.left && outer.bottom <= inner.bottom
    && inner.right <= outer.right && inner.top <= outer.top
  }

  /** The pixel-to-map transform: `x = a*col + b*row + c`, `y = d*col + e*row + f`. */
  datatype Affine = Affine(a: real, b: real, c: real, d: real, e: real, f: real)

  /** Axis-aligned, with columns running east and rows running south. */
  predicate NorthUp(t: Affine)
  {
    t.b == 0.0 && t.d == 0.0 && t.a >= 0.0 && t.e <= 0.0
  }

  /** Pixel spacing along x and along y. */
  datatype Resolution = Resolution(x: real, y: real)

  /** A requested resolution: one number for both axes, or one per axis. */
  datatype ResSpec = Square(size: real) | PerAxis(res: Resolution)

  function Expand(rs: ResSpec): Resolution
  {
    match rs
    case Square(s) => Resolution(s, s)
    case PerAxis(r) => r
  }

  function Abs(x: real): real
  {
    if x < 0.0 then -x else x
  }

  function Lesser(x: real, y: real): real
  {
    if x <= y then x else y
  }

  function Greater(x: real, y: real): real
  {
    if x <= y then y else x
  }

  /** The transform of an `nx` by `ny` grid whose outermost pixel centres lie
      on the edges of `b`: the spacing is the span divided by the count minus
      one, and the origin is the top-left corner. */
  function TransformFromBounds(b: Bounds, nx: int, ny: int): (r: Result<Affine>)
    ensures r.Ok? <==> nx >= 2 && ny >= 2
    ensures r.Err? ==> r.error == DegenerateGrid
    ensures r.Ok? ==>
      && r.value.b == 0.0 && r.value.d == 0.0
      && r.value.c == b.left && r.value.f == b.top
      && r.value.c + ((nx - 1) as real) * r.value.a == b.right
      && r.value.f + ((ny - 1) as real) * r.value.e == b.bottom
    ensures r.Ok? ==> (WellFormed(b) <==> NorthUp(r.value))
  {
    if nx < 2 || ny < 2 then Err(DegenerateGrid)
    else
      var sx, sy := (nx - 1) as real, (ny - 1) as real;
      var a, e := (b.right - b.left) / sx, (b.bottom - b.top) / sy;
      assert a * sx == b.right - b.left && e * sy == b.bottom - b.top;
      SignOfQuotient(b.right - b.left, sx);
      SignOfQuotient(b.top - b.bottom, sy);
      Ok(Affine(a, 0.0, b.left, 0.0, e, b.top))
  }

  lemma SignOfQuotient(x: real, n: real)
    requires n > 0.0
    ensures x >= 0.0 <==> x / n >= 0.0
    ensures -x / n == -(x / n)
  {
    assert (x / n) * n == x;
  }

  /** A positive factor cancels from both sides of an equation. */
  lemma Cancel(s: real, a: real, b: real)
    requires s > 0.0 && s * a == s * b
    ensures a == b
  {
  }

  /** The coordinate of the `k`-th pixel centre from `origin` at `spacing`. */
  function Centre(origin: real, spacing: real, k: int): real
  {
    origin + (k as real) * spacing
  }

  /** The box spanned by the pixel centres of an `nx` by `ny` grid under `t`,
      edges sorted so that left <= right and bottom <= top. */
  function BoundsOf(t: Affine, nx: nat, ny: nat): (r: Bounds)
    requires nx >= 1 && ny >= 1
    ensures WellFormed(r)
    ensures {r.left, r.right} == {t.c, Centre(t.c, t.a, nx - 1)}
    ensures {r.bottom, r.top} == {t.f, Centre(t.f, t.e, ny - 1)}
  {
    var x0, x1 := t.c, Centre(t.c, t.a, nx - 1);
    var y0, y1 := t.f, Centre(t.f, t.e, ny - 1);
    Bounds(Lesser(x0, x1), Lesser(y0, y1), Greater(x0, x1), Greater(y0, y1))
  }

  /** Box -> transform -> box returns the box. */
  lemma BoundsRoundTrip(b: Bounds, nx: nat, ny: nat)
    requires nx >= 2 && ny >= 2
    ensures WellFormed(b) ==> BoundsOf(TransformFromBounds(b, nx, ny).value, nx, ny) == b
  {
  }

  /** Transform -> box -> transform returns a north-up transform. */
  lemma TransformRoundTrip(t: Affine, nx: nat, ny: nat)
    requires NorthUp(t) && nx >= 2 && ny >= 2
    ensures TransformFromBounds(BoundsOf(t, nx, ny), nx, ny) == Ok(t)
  {
    var sx, sy := (nx - 1) as real, (ny - 1) as real;
    var b := BoundsOf(t, nx, ny);
    assert b.left == t.c && b.right == t.c + sx * t.a by {
      assert sx * t.a >= 0.0;
    }
    assert b.top == t.f && b.bottom == t.f + sy * t.e by {
      assert sy * t.e <= 0.0;
    }
    var r := TransformFromBounds(b, nx, ny).value;
    assert r.c == t.c && r.f == t.f;
    assert r.a == t.a by {
      assert r.c + sx * r.a == b.right;
      assert sx * r.a == sx * t.a;
      Cancel(sx, r.a, t.a);
    }
    assert r.e == t.e by {
      assert r.f + sy * r.e == b.bottom;
      assert sy * r.e == sy * t.e;
      Cancel(sy, r.e, t.e);
    }
  }

  /** Rounds to the nearest whole number, halves upwards. */
  function Round(q: real): int
  {
    (q + 0.5).Floor
  }

  /** The number of pixel centres that cover `span` at `spacing`, the first
      and last centres on the ends of the span. */
  function PixelCount(span: real, spacing: real): (r: Result<nat>)
    ensures r.Ok? <==> spacing != 0.0 && span / spacing >= 0.5
    ensures r.Err? ==> r.error == DegenerateGrid
    ensures r.Ok? ==> r.value >= 2 && spacing != 0.0
    ensures r.Ok? ==> -0.5 <= span / spacing - ((r.value - 1) as real) < 0.5
  {
    if spacing == 0.0 then Err(DegenerateGrid)
    else
      var n := Round(span / spacing) + 1;
      if n < 2 then Err(DegenerateGrid) else Ok(n)
  }

  /** A spacing derived from a span and a count gives the count back. */
  lemma PixelCountInverts(span: real, n: nat)
    requires span != 0.0 && n >= 2
    ensures PixelCount(span, span / ((n - 1) as real)) == Ok(n)
  {
    var s := (n - 1) as real;
    var spacing := span / s;
    assert spacing * s == span;
    assert spacing != 0.0;
    assert span / spacing == s;
    assert (s + 0.5).Floor == n - 1;
  }
}
