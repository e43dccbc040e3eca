/** The legacy georeferencing side-channel some raster producers (the SNAP
    toolbox) write instead of usable coordinate metadata: a scalar `crs`
    variable whose attributes hold the projection and an `i2m` string listing
    the six transform coefficients in the order a, d, b, e, c, f, separated
    by commas. */
module Snap {
  import opened Results
  import opened Geometry
  import opened Grids

  /** A grid written with the legacy convention. */
  datatype SnapGrid = SnapGrid(xs: seq<real>, ys: seq<real>, vars: set<string>, crs: Crs, i2m: string)

  /** The transform coefficients in `i2m` order. */
  function Coefficients(t: Affine): seq<real>
  {
    [t.a, t.d, t.b, t.e, t.c, t.f]
  }

  /** The transform six coefficients in `i2m` order describe. */
  function FromCoefficients(v: seq<real>): (r: Result<Affine>)
    ensures r.Ok? <==> |v| == 6
    ensures r.Err? ==> r.error == MalformedI2m
    ensures r.Ok? ==> Coefficients(r.value) == v
  {
    if |v| != 6 then Err(MalformedI2m)
    else Ok(Affine(v[0], v[2], v[4], v[1], v[3], v[5]))
  }

  /** Coefficients -> transform -> coefficients is the identity on transforms. */
  lemma CoefficientsRoundTrip(t: Affine)
    ensures FromCoefficients(Coefficients(t)) == Ok(t)
  {
  }

  /** Fields joined with commas. */
  function Join(fields: seq<string>): string
    requires |fields| > 0
  {
    if |fields| == 1 then fields[0] else fields[0] + "," + Join(fields[1..])
  }

  /** The text between commas, as Python's `str.split(',')` returns it. */
  function Split(s: string): (r: seq<string>)
    ensures |r| >= 1
  {
    if |s| == 0 then [""]
    else
      var rest := Split(s[1..]);
      if s[0] == ',' then [""] + rest else [[s[0]] + rest[0]] + rest[1..]
  }

  lemma {:induction false} SplitField(f: string)
    requires ',' !in f
    ensures Split(f) == [f]
  {
    if |f| > 0 {
      assert ',' !in f[1..];
      SplitField(f[1..]);
      assert [f[0]] + f[1..] == f;
    }
  }

  lemma {:induction false} SplitAfterField(f: string, rest: string)
    requires ',' !in f
    ensures Split(f + "," + rest) == [f] + Split(rest)
  {
    if |f| == 0 {
      assert f + "," + rest == [','] + rest;
      assert (f + "," + rest)[1..] == rest;
    } else {
      var s := f + "," + rest;
      assert s[1..] == f[1..] + "," + rest;
      assert ',' !in f[1..];
      SplitAfterField(f[1..], rest);
      assert [f[0]] + f[1..] == f;
    }
  }

  /** Splitting undoes joining fields that hold no comma. */
  lemma {:induction false} SplitJoin(fields: seq<string>)
    requires |fields| > 0
    ensures (forall i :: 0 <= i < |fields| ==> ',' !in fields[i]) ==> Split(Join(fields)) == fields
  {
    if exists i :: 0 <= i < |fields| && ',' in fields[i] {
    } else if |fields| == 1 {
      SplitField(fields[0]);
    } else {
      SplitJoin(fields[1..]);
      SplitAfterField(fields[0], Join(fields[1..]));
      assert [fields[0]] + fields[1..] == fields;
    }
  }

  /** Number text for the values `v`: no text holds a comma, and each reads
      back as the number written (Python's `str` and `float` on floats). */
  predicate WritesBack(show: real -> string, read: string -> Option<real>, v: seq<real>)
  {
    forall i :: 0 <= i < |v| ==> ',' !in show(v[i]) && read(show(v[i])) == Some(v[i])
  }

  function Texts(show: real -> string, v: seq<real>): seq<string>
  {
    seq(|v|, i requires 0 <= i < |v| => show(v[i]))
  }

  /** The number a field holds, or the `i2m` error. */
  function ReadField(read: string -> Option<real>, field: string): Result<real>
  {
    match read(field)
    case Some(x) => Ok(x)
    case None => Err(MalformedI2m)
  }

  /** The `i2m` string of a transform: when no coefficient's text holds a
      comma, its comma-separated fields are the texts of a, d, b, e, c, f, in
      that order. */
  function EncodeI2m(t: Affine, show: real -> string): (r: string)
    ensures (forall i :: 0 <= i < 6 ==> ',' !in show(Coefficients(t)[i])) ==>
      Split(r) == [show(t.a), show(t.d), show(t.b), show(t.e), show(t.c), show(t.f)]
  {
    var fields := Texts(show, Coefficients(t));
    assert fields == [show(t.a), show(t.d), show(t.b), show(t.e), show(t.c), show(t.f)];
    SplitJoin(fields);
    Join(fields)
  }

  /** The transform an `i2m` string describes. */
  function DecodeI2m(s: string, read: string -> Option<real>): (r: Result<Affine>)
    ensures r.Ok? <==> |Split(s)| == 6 && forall i :: 0 <= i < |Split(s)| ==> read(Split(s)[i]).Some?
    ensures r.Err? ==> r.error == MalformedI2m
    ensures r.Ok? ==> forall i :: 0 <= i < 6 ==> read(Split(s)[i]) == Some(Coefficients(r.value)[i])
  {
    var fields := Split(s);
    var v :- MapResult(fields, f => ReadField(read, f));
    FromCoefficients(v)
  }

  /** Writing a transform as `i2m` text and reading it back returns it. */
  lemma I2mRoundTrip(t: Affine, show: real -> string, read: string -> Option<real>)
    requires WritesBack(show, read, Coefficients(t))
    ensures DecodeI2m(EncodeI2m(t, show), read) == Ok(t)
  {
    var s := EncodeI2m(t, show);
    var c := Coefficients(t);
    assert forall i :: 0 <= i < 6 ==> ',' !in show(c[i]) && read(show(c[i])) == Some(c[i]);
    var fields := Split(s);
    assert fields == [show(c[0]), show(c[1]), show(c[2]), show(c[3]), show(c[4]), show(c[5])];
    assert forall i :: 0 <= i < 6 ==> ReadField(read, fields[i]) == Ok(c[i]);
    var v := MapResult(fields, f => ReadField(read, f));
    assert v.Ok? && v.value == c;
    CoefficientsRoundTrip(t);
  }

  /** The legacy form of a grid: its transform written as `i2m`, its
      projection as the `crs` variable's attribute. */
  function ToSnap(g: Grid, show: real -> string): (r: Result<SnapGrid>)
    ensures r.Ok? <==> GetTransform(g).Ok?
    ensures r.Ok? ==> r.value.xs == g.xs && r.value.ys == g.ys && r.value.vars == g.vars
    ensures r.Ok? ==> r.value.crs == g.crs
    ensures r.Ok? ==> r.value.i2m == EncodeI2m(GetTransform(g).value, show)
    ensures r.Ok? && (forall i :: 0 <= i < 6 ==> ',' !in show(Coefficients(GetTransform(g).value)[i])) ==>
      var t := GetTransform(g).value;
      Split(r.value.i2m) == [show(t.a), show(t.d), show(t.b), show(t.e), show(t.c), show(t.f)]
  {
    var t :- GetTransform(g);
    Ok(SnapGrid(g.xs, g.ys, g.vars, g.crs, EncodeI2m(t, show)))
  }

  /** The transform of a legacy grid: read from `i2m`, not from its coordinates. */
  function SnapTransform(s: SnapGrid, read: string -> Option<real>): Result<Affine>
  {
    DecodeI2m(s.i2m, read)
  }

  /** The projection of a legacy grid: the `crs` variable's attribute. */
  function SnapCrs(s: SnapGrid): Crs
  {
    s.crs
  }

  /** A grid and its legacy form have the same transform and projection. */
  lemma SnapAgrees(g: Grid, show: real -> string, read: string -> Option<real>)
    requires GetTransform(g).Ok?
    requires WritesBack(show, read, Coefficients(GetTransform(g).value))
    ensures ToSnap(g, show).Ok?
    ensures SnapTransform(ToSnap(g, show).value, read) == GetTransform(g)
    ensures SnapCrs(ToSnap(g, show).value) == g.crs
  {
    I2mRoundTrip(GetTransform(g).value, show, read);
  }
}
