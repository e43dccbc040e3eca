/** Outcomes of the warp operations: either a value or one of the errors the
    package raises, together with the messages those errors carry. */
module Results {

  datatype Option<+T> = None | Some(value: T)

  /** The failures the warp operations report. */
  datatype WarpError =
    | EmptyGrid                     // a grid without any coordinate along one axis
    | DegenerateGrid                // fewer than two pixel centres along an axis: the spacing divides by zero
    | NoDatasets                    // an aggregate asked of an empty collection
    | ProjectionMismatch            // grids in different projections where one is required
    | UnsupportedMode(mode: string) // a resolution aggregation other than min, max or mean
    | TransformNeedsSize            // a target transform without both `width` and `height`
    | ExtentNeedsSizeOrRes          // a target extent with neither `width` and `height` nor `res`
    | MalformedI2m                  // a legacy `i2m` string that is not six numbers

  /** A value or an error; usable with `:-`. */
  datatype Result<+T> = Ok(value: T) | Err(error: WarpError) {
    predicate IsFailure() { Err? }

    function PropagateFailure<U>(): Result<U>
      requires Err?
    {
      Err(error)
    }

    function Extract(): T
      requires Ok?
    {
      value
    }
  }

  const SizePhrase := " must also specify the `width` and `height`"
  const AlternativePhrase := "Need to provide either `width` and `height` "

  /** Applies `f` to every element in order; the first failure is the result. */
  function MapResult<A, B>(xs: seq<A>, f: A -> Result<B>): (r: Result<seq<B>>)
    ensures r.Ok? <==> forall i :: 0 <= i < |xs| ==> f(xs[i]).Ok?
    ensures r.Ok? ==> |r.value| == |xs|
    ensures r.Ok? ==> forall i :: 0 <= i < |xs| ==> f(xs[i]) == Ok(r.value[i])
    ensures r.Err? ==>
      exists i :: 0 <= i < |xs| && f(xs[i]) == Err(r.error) && forall j :: 0 <= j < i ==> f(xs[j]).Ok?
  {
    if |xs| == 0 then Ok([])
    else
      var head :- f(xs[0]);
      assert forall i :: 1 <= i < |xs| ==> xs[i] == xs[1..][i - 1];
      var rest :- MapResult(xs[1..], f);
      Ok([head] + rest)
  }

  /** The text each error is raised with. */
  function Message(e: WarpError): string
  {
    match e
    case EmptyGrid => "The grid has no coordinates along one of its axes."
    case DegenerateGrid => "A grid needs at least two pixels along each axis."
    case NoDatasets => "At least one dataset is required."
    case ProjectionMismatch => "All datasets must have the same projection."
    case UnsupportedMode(m) => "Unsupported mode: '" + m + "'"
    case TransformNeedsSize => "If `transform` is given, you" + SizePhrase + " arguments."
    case ExtentNeedsSizeOrRes => AlternativePhrase + "or `res` when `extent` is given."
    case MalformedI2m => "The `i2m` attribute must hold six comma-separated numbers."
  }

  /** `fragment` occurs somewhere in `msg` (what a regular-expression search for it finds). */
  predicate Mentions(msg: string, fragment: string)
  {
    exists i :: 0 <= i <= |msg| && fragment <= msg[i..]
  }

  /** A part of a concatenation is mentioned by it. */
  lemma MentionsPart(a: string, b: string, c: string)
    ensures Mentions(a + b + c, b)
  {
    assert (a + b + c)[|a|..] == b + c;
  }

  /** The messages carry the phrases callers match them against. */
  lemma MessagesMatchPatterns(m: string)
    ensures Mentions(Message(UnsupportedMode(m)), "Unsupported mode: '" + m + "'")
    ensures Mentions(Message(ProjectionMismatch), "All datasets must have the same projection.")
    ensures Mentions(Message(TransformNeedsSize), SizePhrase)
    ensures Mentions(Message(ExtentNeedsSizeOrRes), AlternativePhrase)
  {
    assert Message(UnsupportedMode(m))[0..] == "Unsupported mode: '" + m + "'";
    assert Message(ProjectionMismatch)[0..] == "All datasets must have the same projection.";
    MentionsPart("If `transform` is given, you", SizePhrase, " arguments.");
    assert Message(ExtentNeedsSizeOrRes)[0..] == AlternativePhrase + "or `res` when `extent` is given.";
  }
}
