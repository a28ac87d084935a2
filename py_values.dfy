/**
 * The Python values the connector handles in a record's fields, and the
 * three builtins it applies to them: `str(v)`, `repr(v)` and `int(v)`.
 */
module PyValues {
  import opened Wrappers
  import opened Text

  /**
   * A scalar field value. `Other` stands for any further Python value
   * (a float, a timestamp, ...) and carries the text `str()` gives for it.
   */
  datatype Scalar = Null | Bool(b: bool) | Int(i: int) | Str(s: string) | Other(text: string)

  /** The Python exceptions the modelled code can raise. */
  datatype PyError = TypeError | ValueError | KeyError | IndexError | AttributeError

  /** `str(v)` */
  function PyStr(v: Scalar): string
  {
    match v
    case Null => "None"
    case Bool(b) => if b then "True" else "False"
    case Int(i) => IntToString(i)
    case Str(s) => s
    case Other(t) => t
  }

  /** `repr(v)`: as `str(v)`, except that text is put between single quotes. */
  function PyRepr(v: Scalar): string
  {
    if v.Str? then "'" + v.s + "'" else PyStr(v)
  }

  /**
   * `int(v)`: booleans give 0 or 1, integers themselves, text is parsed as a
   * signed decimal (ValueError otherwise), `None` raises TypeError.
   */
  function PyInt(v: Scalar): (r: Result<int, PyError>)
    ensures v.Bool? ==> r == Ok(if v.b then 1 else 0)
    ensures v.Int? ==> r == Ok(v.i)
    ensures v.Null? ==> r == Err(TypeError)
    ensures v.Str? ==> (r.Ok? <==> ParseInt(v.s).Some?) && (r.Ok? ==> Some(r.value) == ParseInt(v.s))
    ensures v.Str? && r.Err? ==> r.error == ValueError
    ensures v.Other? ==> r == Err(TypeError)
  {
    match v
    case Null => Err(TypeError)
    case Bool(b) => Ok(if b then 1 else 0)
    case Int(i) => Ok(i)
    case Str(s) => (match ParseInt(s) case Some(n) => Ok(n) case None => Err(ValueError))
    case Other(_) => Err(TypeError)
  }

  /** `int(str(v)) == v` for every integer value. */
  lemma StrIntRoundTrip(v: Scalar)
    requires v.Int?
    ensures PyInt(Str(PyStr(v))) == Ok(v.i)
  {
    IntToStringRoundTrip(v.i);
  }
}
