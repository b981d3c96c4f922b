/** Small shared vocabulary: an optional value and the three shapes a
    numeric form field can arrive in. */
module Base {

  datatype Option<T> = None | Some(value: T)

  /** A numeric field of a submitted form: left out of the form, a text that
      reads as a number, or a text that does not. */
  datatype NumField = Absent | Num(n: int) | NotNumeric

  /** `int(form.get(key, default))` / `float(form.get(key, default))`: an
      absent field gives the default, a malformed one raises (None here). */
  function ParseStrict(f: NumField, default: int): (r: Option<int>)
    ensures r.None? <==> f.NotNumeric?
    ensures f.Num? ==> r == Some(f.n)
    ensures f.Absent? ==> r == Some(default)
  {
    match f
    case Absent => Some(default)
    case Num(n) => Some(n)
    case NotNumeric => None
  }

  /** `form.get(key, default, type=int)`: a conversion failure falls back to
      the default instead of raising. */
  function ParseLenient(f: NumField, default: int): (r: int)
    ensures f.Num? ==> r == f.n
    ensures !f.Num? ==> r == default
  {
    if f.Num? then f.n else default
  }

  function Min(a: int, b: int): int {
    if a <= b then a else b
  }

  function Max(a: int, b: int): int {
    if a <= b then b else a
  }
}
