/**
 * Parsed JSON values, as Python's json module hands them to the consolidator,
 * and the handful of Python built-ins the consolidator applies to them:
 * truthiness (`if not data`), membership (`key in value`), hashability
 * (set membership of an entity id) and `str()` of an integer.
 */
module PyJson {

  datatype Option<+T> = None | Some(value: T) {
    predicate IsFailure() { None? }

    function PropagateFailure<U>(): Option<U>
      requires None?
    {
      None
    }

    function Extract(): T
      requires Some?
    {
      value
    }
  }

  /** A JSON value. Numbers are integers (see README: floating point is left out). */
  datatype Json =
    | JNull
    | JBool(b: bool)
    | JNum(n: int)
    | JStr(s: string)
    | JArr(items: seq<Json>)
    | JObj(fields: map<string, Json>)

  /** A JSON object, the shape of every document the consolidator writes. */
  type Doc = map<string, Json>

  /** Python truthiness of a parsed value: `None`, `False`, `0`, `""`, `[]` and `{}` are falsy. */
  predicate Truthy(j: Json) {
    match j
    case JNull => false
    case JBool(b) => b
    case JNum(n) => n != 0
    case JStr(s) => s != []
    case JArr(xs) => xs != []
    case JObj(m) => m != map[]
  }

  /** `k` occurs as a contiguous piece of `s` (Python's `k in s` on two strings). */
  predicate IsSubstring(k: string, s: string)
    decreases |s|
  {
    k <= s || (s != [] && IsSubstring(k, s[1..]))
  }

  /**
   * Python's `key in container` for a string key: a key test on a dict, an
   * equality test against the elements of a list, a substring test on a
   * string; None stands for the TypeError raised on numbers, booleans and None.
   */
  function PyIn(key: string, container: Json): (r: Option<bool>)
    ensures container.JObj? ==> r == Some(key in container.fields)
    ensures r.None? <==> container.JNull? || container.JBool? || container.JNum?
  {
    match container
    case JObj(m) => Some(key in m)
    case JArr(xs) => Some(JStr(key) in xs)
    case JStr(s) => Some(IsSubstring(key, s))
    case _ => None
  }

  /** Values Python can put in a set: lists and dicts are unhashable. */
  predicate Hashable(j: Json) {
    !j.JArr? && !j.JObj?
  }

  function DigitChar(d: nat): char
    requires d < 10
  {
    "0123456789"[d]
  }

  /** Decimal text of a natural number, as `str(n)` writes it. */
  function NatToString(n: nat): (s: string)
    ensures |s| >= 1
    ensures forall i :: 0 <= i < |s| ==> '0' <= s[i] <= '9'
    decreases n
  {
    if n < 10 then [DigitChar(n)] else NatToString(n / 10) + [DigitChar(n % 10)]
  }

  /** Decimal text of an integer, as `str(n)` writes it. */
  function IntToString(n: int): string {
    if n < 0 then "-" + NatToString(-n) else NatToString(n)
  }
}
