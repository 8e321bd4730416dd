/**
 * The JavaScript values that candidate records and filter plans hold, with the three
 * coercions the engine applies to them: truthiness (`Boolean(v)`, `if (v)`, `v || d`),
 * `String(v)` and `parseFloat(v)`/`parseInt(v)`.
 */
module JsValues {
  import opened Wrappers
  import opened JsStrings
  import opened JsNumbers

  /**
   * A JavaScript value. Numbers are integers (no fractions, no `NaN`); arrays are arrays
   * of strings, which is what candidate records carry (skill lists).
   */
  datatype JsValue =
    | Undefined
    | Null
    | Bool(b: bool)
    | Num(n: int)
    | Str(s: string)
    | Arr(items: seq<string>)

  /** `Boolean(v)`: `undefined`, `null`, `false`, `0` and `""` are falsy; every array is truthy. */
  predicate Truthy(v: JsValue) {
    match v
    case Undefined => false
    case Null => false
    case Bool(b) => b
    case Num(n) => n != 0
    case Str(s) => s != ""
    case Arr(_) => true
  }

  /** `String(v)`: arrays are joined with `,`. */
  function ToStr(v: JsValue): string {
    match v
    case Undefined => "undefined"
    case Null => "null"
    case Bool(b) => if b then "true" else "false"
    case Num(n) => IntToString(n)
    case Str(s) => s
    case Arr(items) => Join(items, ',')
  }

  /** `parseFloat(v)` (and `parseInt(v)`): parses `String(v)`; `None` is `NaN`. */
  function ParseNumber(v: JsValue): Option<int> {
    ParseLeadingInt(ToStr(v))
  }

  /** `parseFloat(v) || d`: the parsed number, or `d` when it is `NaN` or `0`. */
  function NumberOr(v: JsValue, d: int): (r: int)
    ensures r == d || ParseNumber(v) == Some(r)
    ensures ParseNumber(v).Some? && ParseNumber(v).value != 0 ==> r == ParseNumber(v).value
    ensures ParseNumber(v).None? || ParseNumber(v) == Some(0) ==> r == d
  {
    match ParseNumber(v)
    case Some(n) => if n != 0 then n else d
    case None => d
  }

  /** A number parses back to itself. */
  lemma ParseNumberOfNum(n: int)
    ensures ParseNumber(Num(n)) == Some(n)
  {
    ParseIntToString(n);
  }

  /** Values with no digits to read: `undefined`, `null`, booleans. */
  lemma {:induction false} ParseNumberOfNonNumeric(v: JsValue)
    requires v.Undefined? || v.Null? || v.Bool?
    ensures ParseNumber(v) == None
  {
    var s := ToStr(v);
    assert s[0] in "untf";
    assert !IsSpace(s[0]) && !IsDigit(s[0]);
    assert TrimStart(s) == s;
    ParseRejects(s);
  }
}
