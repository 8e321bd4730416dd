/**
 * The two helpers of the search tools (src/lib/mcp-tools.js) that read a candidate
 * record: `matchesFilter`, which tests one field value against one filter criterion, and
 * `getFieldValue`, which turns a field into the key the ranking compares.
 */
module McpMatch {
  import opened Wrappers
  import opened JsStrings
  import opened JsValues

  /** A candidate as the engine sees it: field name to value; a missing field reads as `undefined`. */
  type Record = map<string, JsValue>

  /** `candidate[field]`. */
  function Get(r: Record, field: string): JsValue {
    if field in r then r[field] else Undefined
  }

  /**
   * The host services the tools call but whose behaviour is not modelled here:
   * `regexTest(pattern, subject)` is `new RegExp(pattern, 'i').test(subject)`, with `None`
   * when the constructor throws on an invalid pattern; `dateTime(v)` is
   * `new Date(v).getTime()`, with `None` for an invalid date (`NaN`).
   */
  datatype Runtime = Runtime(regexTest: (string, string) -> Option<bool>, dateTime: JsValue -> Option<int>)

  /**
   * A filter criterion `{ field, type, operator, value }` as a plan carries it; a key the
   * plan leaves out reads as `undefined`. `type` is the tools' own spelling of the operator,
   * `operator` the planner's.
   */
  datatype Criterion = Criterion(field: JsValue, typeTag: JsValue, operator: JsValue, value: JsValue)

  /** `filter.type || filter.operator || 'exact'`. */
  function Operator(c: Criterion): JsValue {
    if Truthy(c.typeTag) then c.typeTag
    else if Truthy(c.operator) then c.operator
    else Str("exact")
  }

  /** The pattern `new RegExp(v, 'i')` compiles: `undefined` gives the empty pattern, anything else `String(v)`. */
  function RegexPattern(v: JsValue): string {
    if v.Undefined? then "(?:)" else ToStr(v)
  }

  /** `String(value).toLowerCase() === String(filterValue).toLowerCase()`. */
  predicate SameText(value: JsValue, filterValue: JsValue) {
    Lower(ToStr(value)) == Lower(ToStr(filterValue))
  }

  /** `parseFloat(a) >= parseFloat(b)`: false as soon as either side is `NaN`. */
  predicate NumberAtLeast(a: JsValue, b: JsValue) {
    match (ParseNumber(a), ParseNumber(b))
    case (Some(x), Some(y)) => x >= y
    case _ => false
  }

  /** The cases of `matchesFilter`'s `switch`. */
  datatype Op = Contains | Regex | BooleanOp | Gte | Lte | Exact

  /**
   * The case the `switch` selects for an operator value. It compares with `===`, so only
   * the exact strings select a case; anything else, including a non-string operator,
   * falls to the default, the case-insensitive exact match.
   */
  function OpOf(op: JsValue): Op {
    if op == Str("contains") then Contains
    else if op == Str("regex") then Regex
    else if op == Str("boolean") then BooleanOp
    else if op == Str("gte") then Gte
    else if op == Str("lte") then Lte
    else Exact
  }

  /** The six operator names select their own cases. */
  lemma OpNames()
    ensures OpOf(Str("contains")) == Contains && OpOf(Str("regex")) == Regex
    ensures OpOf(Str("boolean")) == BooleanOp && OpOf(Str("gte")) == Gte
    ensures OpOf(Str("lte")) == Lte && OpOf(Str("exact")) == Exact
  {
    assert |"contains"| == 8 && |"regex"| == 5 && |"boolean"| == 7;
    assert |"gte"| == 3 && |"lte"| == 3 && |"exact"| == 5;
    assert "lte"[0] != "gte"[0] && "exact"[0] != "regex"[0];
  }

  /** `matchesFilter(value, filter)`: does the field value `value` satisfy the criterion? */
  function MatchesFilter(rt: Runtime, value: JsValue, c: Criterion): bool
  {
    match OpOf(Operator(c))
    case Contains => Includes(Lower(ToStr(value)), Lower(ToStr(c.value)))
    case Regex =>
      (match rt.regexTest(RegexPattern(c.value), ToStr(value))
       case Some(found) => found
       case None => false)
    case BooleanOp => c.value == Bool(Truthy(value))
    case Gte => NumberAtLeast(value, c.value)
    case Lte => NumberAtLeast(c.value, value)
    case Exact => SameText(value, c.value)
  }

  /**
   * What each operator demands: numeric bounds hold only between two readable numbers, a
   * regular expression matches only when it compiles and finds a match, `boolean` compares
   * the value's truthiness with a boolean criterion value, `contains` is a case-insensitive
   * substring test.
   */
  lemma OperatorMeaning(rt: Runtime, value: JsValue, c: Criterion)
    ensures var r := MatchesFilter(rt, value, c);
      && (Operator(c) == Str("gte") && r ==> ParseNumber(value).Some? && ParseNumber(c.value).Some?)
      && (Operator(c) == Str("lte") && r ==> ParseNumber(value).Some? && ParseNumber(c.value).Some?)
      && (Operator(c) == Str("regex") ==> (r <==> rt.regexTest(RegexPattern(c.value), ToStr(value)) == Some(true)))
      && (Operator(c) == Str("boolean") ==> (r <==> c.value.Bool? && c.value.b == Truthy(value)))
      && (Operator(c) == Str("contains") ==> (r <==> Includes(Lower(ToStr(value)), Lower(ToStr(c.value)))))
  {
    OpNames();
  }

  /** Precedence: a truthy `type` decides the operator whatever `operator` says. */
  lemma TypeOverridesOperator(rt: Runtime, value: JsValue, c: Criterion, other: JsValue)
    requires Truthy(c.typeTag)
    ensures MatchesFilter(rt, value, c) == MatchesFilter(rt, value, c.(operator := other))
  {
  }

  /** A criterion with neither `type` nor `operator` is an exact match. */
  lemma DefaultIsExact(rt: Runtime, value: JsValue, c: Criterion)
    requires !Truthy(c.typeTag) && !Truthy(c.operator)
    ensures MatchesFilter(rt, value, c) <==> SameText(value, c.value)
  {
    OpNames();
  }

  /** An operator the tools do not know behaves as `exact`. */
  lemma UnknownOperatorIsExact(rt: Runtime, value: JsValue, c: Criterion)
    requires Operator(c) !in {Str("contains"), Str("regex"), Str("boolean"), Str("gte"), Str("lte")}
    ensures MatchesFilter(rt, value, c) <==> SameText(value, c.value)
  {
  }

  /** Every exact match is also a `contains` match. */
  lemma ExactImpliesContains(rt: Runtime, value: JsValue, c: Criterion)
    requires Operator(c) == Str("exact") && MatchesFilter(rt, value, c)
    ensures MatchesFilter(rt, value, c.(typeTag := Str("contains")))
  {
    OpNames();
    IncludesSelf(Lower(ToStr(value)));
  }

  /** Under `gte` the criterion is the numeric lower bound and nothing else. */
  lemma SelectsGte(rt: Runtime, value: JsValue, c: Criterion)
    requires Operator(c) == Str("gte")
    ensures MatchesFilter(rt, value, c) == NumberAtLeast(value, c.value)
  {
    OpNames();
  }

  /** Under `lte` the criterion is the numeric upper bound and nothing else. */
  lemma SelectsLte(rt: Runtime, value: JsValue, c: Criterion)
    requires Operator(c) == Str("lte")
    ensures MatchesFilter(rt, value, c) == NumberAtLeast(c.value, value)
  {
    OpNames();
  }

  /** A missing field never satisfies a lower bound: `parseFloat(undefined)` is `NaN`. */
  lemma MissingFieldFailsGte(rt: Runtime, c: Criterion)
    requires Operator(c) == Str("gte")
    ensures !MatchesFilter(rt, Undefined, c)
  {
    ParseNumberOfNonNumeric(Undefined);
    SelectsGte(rt, Undefined, c);
  }

  /** Nor an upper bound. */
  lemma MissingFieldFailsLte(rt: Runtime, c: Criterion)
    requires Operator(c) == Str("lte")
    ensures !MatchesFilter(rt, Undefined, c)
  {
    ParseNumberOfNonNumeric(Undefined);
    SelectsLte(rt, Undefined, c);
  }

  /** On numbers, `gte` is the numeric comparison `>=`. */
  lemma GteOnNumbers(rt: Runtime, n: int, bound: int, c: Criterion)
    requires Operator(c) == Str("gte") && c.value == Num(bound)
    ensures MatchesFilter(rt, Num(n), c) <==> n >= bound
  {
    ParseNumberOfNum(n);
    ParseNumberOfNum(bound);
    SelectsGte(rt, Num(n), c);
  }

  /** On numbers, `lte` is the numeric comparison `<=`. */
  lemma LteOnNumbers(rt: Runtime, n: int, bound: int, c: Criterion)
    requires Operator(c) == Str("lte") && c.value == Num(bound)
    ensures MatchesFilter(rt, Num(n), c) <==> n <= bound
  {
    ParseNumberOfNum(n);
    ParseNumberOfNum(bound);
    SelectsLte(rt, Num(n), c);
  }

  /** An invalid regular expression matches nothing instead of throwing. */
  lemma InvalidRegexMatchesNothing(rt: Runtime, value: JsValue, c: Criterion)
    requires Operator(c) == Str("regex") && rt.regexTest(RegexPattern(c.value), ToStr(value)) == None
    ensures !MatchesFilter(rt, value, c)
  {
  }

  /** The key a ranking compares: a number, or a string. */
  datatype Key = KNum(n: int) | KStr(s: string)

  /**
   * `a > b` on keys. Two numbers and two strings compare as JavaScript compares them. A
   * number is ordered below every string: the strings keys carry are non-empty, as `''` is
   * carried by `KNum(0)` (see `RawKey`).
   */
  predicate KeyGreater(a: Key, b: Key) {
    match (a, b)
    case (KNum(x), KNum(y)) => x > y
    case (KStr(x), KStr(y)) => LexLess(y, x)
    case (KStr(_), KNum(_)) => true
    case (KNum(_), KStr(_)) => false
  }

  lemma KeyGreaterIrreflexive(a: Key)
    ensures !KeyGreater(a, a)
  {
    if a.KStr? {
      LexLessIrreflexive(a.s);
    }
  }

  lemma KeyGreaterAsymmetric(a: Key, b: Key)
    ensures KeyGreater(a, b) ==> !KeyGreater(b, a)
  {
    if a.KStr? && b.KStr? {
      LexLessAsymmetric(a.s, b.s);
    }
  }

  lemma KeyGreaterTransitive(a: Key, b: Key, c: Key)
    requires KeyGreater(a, b) && KeyGreater(b, c)
    ensures KeyGreater(a, c)
  {
    if a.KStr? && b.KStr? && c.KStr? {
      LexLessTransitive(c.s, b.s, a.s);
    }
  }

  /** Two keys neither of which is greater are equal. */
  lemma KeyGreaterTotal(a: Key, b: Key)
    ensures a == b || KeyGreater(a, b) || KeyGreater(b, a)
  {
    if a.KStr? && b.KStr? {
      LexLessTotal(a.s, b.s);
    }
  }

  /** The fields `getFieldValue` reads as numbers, `parseFloat(value) || 0`. */
  const NumericFields: set<string> :=
    {"experience", "years_experience", "age", "desired_salary_usd", "remote_experience_years"}

  /** The length of `candidate.skills`: an array's length, the number of comma-separated pieces of a string, else 0. */
  function SkillsCount(skills: JsValue): nat {
    match skills
    case Arr(items) => |items|
    case Str(s) => |Split(s, ',')|
    case _ => 0
  }

  /** The key of a string: JavaScript's `>` reads `''` as 0 against a number, as `KNum(0)` is. */
  function TextKey(s: string): (k: Key)
    ensures s == "" ==> k == KNum(0)
    ensures s != "" ==> k == KStr(s)
  {
    if s != "" then KStr(s) else KNum(0)
  }

  /**
   * `value || ''`, as a key. JavaScript's `>` reads the `''` of a falsy value as 0 against a
   * number and as the least string against a string, and so does the key `KNum(0)`; `true`
   * compares as 1. An array is truthy, but `>` turns it into its comma-joined text, so an
   * empty array compares as `''` too.
   */
  function RawKey(v: JsValue): (k: Key)
    ensures !Truthy(v) ==> k == KNum(0)
    ensures v == Bool(true) ==> k == KNum(1)
    ensures v.Str? && v.s != "" ==> k == KStr(v.s)
    ensures v.Arr? ==> k == TextKey(ToStr(v))
    ensures k.KStr? ==> k.s != ""
  {
    match v
    case Str(s) => TextKey(s)
    case Num(n) => KNum(n)
    case Bool(b) => if b then KNum(1) else KNum(0)
    case Arr(items) => TextKey(Join(items, ','))
    case _ => KNum(0)
  }

  /**
   * `getFieldValue(candidate, field)`: numeric fields parse to a number (0 when missing or
   * unreadable), `skills_count` counts skills, a field whose name contains `date` is a
   * timestamp (0 when invalid), and any other field is its own value or `''`.
   */
  function GetFieldValue(rt: Runtime, c: Record, field: string): Key {
    var value := Get(c, field);
    if field in NumericFields then KNum(NumberOr(value, 0))
    else if field == "skills_count" then KNum(SkillsCount(Get(c, "skills")))
    else if Includes(field, "date") then KNum(rt.dateTime(value).GetOr(0))
    else RawKey(value)
  }

  /**
   * Numeric fields read as their parsed number, 0 when missing or unreadable; a date field
   * is a timestamp, 0 when invalid; any other field falls back to `''`, which compares as 0,
   * when falsy.
   */
  lemma FieldValueCases(rt: Runtime, c: Record, field: string)
    ensures field in NumericFields ==> GetFieldValue(rt, c, field) == KNum(ParseNumber(Get(c, field)).GetOr(0))
    ensures field !in NumericFields && field != "skills_count" && Includes(field, "date") ==>
      GetFieldValue(rt, c, field) == KNum(rt.dateTime(Get(c, field)).GetOr(0))
    ensures field !in NumericFields && field != "skills_count" && !Includes(field, "date") && !Truthy(Get(c, field)) ==>
      GetFieldValue(rt, c, field) == KNum(0)
  {
  }

  /** A field name without the letter `d` is not read as a date. */
  lemma NoDateWithoutD(field: string)
    requires 'd' !in field
    ensures !Includes(field, "date")
  {
    IncludesNeedsFirstChar(field, "date");
  }

  /** A field that is neither numeric, `skills_count` nor a date ranks by `value || ''`. */
  lemma PlainFieldKey(rt: Runtime, c: Record, field: string)
    requires field !in NumericFields && field != "skills_count" && 'd' !in field
    ensures GetFieldValue(rt, c, field) == RawKey(Get(c, field))
  {
    NoDateWithoutD(field);
  }

  /** `willing_to_relocate` is neither numeric, `skills_count` nor a date field. */
  lemma WillingToRelocateIsPlain()
    ensures "willing_to_relocate" !in NumericFields && "willing_to_relocate" != "skills_count"
    ensures 'd' !in "willing_to_relocate"
  {
  }

  /** `skills` is neither numeric, `skills_count` nor a date field. */
  lemma SkillsIsPlain()
    ensures "skills" !in NumericFields && "skills" != "skills_count"
    ensures 'd' !in "skills"
  {
  }

  /** A numeric field holding a number ranks by that number. */
  lemma NumericFieldOfNumber(rt: Runtime, c: Record, field: string, n: int)
    requires field in NumericFields && Get(c, field) == Num(n)
    ensures GetFieldValue(rt, c, field) == KNum(n)
  {
    ParseNumberOfNum(n);
  }

  /** A numeric field that is missing ranks as 0. */
  lemma MissingNumericFieldIsZero(rt: Runtime, c: Record, field: string)
    requires field in NumericFields && field !in c
    ensures GetFieldValue(rt, c, field) == KNum(0)
  {
    ParseNumberOfNonNumeric(Undefined);
  }

  /** `skills_count` counts the skills list; an empty skills string still splits into one piece, so it counts 1, not 0. */
  lemma SkillsCountKey(rt: Runtime, c: Record)
    ensures GetFieldValue(rt, c, "skills_count") == KNum(SkillsCount(Get(c, "skills")))
    ensures Get(c, "skills") == Str("") ==> GetFieldValue(rt, c, "skills_count") == KNum(1)
  {
    assert "skills_count" !in NumericFields;
  }
}
