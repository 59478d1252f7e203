/** The reusable field validators: a small schema language with the checks
    they use (string length bounds, integer and lower-bound checks on
    numbers, literals, unions, nullable) and what each validator accepts. */
module ZodValidation {
  import opened Wrappers

  /** A JavaScript value as a validator receives it. Numbers are exact reals;
      NaN and the two infinities are separate. */
  datatype JsValue =
    | JsUndefined
    | JsNull
    | JsBool(b: bool)
    | JsNumber(n: real)
    | JsNaN
    | JsInfinity(negative: bool)
    | JsString(s: string)

  datatype StringCheck = MinLength(min: int) | MaxLength(max: int)

  datatype NumberCheck = IsInt | AtLeast(lo: real) | Above(lo: real)

  /** A schema: a string or number with checks, a boolean, a literal, a
      union of two schemas, or a schema that also accepts null. */
  datatype Schema =
    | StringSchema(stringChecks: seq<StringCheck>)
    | NumberSchema(numberChecks: seq<NumberCheck>)
    | BooleanSchema
    | LiteralSchema(literal: JsValue)
    | UnionSchema(left: Schema, right: Schema)
    | NullableSchema(inner: Schema)

  predicate IsInteger(x: real)
  {
    x.Floor as real == x
  }

  predicate StringCheckHolds(c: StringCheck, s: string)
  {
    match c
    case MinLength(n) => |s| >= n
    case MaxLength(n) => |s| <= n
  }

  /** A number check on a number: an infinity is no integer but lies above
      (+) or below (-) every bound. */
  predicate NumberCheckHolds(c: NumberCheck, v: JsValue)
    requires v.JsNumber? || v.JsInfinity?
  {
    match c
    case IsInt => v.JsNumber? && IsInteger(v.n)
    case AtLeast(lo) => if v.JsNumber? then v.n >= lo else !v.negative
    case Above(lo) => if v.JsNumber? then v.n > lo else !v.negative
  }

  /** Every check of a chain holds, in the order they were chained. */
  predicate StringChecksHold(checks: seq<StringCheck>, s: string)
    decreases |checks|
  {
    checks == [] || (StringCheckHolds(checks[0], s) && StringChecksHold(checks[1..], s))
  }

  predicate NumberChecksHold(checks: seq<NumberCheck>, v: JsValue)
    requires v.JsNumber? || v.JsInfinity?
    decreases |checks|
  {
    checks == [] || (NumberCheckHolds(checks[0], v) && NumberChecksHold(checks[1..], v))
  }

  /** Whether a schema accepts a value. A number schema refuses NaN. */
  predicate Accepts(schema: Schema, v: JsValue)
  {
    match schema
    case StringSchema(checks) => v.JsString? && StringChecksHold(checks, v.s)
    case NumberSchema(checks) => (v.JsNumber? || v.JsInfinity?) && NumberChecksHold(checks, v)
    case BooleanSchema => v.JsBool?
    case LiteralSchema(l) => v == l
    case UnionSchema(a, b) => Accepts(a, v) || Accepts(b, v)
    case NullableSchema(inner) => v == JsNull || Accepts(inner, v)
  }

  const zString: Schema := StringSchema([MinLength(1)])

  /** A nullable string; the length limit applies only when one is given and
      it is truthy, so a limit of 0 means no limit. */
  function ZNullableString(maxLength: Option<int>): Schema
  {
    var base := if maxLength.Some? && maxLength.value != 0 then StringSchema([MaxLength(maxLength.value)]) else StringSchema([]);
    NullableSchema(base)
  }

  const zName: Schema := StringSchema([MinLength(1), MaxLength(200)])
  const zDescription: Schema := StringSchema([MaxLength(500)])
  const zNullableDescription: Schema := NullableSchema(StringSchema([MaxLength(500)]))
  const zBit: Schema := UnionSchema(LiteralSchema(JsNumber(0.0)), LiteralSchema(JsNumber(1.0)))
  const zBoolean: Schema := BooleanSchema
  const zFK: Schema := NumberSchema([IsInt, Above(0.0)])
  const zNullableFK: Schema := NullableSchema(NumberSchema([IsInt, Above(0.0)]))
  const zPhone: Schema := StringSchema([MaxLength(20)])
  const zNumeric: Schema := NumberSchema([])
  const zPositiveNumeric: Schema := NumberSchema([Above(0.0)])
  const zNullableNumeric: Schema := NullableSchema(NumberSchema([]))
  const zPrice: Schema := NumberSchema([AtLeast(0.0)])
  const zQuantity: Schema := NumberSchema([IsInt, AtLeast(0.0)])

  /** zString accepts exactly the non-empty strings. */
  lemma ZStringAccepts(v: JsValue)
    ensures Accepts(zString, v) <==> v.JsString? && |v.s| >= 1
  {
  }

  /** ZNullableString accepts null and strings, within the limit when the
      limit is truthy, and with no limit when it is missing or 0. */
  lemma ZNullableStringAccepts(maxLength: Option<int>, v: JsValue)
    ensures Accepts(ZNullableString(maxLength), v) <==>
      v == JsNull || (v.JsString? && (maxLength.Some? && maxLength.value != 0 ==> |v.s| <= maxLength.value))
    ensures Accepts(ZNullableString(Some(0)), v) <==> Accepts(ZNullableString(None), v)
  {
    if maxLength.Some? && maxLength.value != 0 && v.JsString? {
      var checks := [MaxLength(maxLength.value)];
      assert checks[1..] == [];
      assert StringChecksHold(checks, v.s) <==> |v.s| <= maxLength.value;
    }
  }

  /** zName accepts strings of 1 to 200 characters; zDescription strings of
      at most 500, zNullableDescription the same or null, which is what
      ZNullableString gives for a limit of 500. */
  lemma TextValidatorsAccept(v: JsValue)
    ensures Accepts(zName, v) <==> v.JsString? && 1 <= |v.s| <= 200
    ensures Accepts(zDescription, v) <==> v.JsString? && |v.s| <= 500
    ensures Accepts(zNullableDescription, v) <==> v == JsNull || Accepts(zDescription, v)
    ensures Accepts(zNullableDescription, v) <==> Accepts(ZNullableString(Some(500)), v)
    ensures Accepts(zPhone, v) <==> v.JsString? && |v.s| <= 20
  {
  }

  /** zBit accepts the numbers 0 and 1 and nothing else (not true or false). */
  lemma ZBitAccepts(v: JsValue)
    ensures Accepts(zBit, v) <==> v == JsNumber(0.0) || v == JsNumber(1.0)
  {
  }

  /** zFK accepts exactly the positive whole numbers, zNullableFK those and null. */
  lemma ForeignKeysAccept(v: JsValue)
    ensures Accepts(zFK, v) <==> v.JsNumber? && IsInteger(v.n) && v.n > 0.0
    ensures Accepts(zNullableFK, v) <==> v == JsNull || Accepts(zFK, v)
  {
  }

  /** zPrice accepts numbers from 0 up, zQuantity whole numbers from 0 up,
      zPositiveNumeric numbers above 0; the first and last also accept
      positive infinity, which no integer check lets through. */
  lemma NumericValidatorsAccept(v: JsValue)
    ensures Accepts(zPrice, v) <==> (v.JsNumber? && v.n >= 0.0) || v == JsInfinity(false)
    ensures Accepts(zQuantity, v) <==> v.JsNumber? && IsInteger(v.n) && v.n >= 0.0
    ensures Accepts(zPositiveNumeric, v) <==> (v.JsNumber? && v.n > 0.0) || v == JsInfinity(false)
    ensures Accepts(zNumeric, v) <==> v.JsNumber? || v.JsInfinity?
    ensures Accepts(zNullableNumeric, v) <==> v == JsNull || Accepts(zNumeric, v)
    ensures Accepts(zBoolean, v) <==> v.JsBool?
  {
  }

  /** No number validator accepts NaN, and none of them accepts null unless
      it is a nullable one. */
  lemma NaNAndNullRejected()
    ensures !Accepts(zFK, JsNaN) && !Accepts(zNumeric, JsNaN) && !Accepts(zPrice, JsNaN)
    ensures !Accepts(zQuantity, JsNaN) && !Accepts(zPositiveNumeric, JsNaN) && !Accepts(zBit, JsNaN)
    ensures !Accepts(zString, JsNull) && !Accepts(zFK, JsNull) && !Accepts(zPrice, JsNull)
    ensures Accepts(zNullableFK, JsNull) && Accepts(zNullableDescription, JsNull)
  {
  }

  /** How the validators nest: every name is a string, every key a quantity,
      every quantity a price, every key a positive number, every bit a quantity. */
  lemma ValidatorInclusions(v: JsValue)
    ensures Accepts(zName, v) ==> Accepts(zString, v) && Accepts(ZNullableString(Some(200)), v)
    ensures Accepts(zFK, v) ==> Accepts(zQuantity, v) && Accepts(zPositiveNumeric, v)
    ensures Accepts(zQuantity, v) ==> Accepts(zPrice, v)
    ensures Accepts(zBit, v) ==> Accepts(zQuantity, v)
  {
    ForeignKeysAccept(v);
    NumericValidatorsAccept(v);
    ZBitAccepts(v);
    assert IsInteger(0.0) && IsInteger(1.0);
    TextValidatorsAccept(v);
    ZNullableStringAccepts(Some(200), v);
  }
}
