/** The class-validator decorators the DTOs use, as predicates over the value a
    property holds once Nest's ValidationPipe (transform, whitelist,
    forbidNonWhitelisted) has turned the request into a DTO instance. */
module ClassValidator {

  /** A JavaScript number. */
  datatype Num = Finite(value: real) | NaN | PosInfinity | NegInfinity

  /** A property value as the validators see it. Arrays and nested objects are
      all `Object`. */
  datatype JsValue = Undefined | Null | Str(s: string) | Number(n: Num) | Bool(b: bool) | Object

  /** @IsOptional(): the remaining constraints of the property are skipped. */
  predicate Absent(v: JsValue) {
    v == Undefined || v == Null
  }

  /** Number.isInteger. */
  predicate IsIntegerNumber(n: Num) {
    n.Finite? && n.value.Floor as real == n.value
  }

  /** `n >= m` on JavaScript numbers: false for NaN. */
  predicate AtLeast(n: Num, m: real) {
    match n
    case Finite(x) => x >= m
    case PosInfinity => true
    case NegInfinity => false
    case NaN => false
  }

  /** `n <= m` on JavaScript numbers: false for NaN. */
  predicate AtMost(n: Num, m: real) {
    match n
    case Finite(x) => x <= m
    case PosInfinity => false
    case NegInfinity => true
    case NaN => false
  }

  /** @IsNotEmpty(): not '', null or undefined. */
  predicate IsNotEmpty(v: JsValue) {
    v != Str("") && v != Null && v != Undefined
  }

  /** @IsInt(). */
  predicate IsInt(v: JsValue) {
    v.Number? && IsIntegerNumber(v.n)
  }

  /** @IsNumber() with its default options, which refuse NaN and the infinities. */
  predicate IsNumber(v: JsValue) {
    v.Number? && v.n.Finite?
  }

  /** @Min(m): a number no smaller than m. */
  predicate Min(v: JsValue, m: real) {
    v.Number? && AtLeast(v.n, m)
  }

  /** @Max(m): a number no larger than m. */
  predicate Max(v: JsValue, m: real) {
    v.Number? && AtMost(v.n, m)
  }

  /** @IsString(). */
  predicate IsString(v: JsValue) {
    v.Str?
  }

  /** @Length(lo, hi): a string whose length lies in [lo, hi]. */
  predicate Length(v: JsValue, lo: nat, hi: nat) {
    v.Str? && lo <= |v.s| <= hi
  }

  /** @MinLength(lo). */
  predicate MinLength(v: JsValue, lo: nat) {
    v.Str? && |v.s| >= lo
  }

  /** @IsEnum(E) for a string enum: one of the enum's values. */
  predicate IsEnum(v: JsValue, values: set<string>) {
    v.Str? && v.s in values
  }

  predicate IsDigit(c: char) {
    '0' <= c <= '9'
  }

  /** Two decimal digits at position i of s that spell a number in [lo, hi]. */
  predicate TwoDigitsIn(s: string, i: nat, lo: nat, hi: nat)
    requires i + 2 <= |s|
  {
    IsDigit(s[i]) && IsDigit(s[i + 1])
    && lo <= (s[i] as int - '0' as int) * 10 + (s[i + 1] as int - '0' as int) <= hi
  }

  /** The calendar-date form of ISO 8601, YYYY-MM-DD, optionally followed by a
      time of day THH:MM:SS and an optional Z. */
  predicate IsIso8601(s: string) {
    && (|s| == 10 || |s| == 19 || |s| == 20)
    && IsDigit(s[0]) && IsDigit(s[1]) && IsDigit(s[2]) && IsDigit(s[3])
    && s[4] == '-' && TwoDigitsIn(s, 5, 1, 12) && s[7] == '-' && TwoDigitsIn(s, 8, 1, 31)
    && (|s| > 10 ==>
          && s[10] == 'T' && TwoDigitsIn(s, 11, 0, 23) && s[13] == ':'
          && TwoDigitsIn(s, 14, 0, 59) && s[16] == ':' && TwoDigitsIn(s, 17, 0, 59)
          && (|s| == 20 ==> s[19] == 'Z'))
  }

  /** @IsDateString(). */
  predicate IsDateString(v: JsValue) {
    v.Str? && IsIso8601(v.s)
  }

  /** `a === b`: NaN equals nothing, and two objects parsed from a request body
      are never the same object. */
  predicate StrictEquals(a: JsValue, b: JsValue) {
    match a
    case Number(NaN) => false
    case Object => false
    case _ => a == b
  }

  /** A date string is never empty, so @IsDateString implies @IsNotEmpty. */
  lemma DateStringNotEmpty(v: JsValue)
    ensures IsDateString(v) ==> IsNotEmpty(v) && |v.s| >= 10
  {
  }
}
