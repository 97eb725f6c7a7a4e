/** The curried field validator of the command line: `validator(arg, cast,
    min_value, max_value, required)` returns a `validate(string)` closure that
    turns a raw flag value into a typed value, `None`, or an exception. Here the
    closure's captured arguments are a `Rule` and the call is `Validate`. */
module Validator {
  import opened Wrappers
  import opened Values

  /** One row of the bound table: the captured arguments of `validator`
      (and the help text the table supplies beside them). */
  datatype Rule = Rule(
    flag: string,
    cast: CastKind,
    minValue: Option<Value>,
    maxValue: Option<Value>,
    help: string,
    required: bool)

  /** What `validate` raises. */
  datatype Rejection =
    | Required(message: string)  // AssertionError for an empty required field
    | Malformed                  // ValueError raised by the cast
    | BelowMin                   // the failed `assert value >= min_value`
    | AboveMax                   // the failed `assert value <= max_value`
    | Incomparable               // TypeError: the bound and the value cannot be ordered

  /** The message of the required-field error as the source writes it: the
      placeholder is never filled in, so it is the same for every flag. */
  const RequiredMessageAsWritten := "%s is required."

  /** The evidently intended message: the flag with the placeholder filled in. */
  function RequiredMessage(flag: string): (m: string)
    ensures |m| == |flag| + |" is required."|
    ensures m[..|flag|] == flag
    ensures m[|flag|..] == " is required."
  {
    flag + " is required."
  }

  /** The corrected message names its flag: different flags, different messages. */
  lemma RequiredMessageIdentifiesFlag(a: string, b: string)
    requires RequiredMessage(a) == RequiredMessage(b)
    ensures a == b
  {
    var ma, mb := RequiredMessage(a), RequiredMessage(b);
    assert |a| == |b|;
    assert a == ma[..|a|] == mb[..|b|] == b;
  }

  /** The bounds a value must meet for `validate` to return it; a missing
      bound is no constraint, an incomparable one is never met. */
  predicate WithinBounds(rule: Rule, v: Value) {
    && (rule.minValue.None? || AtMost(rule.minValue.value, v) == Some(true))
    && (rule.maxValue.None? || AtMost(v, rule.maxValue.value) == Some(true))
  }

  /** True when `validate` skips the cast: an empty string for any cast other than `str`. */
  predicate IsBlank(rule: Rule, s: string) {
    s == "" && rule.cast != StrCast
  }

  /** `validate(string)` for the closure built from `rule`.
      Success(None) is the explicit "absent" of an optional field;
      Success(Some(v)) is the cast value, unchanged. */
  function Validate(rule: Rule, casts: Casts, s: string): (r: Result<Option<Value>, Rejection>)
    // A blank string: required fields are rejected, optional ones are absent;
    // no cast and no bound check happen.
    ensures IsBlank(rule, s) ==>
      r == (if rule.required then Failure(Required(RequiredMessageAsWritten)) else Success(None))
    // The result is absent exactly for a blank optional field.
    ensures r == Success(None) <==> IsBlank(rule, s) && !rule.required
    // What comes back is exactly the cast of the input, and it keeps the bounds.
    ensures r.Success? && r.value.Some? ==>
      !IsBlank(rule, s) && Cast(casts, rule.cast, s) == r.value && WithinBounds(rule, r.value.value)
    // A cast that fails is a rejection as malformed.
    ensures !IsBlank(rule, s) && Cast(casts, rule.cast, s).None? ==> r == Failure(Malformed)
    // A cast value outside a bound is rejected.
    ensures !IsBlank(rule, s) && Cast(casts, rule.cast, s).Some? ==>
      (r.Success? <==> WithinBounds(rule, Cast(casts, rule.cast, s).value))
  {
    if IsBlank(rule, s) then
      if rule.required then Failure(Required(RequiredMessageAsWritten)) else Success(None)
    else
      match Cast(casts, rule.cast, s)
      case None => Failure(Malformed)
      case Some(value) =>
        if rule.minValue.Some? && AtMost(rule.minValue.value, value) != Some(true) then
          Failure(if AtMost(rule.minValue.value, value).None? then Incomparable else BelowMin)
        else if rule.maxValue.Some? && AtMost(value, rule.maxValue.value) != Some(true) then
          Failure(if AtMost(value, rule.maxValue.value).None? then Incomparable else AboveMax)
        else
          Success(Some(value))
  }

  /** As written, the rejection of a blank required field does not depend on
      the field: any two such rejections are the same `%s is required.`, so the
      message cannot tell the user which flag is missing. */
  lemma BlankRejectionOmitsFlag(a: Rule, b: Rule, casts: Casts, s: string, t: string)
    requires a.required && IsBlank(a, s)
    requires b.required && IsBlank(b, t)
    ensures Validate(a, casts, s) == Validate(b, casts, t)
    ensures Validate(a, casts, s) == Failure(Required("%s is required."))
  {
  }

  /** The minimum is checked before the maximum: a value below the minimum is
      reported as such whatever the maximum says. */
  lemma ValidateChecksMinFirst(rule: Rule, casts: Casts, s: string)
    requires !IsBlank(rule, s) && Cast(casts, rule.cast, s).Some?
    requires rule.minValue.Some?
    requires AtMost(rule.minValue.value, Cast(casts, rule.cast, s).value) == Some(false)
    ensures Validate(rule, casts, s) == Failure(BelowMin)
  {
  }

  /** For numeric bounds and values the check is the order of the reals:
      a number is accepted iff min <= number <= max. */
  lemma ValidateNumericBounds(rule: Rule, casts: Casts, s: string)
    requires !IsBlank(rule, s)
    requires rule.cast == IntCast || rule.cast == FloatCast
    requires rule.minValue.None? || IsNumber(rule.minValue.value)
    requires rule.maxValue.None? || IsNumber(rule.maxValue.value)
    requires Cast(casts, rule.cast, s).Some?
    ensures var x := Numeric(Cast(casts, rule.cast, s).value);
      Validate(rule, casts, s).Success? <==>
        && (rule.minValue.None? || Numeric(rule.minValue.value) <= x)
        && (rule.maxValue.None? || x <= Numeric(rule.maxValue.value))
  {
    var v := Cast(casts, rule.cast, s).value;
    if rule.minValue.Some? { AtMostNumeric(rule.minValue.value, v); }
    if rule.maxValue.Some? { AtMostNumeric(v, rule.maxValue.value); }
  }
}
