/** The values the parameter layer handles: calendar dates, the typed values
    a cast produces, Python's ordering between them, and the casts themselves
    (`int`, `float`, `datetime.strptime`, `str`), which stay abstract. */
module Values {
  import opened Wrappers

  /** A `datetime.date`. */
  datatype Date = Date(year: int, month: int, day: int)

  predicate IsLeapYear(year: int) {
    year % 4 == 0 && (year % 100 != 0 || year % 400 == 0)
  }

  function DaysInMonth(year: int, month: int): (n: int)
    requires 1 <= month <= 12
    ensures 28 <= n <= 31
    ensures month == 2 ==> (n == 29 <==> IsLeapYear(year))
  {
    if month == 2 then (if IsLeapYear(year) then 29 else 28)
    else if month == 4 || month == 6 || month == 9 || month == 11 then 30
    else 31
  }

  /** The dates `datetime.date` can represent (years 1 to 9999). */
  predicate ValidDate(d: Date) {
    && 1 <= d.year <= 9999
    && 1 <= d.month <= 12
    && 1 <= d.day <= DaysInMonth(d.year, d.month)
  }

  /** Chronological order, as Python compares two dates. */
  predicate DateAtMost(a: Date, b: Date) {
    || a.year < b.year
    || (a.year == b.year && a.month < b.month)
    || (a.year == b.year && a.month == b.month && a.day <= b.day)
  }

  /** Python's string order: code point by code point, a proper prefix first. */
  predicate StrAtMost(a: string, b: string)
    decreases |a|
  {
    if a == [] then true
    else if b == [] then false
    else if a[0] != b[0] then a[0] < b[0]
    else StrAtMost(a[1..], b[1..])
  }

  /** The two `strptime` formats of the source. */
  datatype DateFormat =
    | DashFormat   // "%Y-%m-%d", used by the command line's cast_date
    | SlashFormat  // "%Y/%m/%d", used by the HTTP endpoint

  /** Which callable a field is cast with. */
  datatype CastKind = IntCast | FloatCast | DateCast(format: DateFormat) | StrCast

  /** What a cast returns. Python floats are modelled as reals. */
  datatype Value = IntVal(i: int) | FloatVal(r: real) | DateVal(d: Date) | StrVal(s: string)

  predicate HasKind(v: Value, kind: CastKind) {
    match kind
    case IntCast => v.IntVal?
    case FloatCast => v.FloatVal?
    case DateCast(_) => v.DateVal?
    case StrCast => v.StrVal?
  }

  /** The library casts as partial functions: None stands for the ValueError
      that `int`, `float` or `strptime` raises on a string it cannot read. */
  datatype Casts = Casts(
    toInt: string -> Option<int>,
    toFloat: string -> Option<real>,
    toDate: (DateFormat, string) -> Option<Date>)

  /** Applies the cast of the given kind; `str` of a string is that string. */
  function Cast(casts: Casts, kind: CastKind, s: string): (r: Option<Value>)
    ensures r.Some? ==> HasKind(r.value, kind)
    ensures kind == StrCast ==> r == Some(StrVal(s))
    ensures kind == IntCast ==> (r.Some? <==> casts.toInt(s).Some?)
    ensures kind == FloatCast ==> (r.Some? <==> casts.toFloat(s).Some?)
    ensures kind.DateCast? ==> (r.Some? <==> casts.toDate(kind.format, s).Some?)
    // The value is the library cast's own result.
    ensures kind == IntCast && r.Some? ==> r.value.i == casts.toInt(s).value
    ensures kind == FloatCast && r.Some? ==> r.value.r == casts.toFloat(s).value
    ensures kind.DateCast? && r.Some? ==> r.value.d == casts.toDate(kind.format, s).value
  {
    match kind
    case IntCast =>
      (match casts.toInt(s) case None => None case Some(n) => Some(IntVal(n)))
    case FloatCast =>
      (match casts.toFloat(s) case None => None case Some(x) => Some(FloatVal(x)))
    case DateCast(format) =>
      (match casts.toDate(format, s) case None => None case Some(d) => Some(DateVal(d)))
    case StrCast => Some(StrVal(s))
  }

  /** Python's `a <= b`. None stands for the TypeError Python raises when the
      two values cannot be ordered (a date against a number, say). An int and
      a float compare as numbers. */
  function AtMost(a: Value, b: Value): (r: Option<bool>)
    ensures r.Some? <==> Comparable(a, b)
  {
    match (a, b)
    case (IntVal(x), IntVal(y)) => Some(x <= y)
    case (IntVal(x), FloatVal(y)) => Some(x as real <= y)
    case (FloatVal(x), IntVal(y)) => Some(x <= y as real)
    case (FloatVal(x), FloatVal(y)) => Some(x <= y)
    case (DateVal(x), DateVal(y)) => Some(DateAtMost(x, y))
    case (StrVal(x), StrVal(y)) => Some(StrAtMost(x, y))
    case _ => None
  }

  predicate IsNumber(v: Value) {
    v.IntVal? || v.FloatVal?
  }

  /** The real number an int or float value stands for. */
  function Numeric(v: Value): real
    requires IsNumber(v)
  {
    if v.IntVal? then v.i as real else v.r
  }

  /** Two values Python can order: two numbers, two dates or two strings. */
  predicate Comparable(a: Value, b: Value) {
    || (IsNumber(a) && IsNumber(b))
    || (a.DateVal? && b.DateVal?)
    || (a.StrVal? && b.StrVal?)
  }

  /** On numbers, AtMost is the order of the reals. */
  lemma AtMostNumeric(a: Value, b: Value)
    requires IsNumber(a) && IsNumber(b)
    ensures AtMost(a, b) == Some(Numeric(a) <= Numeric(b))
  {
  }

  lemma {:induction false} StrAtMostTotal(a: string, b: string)
    ensures StrAtMost(a, b) || StrAtMost(b, a)
    decreases |a|
  {
    if a != [] && b != [] && a[0] == b[0] {
      StrAtMostTotal(a[1..], b[1..]);
    }
  }

  lemma {:induction false} StrAtMostAntisymmetric(a: string, b: string)
    requires StrAtMost(a, b) && StrAtMost(b, a)
    ensures a == b
    decreases |a|
  {
    if a != [] && b != [] {
      StrAtMostAntisymmetric(a[1..], b[1..]);
      assert a == [a[0]] + a[1..] && b == [b[0]] + b[1..];
    }
  }

  lemma {:induction false} StrAtMostTransitive(a: string, b: string, c: string)
    requires StrAtMost(a, b) && StrAtMost(b, c)
    ensures StrAtMost(a, c)
    decreases |a|
  {
    if a != [] && b != [] && c != [] && a[0] == b[0] && b[0] == c[0] {
      StrAtMostTransitive(a[1..], b[1..], c[1..]);
    }
  }

  /** Whenever Python can order two values it orders them one way or the other,
      and the order it uses is a total order on each comparable class. */
  lemma {:induction false} AtMostTotalOrder(a: Value, b: Value, c: Value)
    ensures Comparable(a, b) ==> AtMost(a, b) == Some(true) || AtMost(b, a) == Some(true)
    ensures AtMost(a, a) == Some(true)
    ensures AtMost(a, b) == Some(true) && AtMost(b, c) == Some(true) ==> AtMost(a, c) == Some(true)
  {
    if a.StrVal? && b.StrVal? {
      StrAtMostTotal(a.s, b.s);
    }
    if a.StrVal? {
      StrAtMostTotal(a.s, a.s);
    }
    if a.StrVal? && b.StrVal? && c.StrVal? && StrAtMost(a.s, b.s) && StrAtMost(b.s, c.s) {
      StrAtMostTransitive(a.s, b.s, c.s);
    }
  }
}
