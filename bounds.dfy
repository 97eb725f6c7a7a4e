/** The command line's bound table: for every flag `parse_args` registers,
    the cast, the inclusive bounds, the help text and whether the field is
    required. It is the schema each flag's validator is built from. */
module BoundTable {
  import opened Wrappers
  import opened Values
  import opened Validator

  const DateFlag := "--date-first-hospitalized"

  /** The table in the order the source lists it. */
  const CliTable: seq<Rule> := [
    Rule("--current-hospitalized", IntCast, Some(IntVal(0)), None,
         "Currently hospitalized COVID-19 patients (>= 0)", true),
    Rule(DateFlag, DateCast(DashFormat), None, None, "Current date", false),
    Rule("--doubling-time", FloatCast, Some(FloatVal(0.0)), None,
         "Doubling time before social distancing (days)", true),
    Rule("--hospitalized-days", IntCast, Some(IntVal(0)), None,
         "Average hospital length of stay (in days)", true),
    Rule("--hospitalized-rate", FloatCast, Some(FloatVal(0.00001)), Some(FloatVal(1.0)),
         "Hospitalized Rate: 0.00001 - 1.0", true),
    Rule("--icu-days", IntCast, Some(IntVal(0)), None, "Average days in ICU", true),
    Rule("--icu-rate", FloatCast, Some(FloatVal(0.0)), Some(FloatVal(1.0)),
         "ICU rate: 0.0 - 1.0", true),
    Rule("--market_share", FloatCast, Some(FloatVal(0.00001)), Some(FloatVal(1.0)),
         "Hospital market share (0.00001 - 1.0)", true),
    Rule("--infectious-days", FloatCast, Some(FloatVal(0.0)), None, "Infectious days", true),
    Rule("--n-days", IntCast, Some(IntVal(0)), None, "Number of days to project >= 0", true),
    Rule("--relative-contact-rate", FloatCast, Some(FloatVal(0.0)), Some(FloatVal(1.0)),
         "Social distancing reduction rate: 0.0 - 1.0", true),
    Rule("--population", IntCast, Some(IntVal(1)), None, "Regional population >= 1", true),
    Rule("--ventilated-days", IntCast, Some(IntVal(0)), None, "Average days on ventilator", true),
    Rule("--ventilated-rate", FloatCast, Some(FloatVal(0.0)), Some(FloatVal(1.0)),
         "Ventilated Rate: 0.0 - 1.0", true)
  ]

  /** The rule registered for a flag, the first one in table order. */
  function Lookup(table: seq<Rule>, flag: string): (r: Option<Rule>)
    ensures r.Some? ==> r.value in table && r.value.flag == flag
    ensures r.None? ==> forall i :: 0 <= i < |table| ==> table[i].flag != flag
  {
    if table == [] then None
    else if table[0].flag == flag then Some(table[0])
    else Lookup(table[1..], flag)
  }

  /** The flags of the optional rules, in table order. */
  function OptionalFlags(table: seq<Rule>): (flags: seq<string>)
    ensures forall f :: f in flags <==> exists i :: 0 <= i < |table| && !table[i].required && table[i].flag == f
  {
    if table == [] then []
    else (if table[0].required then [] else [table[0].flag]) + OptionalFlags(table[1..])
  }

  /** No flag is registered twice. */
  lemma FlagsDistinct()
    ensures |CliTable| == 14
    ensures forall i, j :: 0 <= i < j < |CliTable| ==> CliTable[i].flag != CliTable[j].flag
  {
  }

  /** A table of required rules has no optional flag. */
  lemma {:induction false} AllRequiredNoOptional(table: seq<Rule>)
    requires forall i :: 0 <= i < |table| ==> table[i].required
    ensures OptionalFlags(table) == []
  {
    if table != [] {
      AllRequiredNoOptional(table[1..]);
    }
  }

  /** The date of first hospitalization is the one optional field, and it has no bounds. */
  lemma OnlyDateIsOptional()
    ensures OptionalFlags(CliTable) == [DateFlag]
    ensures forall i :: 0 <= i < |CliTable| ==> (!CliTable[i].required <==> CliTable[i].flag == DateFlag)
    ensures Lookup(CliTable, DateFlag) == Some(CliTable[1])
    ensures CliTable[1].minValue.None? && CliTable[1].maxValue.None?
  {
    var t := CliTable;
    AllRequiredNoOptional(t[2..]);
    assert t[1..][1..] == t[2..];
  }

  /** In a table without repeated flags, looking up a row's flag finds that row. */
  lemma {:induction false} LookupFinds(table: seq<Rule>, i: nat)
    requires i < |table|
    requires forall j, k :: 0 <= j < k < |table| ==> table[j].flag != table[k].flag
    ensures Lookup(table, table[i].flag) == Some(table[i])
  {
    if i > 0 {
      assert table[0].flag != table[i].flag;
      assert table[1..][i - 1] == table[i];
      LookupFinds(table[1..], i - 1);
    }
  }

  /** Every flag of the table finds its own row. */
  lemma LookupCliTable(i: nat)
    requires i < |CliTable|
    ensures Lookup(CliTable, CliTable[i].flag) == Some(CliTable[i])
  {
    FlagsDistinct();
    LookupFinds(CliTable, i);
  }

  /** Market share and the hospitalization rate lie in [0.00001, 1.0]; the ICU,
      ventilation and relative contact rates in [0.0, 1.0]; all are floats. */
  lemma RateBounds()
    ensures forall f :: f in {"--market_share", "--hospitalized-rate"} ==>
      && Lookup(CliTable, f).Some? && Lookup(CliTable, f).value.cast == FloatCast
      && Lookup(CliTable, f).value.minValue == Some(FloatVal(0.00001))
      && Lookup(CliTable, f).value.maxValue == Some(FloatVal(1.0))
    ensures forall f :: f in {"--icu-rate", "--ventilated-rate", "--relative-contact-rate"} ==>
      && Lookup(CliTable, f).Some? && Lookup(CliTable, f).value.cast == FloatCast
      && Lookup(CliTable, f).value.minValue == Some(FloatVal(0.0))
      && Lookup(CliTable, f).value.maxValue == Some(FloatVal(1.0))
  {
    LookupCliTable(4);
    LookupCliTable(6);
    LookupCliTable(7);
    LookupCliTable(10);
    LookupCliTable(13);
  }

  /** Every rate, that is every rule with an upper bound, has the bounds within [0, 1]
      and a non-empty range. */
  lemma EveryRateInUnitInterval()
    ensures forall i :: 0 <= i < |CliTable| && CliTable[i].maxValue.Some? ==>
      && CliTable[i].minValue.Some?
      && IsNumber(CliTable[i].minValue.value) && IsNumber(CliTable[i].maxValue.value)
      && 0.0 <= Numeric(CliTable[i].minValue.value) <= Numeric(CliTable[i].maxValue.value) <= 1.0
  {
  }

  /** The integer fields are counts: the population has minimum 1, every other
      one minimum 0, and none has a maximum. */
  lemma CountBounds()
    ensures forall i :: 0 <= i < |CliTable| && CliTable[i].cast == IntCast ==>
      && CliTable[i].minValue == Some(IntVal(if i == 11 then 1 else 0))
      && CliTable[i].maxValue.None?
  {
  }

  /** The population's rule is the table's twelfth row, an integer rule. */
  lemma PopulationRule()
    ensures Lookup(CliTable, "--population") == Some(CliTable[11]) && CliTable[11].cast == IntCast
  {
    LookupCliTable(11);
  }

  /** The doubling time and the infectious days are floats with inclusive minimum 0.0. */
  lemma DurationBounds()
    ensures forall f :: f in {"--doubling-time", "--infectious-days"} ==>
      && Lookup(CliTable, f).Some? && Lookup(CliTable, f).value.cast == FloatCast
      && Lookup(CliTable, f).value.minValue == Some(FloatVal(0.0))
      && Lookup(CliTable, f).value.maxValue.None?
  {
    LookupCliTable(2);
    LookupCliTable(8);
  }

  /** No rule casts with `str`, so an empty flag value never reaches a cast:
      it is rejected as required, except for the date of first hospitalization,
      which becomes absent. */
  lemma EmptyFlagValue(casts: Casts)
    ensures forall i :: 0 <= i < |CliTable| ==>
      Validate(CliTable[i], casts, "") ==
        if CliTable[i].flag == DateFlag then Success(None)
        else Failure(Required(RequiredMessageAsWritten))
  {
  }

  /** The message as written cannot tell two flags apart: an empty
      `--population` and an empty `--n-days` are rejected alike. */
  lemma EmptyPopulationAndDaysAlike(casts: Casts)
    ensures CliTable[11].flag == "--population" && CliTable[9].flag == "--n-days"
    ensures Validate(CliTable[11], casts, "") == Validate(CliTable[9], casts, "")
  {
    EmptyFlagValue(casts);
  }

  /** On the command line a hospitalization rate of 2.0 is rejected as above its maximum. */
  lemma CliRejectsRateAboveOne(casts: Casts)
    requires casts.toFloat("2.0") == Some(2.0)
    ensures CliTable[4].flag == "--hospitalized-rate"
    ensures Validate(CliTable[4], casts, "2.0") == Failure(AboveMax)
  {
  }
}
