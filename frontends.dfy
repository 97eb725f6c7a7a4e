/** How the two front ends relate. Each flag of the command-line table has a
    key on the HTTP path that carries the same field (the flag without its
    leading dashes, with underscores for dashes); the HTTP path also reads
    `mitigation_date`, which has no flag. The two do not cast every field alike. */
module FrontEnds {
  import opened Wrappers
  import opened Values
  import opened Validator
  import opened BoundTable
  import opened HttpResolver

  /** For each command-line row, the index of the HTTP read of the same field
      (row 1, the date, is read at index 2 of the date plan). */
  const HttpIndex: seq<int> := [1, 2, 2, 4, 3, 6, 5, 8, 7, 9, 11, 0, 13, 12]

  /** The read of the field of command-line row i on the HTTP path. */
  function HttpReadOf(i: int): Read
    requires 0 <= i < 14
  {
    if i == 1 then DatePlan[2] else DoublingPlan[HttpIndex[i]]
  }

  /** A name with every dash turned into an underscore. */
  function Underscored(name: string): (u: string)
    ensures |u| == |name|
    ensures forall i :: 0 <= i < |u| ==> u[i] == (if name[i] == '-' then '_' else name[i])
  {
    seq(|name|, i requires 0 <= i < |name| => if name[i] == '-' then '_' else name[i])
  }

  /** The attribute name argparse derives from a flag: the leading dashes
      stripped, every other dash turned into an underscore. */
  function Dest(flag: string): (d: string)
    decreases |flag|
  {
    if |flag| > 0 && flag[0] == '-' then Dest(flag[1..]) else Underscored(flag)
  }

  /** A long flag `--name` becomes `name` with underscores for its dashes. */
  lemma DestOfLongFlag(name: string)
    requires |name| > 0 && name[0] != '-'
    ensures Dest("--" + name) == Underscored(name)
  {
    assert ("--" + name)[1..] == "-" + name;
    assert ("-" + name)[1..] == name;
    assert Dest("--" + name) == Dest("-" + name) == Dest(name);
  }

  /** The flag `--name` is the attribute `key`. */
  lemma FlagMeansKey(flag: string, name: string, key: string)
    requires |name| > 0 && name[0] != '-' && flag == "--" + name
    requires Underscored(name) == key
    ensures Dest(flag) == key
  {
    DestOfLongFlag(name);
  }

  // One lemma per row keeps each proof obligation small.

  lemma Row0()
    ensures HttpReadOf(0).key == Dest(CliTable[0].flag)
  {
    FlagMeansKey(CliTable[0].flag, "current-hospitalized", "current_hospitalized");
  }

  /** The date flag is the JSON key `date_first_hospitalized`. */
  lemma DateFlagKey()
    ensures Dest(DateFlag) == DateKey
  {
    FlagMeansKey(DateFlag, "date-first-hospitalized", DateKey);
  }

  lemma Row1()
    ensures HttpReadOf(1).key == Dest(CliTable[1].flag)
  {
    assert HttpReadOf(1).key == DateKey;
    assert CliTable[1].flag == DateFlag;
    DateFlagKey();
  }

  lemma Row2()
    ensures HttpReadOf(2).key == Dest(CliTable[2].flag)
  {
    FlagMeansKey(CliTable[2].flag, "doubling-time", "doubling_time");
  }

  lemma Row3()
    ensures HttpReadOf(3).key == Dest(CliTable[3].flag)
  {
    FlagMeansKey(CliTable[3].flag, "hospitalized-days", "hospitalized_days");
  }

  lemma Row4()
    ensures HttpReadOf(4).key == Dest(CliTable[4].flag)
  {
    FlagMeansKey(CliTable[4].flag, "hospitalized-rate", "hospitalized_rate");
  }

  lemma Row5()
    ensures HttpReadOf(5).key == Dest(CliTable[5].flag)
  {
    FlagMeansKey(CliTable[5].flag, "icu-days", "icu_days");
  }

  lemma Row6()
    ensures HttpReadOf(6).key == Dest(CliTable[6].flag)
  {
    FlagMeansKey(CliTable[6].flag, "icu-rate", "icu_rate");
  }

  lemma Row7()
    ensures HttpReadOf(7).key == Dest(CliTable[7].flag)
  {
    FlagMeansKey(CliTable[7].flag, "market_share", "market_share");
  }

  lemma Row8()
    ensures HttpReadOf(8).key == Dest(CliTable[8].flag)
  {
    FlagMeansKey(CliTable[8].flag, "infectious-days", "infectious_days");
  }

  lemma Row9()
    ensures HttpReadOf(9).key == Dest(CliTable[9].flag)
  {
    FlagMeansKey(CliTable[9].flag, "n-days", "n_days");
  }

  lemma Row10()
    ensures HttpReadOf(10).key == Dest(CliTable[10].flag)
  {
    FlagMeansKey(CliTable[10].flag, "relative-contact-rate", "relative_contact_rate");
  }

  lemma Row11()
    ensures HttpReadOf(11).key == Dest(CliTable[11].flag)
  {
    FlagMeansKey(CliTable[11].flag, "population", "population");
  }

  lemma Row12()
    ensures HttpReadOf(12).key == Dest(CliTable[12].flag)
  {
    FlagMeansKey(CliTable[12].flag, "ventilated-days", "ventilated_days");
  }

  lemma Row13()
    ensures HttpReadOf(13).key == Dest(CliTable[13].flag)
  {
    FlagMeansKey(CliTable[13].flag, "ventilated-rate", "ventilated_rate");
  }

  /** Each command-line row's field is read on the HTTP path under the
      attribute name argparse gives the row's flag, so `HttpIndex` pairs
      every flag with its own key. */
  lemma KeysFollowFlags()
    ensures forall i :: 0 <= i < 14 ==> HttpReadOf(i).key == Dest(CliTable[i].flag)
  {
    Row0(); Row1(); Row2(); Row3(); Row4(); Row5(); Row6();
    Row7(); Row8(); Row9(); Row10(); Row11(); Row12(); Row13();
    forall i | 0 <= i < 14
      ensures HttpReadOf(i).key == Dest(CliTable[i].flag)
    {
      assert i in {0, 1, 2, 3, 4, 5, 6, 7, 8, 9, 10, 11, 12, 13};
    }
  }

  /** The HTTP path casts each field as the command line does, except two:
      the infectious days (a float on the command line, an integer on the HTTP
      path) and the date of first hospitalization (YYYY-MM-DD on the command
      line, YYYY/MM/DD on the HTTP path). */
  lemma CastsAgreeExceptTwo()
    ensures forall i :: 0 <= i < 14 ==> HttpReadOf(i).key != "mitigation_date"
    ensures forall i :: 0 <= i < 14 && i != 1 && i != 8 ==> HttpReadOf(i).kind == CliTable[i].cast
    ensures CliTable[8].flag == "--infectious-days" && CliTable[8].cast == FloatCast
    ensures HttpReadOf(8) == Read("infectious_days", IntCast)
    ensures CliTable[1].flag == DateFlag && CliTable[1].cast == DateCast(DashFormat)
    ensures HttpReadOf(1) == Read(DateKey, DateCast(SlashFormat))
  {
  }

  /** Bounds are checked on the command line only: the raw string "2.0" for
      the hospitalization rate is rejected by the flag's validator, while the
      HTTP path puts 2.0 into the record it hands to the engine. */
  lemma BoundsOnlyOnCommandLine(body: Body, casts: Casts, today: Date)
    requires casts.toFloat("2.0") == Some(2.0)
    requires "hospitalized_rate" in body && body["hospitalized_rate"] == "2.0"
    requires Resolve(body, casts, today).Success?
    ensures Validate(CliTable[4], casts, "2.0") == Failure(AboveMax)
    ensures Resolve(body, casts, today).value.hospitalized.rate == 2.0
  {
    CliRejectsRateAboveOne(casts);
    HttpAcceptsRateAboveOne(body, casts, today);
  }
}
