/** Record assembly on the HTTP path (`POST /results`). The JSON body is a
    flat mapping from key to raw string. The presence of the key
    `date_first_hospitalized` (not its value) picks one of two branches; each
    branch evaluates fourteen reads in the order Python evaluates the keyword
    arguments of `Parameters(...)`. Every read is a dictionary lookup (KeyError
    when the key is missing) followed by a cast (ValueError when it fails), and
    the first read that raises ends resolution. No bound is checked here. */
module HttpResolver {
  import opened Wrappers
  import opened Values

  /** The JSON body, each value as its raw string. */
  type Body = map<string, string>

  /** What building the record raises. */
  datatype HttpError =
    | MissingKey(key: string)      // KeyError from data[key]
    | MalformedField(key: string)  // ValueError from int, float or strptime

  datatype Disposition = Disposition(rate: real, days: int)

  /** The record handed to the simulation engine. `currentDate` is not read
      from the body: the engine's parameter object takes it from the clock. */
  datatype Parameters = Parameters(
    currentDate: Date,
    population: int,
    currentHospitalized: int,
    dateFirstHospitalized: Option<Date>,
    doublingTime: Option<real>,
    hospitalized: Disposition,
    icu: Disposition,
    infectiousDays: int,
    marketShare: real,
    nDays: int,
    mitigationDate: Date,
    relativeContactRate: real,
    ventilated: Disposition)

  const DateKey := "date_first_hospitalized"
  const DoublingKey := "doubling_time"

  /** One `cast(data[key])` of a branch. */
  datatype Read = Read(key: string, kind: CastKind)

  /** The reads of the branch for a body that holds `date_first_hospitalized`,
      in evaluation order. Dates are parsed with "%Y/%m/%d". */
  const DatePlan: seq<Read> := [
    Read("population", IntCast),
    Read("current_hospitalized", IntCast),
    Read(DateKey, DateCast(SlashFormat)),
    Read("hospitalized_rate", FloatCast),
    Read("hospitalized_days", IntCast),
    Read("icu_rate", FloatCast),
    Read("icu_days", IntCast),
    Read("infectious_days", IntCast),
    Read("market_share", FloatCast),
    Read("n_days", IntCast),
    Read("mitigation_date", DateCast(SlashFormat)),
    Read("relative_contact_rate", FloatCast),
    Read("ventilated_rate", FloatCast),
    Read("ventilated_days", IntCast)]

  /** The reads of the other branch, in evaluation order. */
  const DoublingPlan: seq<Read> := [
    Read("population", IntCast),
    Read("current_hospitalized", IntCast),
    Read(DoublingKey, FloatCast),
    Read("hospitalized_rate", FloatCast),
    Read("hospitalized_days", IntCast),
    Read("icu_rate", FloatCast),
    Read("icu_days", IntCast),
    Read("infectious_days", IntCast),
    Read("market_share", FloatCast),
    Read("n_days", IntCast),
    Read("mitigation_date", DateCast(SlashFormat)),
    Read("relative_contact_rate", FloatCast),
    Read("ventilated_rate", FloatCast),
    Read("ventilated_days", IntCast)]

  function PlanOf(dateAnchored: bool): seq<Read> {
    if dateAnchored then DatePlan else DoublingPlan
  }

  /** One lookup-then-cast. */
  function Step(body: Body, casts: Casts, r: Read): (v: Result<Value, HttpError>)
    ensures r.key !in body ==> v == Failure(MissingKey(r.key))
    ensures r.key in body ==> (v.Success? <==> Cast(casts, r.kind, body[r.key]).Some?)
    ensures r.key in body && v.Failure? ==> v.error == MalformedField(r.key)
    ensures v.Success? ==> HasKind(v.value, r.kind) && Cast(casts, r.kind, body[r.key]) == Some(v.value)
  {
    if r.key !in body then Failure(MissingKey(r.key))
    else
      match Cast(casts, r.kind, body[r.key])
      case None => Failure(MalformedField(r.key))
      case Some(v) => Success(v)
  }

  /** Every read of a plan succeeds. */
  predicate AllReadsSucceed(plan: seq<Read>, body: Body, casts: Casts) {
    forall i :: 0 <= i < |plan| ==> Step(body, casts, plan[i]).Success?
  }

  /** Read k of the plan is the first that raises. */
  predicate FirstFailure(plan: seq<Read>, body: Body, casts: Casts, k: int) {
    && 0 <= k < |plan|
    && Step(body, casts, plan[k]).Failure?
    && forall j :: 0 <= j < k ==> Step(body, casts, plan[j]).Success?
  }

  /** Values of the kinds a plan asks for. */
  predicate Typed(values: seq<Value>, plan: seq<Read>) {
    |values| == |plan| && forall i :: 0 <= i < |plan| ==> HasKind(values[i], plan[i].kind)
  }

  /** Performs the reads in order and stops at the first that raises. */
  function RunPlan(plan: seq<Read>, body: Body, casts: Casts): (r: Result<seq<Value>, HttpError>)
    ensures r.Success? <==> AllReadsSucceed(plan, body, casts)
    ensures r.Success? ==> |r.value| == |plan|
    ensures r.Success? ==> forall i :: 0 <= i < |plan| ==> Step(body, casts, plan[i]) == Success(r.value[i])
    ensures r.Failure? ==>
      exists k :: FirstFailure(plan, body, casts, k) && Step(body, casts, plan[k]) == Failure(r.error)
  {
    if plan == [] then Success([])
    else
      var v :- Step(body, casts, plan[0]);
      var rest :- RunPlan(plan[1..], body, casts);
      assert forall i :: 1 <= i < |plan| ==> plan[i] == plan[1..][i - 1];
      Success([v] + rest)
  }

  /** The constructor call of a branch: `Parameters(...)` over the values read,
      with the anchoring field of the branch set and the other left out. */
  function Assemble(values: seq<Value>, dateAnchored: bool, today: Date): (p: Parameters)
    requires Typed(values, PlanOf(dateAnchored))
    ensures PlanValues(p) == values
    ensures p.currentDate == today
    ensures p.dateFirstHospitalized.Some? <==> dateAnchored
    ensures p.doublingTime.Some? <==> !dateAnchored
  {
    var plan := PlanOf(dateAnchored);
    assert |values| == 14;
    assert HasKind(values[0], plan[0].kind) && HasKind(values[1], plan[1].kind);
    assert HasKind(values[2], plan[2].kind) && HasKind(values[3], plan[3].kind);
    assert HasKind(values[4], plan[4].kind) && HasKind(values[5], plan[5].kind);
    assert HasKind(values[6], plan[6].kind) && HasKind(values[7], plan[7].kind);
    assert HasKind(values[8], plan[8].kind) && HasKind(values[9], plan[9].kind);
    assert HasKind(values[10], plan[10].kind) && HasKind(values[11], plan[11].kind);
    assert HasKind(values[12], plan[12].kind) && HasKind(values[13], plan[13].kind);
    assert values[0].IntVal? && values[1].IntVal? && values[3].FloatVal? && values[4].IntVal?;
    assert values[5].FloatVal? && values[6].IntVal? && values[7].IntVal? && values[8].FloatVal?;
    assert values[9].IntVal? && values[10].DateVal? && values[11].FloatVal?;
    assert values[12].FloatVal? && values[13].IntVal?;
    assert dateAnchored ==> values[2].DateVal?;
    assert !dateAnchored ==> values[2].FloatVal?;
    var p := Parameters(
      today,
      values[0].i,
      values[1].i,
      if dateAnchored then Some(values[2].d) else None,
      if dateAnchored then None else Some(values[2].r),
      Disposition(values[3].r, values[4].i),
      Disposition(values[5].r, values[6].i),
      values[7].i,
      values[8].r,
      values[9].i,
      values[10].d,
      values[11].r,
      Disposition(values[12].r, values[13].i));
    var back := PlanValues(p);
    assert |back| == 14;
    assert back[0] == values[0] && back[1] == values[1] && back[2] == values[2];
    assert back[3] == values[3] && back[4] == values[4] && back[5] == values[5];
    assert back[6] == values[6] && back[7] == values[7] && back[8] == values[8];
    assert back[9] == values[9] && back[10] == values[10] && back[11] == values[11];
    assert back[12] == values[12] && back[13] == values[13];
    p
  }

  /** The values of a record in plan order: the inverse of Assemble. */
  function PlanValues(p: Parameters): seq<Value> {
    [IntVal(p.population), IntVal(p.currentHospitalized),
     if p.dateFirstHospitalized.Some? then DateVal(p.dateFirstHospitalized.value)
     else FloatVal(if p.doublingTime.Some? then p.doublingTime.value else 0.0),
     FloatVal(p.hospitalized.rate), IntVal(p.hospitalized.days),
     FloatVal(p.icu.rate), IntVal(p.icu.days),
     IntVal(p.infectiousDays), FloatVal(p.marketShare),
     IntVal(p.nDays), DateVal(p.mitigationDate),
     FloatVal(p.relativeContactRate),
     FloatVal(p.ventilated.rate), IntVal(p.ventilated.days)]
  }

  /** One branch of `results`: run its reads, then build the record. */
  function ResolveBranch(body: Body, casts: Casts, today: Date, dateAnchored: bool): (r: Result<Parameters, HttpError>)
    ensures r.Success? <==> AllReadsSucceed(PlanOf(dateAnchored), body, casts)
    ensures r.Success? ==> r.value == Assemble(RunPlan(PlanOf(dateAnchored), body, casts).value, dateAnchored, today)
    ensures r.Failure? ==> r.error == RunPlan(PlanOf(dateAnchored), body, casts).error
  {
    var plan := PlanOf(dateAnchored);
    var values :- RunPlan(plan, body, casts);
    assert Typed(values, plan);
    Success(Assemble(values, dateAnchored, today))
  }

  /** The plan the body's key set selects. */
  function PlanFor(body: Body): seq<Read> {
    PlanOf(DateKey in body)
  }

  /** The record `results` builds: key presence, not the key's value, picks the branch. */
  function Resolve(body: Body, casts: Casts, today: Date): (r: Result<Parameters, HttpError>)
    // It succeeds exactly when every read of the branch the key set picks succeeds,
    ensures r.Success? <==> AllReadsSucceed(PlanFor(body), body, casts)
    // and the record then carries a date of first hospitalization exactly when the key is present;
    ensures r.Success? ==> (r.value.dateFirstHospitalized.Some? <==> DateKey in body)
    // otherwise it raises the error of the first read of that branch that fails.
    ensures r.Failure? ==> exists k ::
      FirstFailure(PlanFor(body), body, casts, k) && Step(body, casts, PlanFor(body)[k]) == Failure(r.error)
  {
    ResolveBranch(body, casts, today, DateKey in body)
  }

  // ---------------------------------------------------------------------
  // Properties of resolution.

  /** Key presence decides the anchor: with `date_first_hospitalized` in the
      body, a resolved record holds that date (parsed from the body) and no
      doubling time; without it, the doubling time (parsed from the body) and
      no date. The key's value plays no part in the choice. */
  lemma AnchorByKeyPresence(body: Body, casts: Casts, today: Date)
    ensures var r := Resolve(body, casts, today);
      r.Success? ==>
        && r.value.currentDate == today
        && (DateKey in body ==>
              && r.value.doublingTime.None? && r.value.dateFirstHospitalized.Some?
              && Cast(casts, DateCast(SlashFormat), body[DateKey]) == Some(DateVal(r.value.dateFirstHospitalized.value)))
        && (DateKey !in body ==>
              && r.value.dateFirstHospitalized.None? && r.value.doublingTime.Some?
              && DoublingKey in body
              && Cast(casts, FloatCast, body[DoublingKey]) == Some(FloatVal(r.value.doublingTime.value)))
  {
    var plan := PlanFor(body);
    var run := RunPlan(plan, body, casts);
    if run.Success? {
      assert Step(body, casts, plan[2]) == Success(run.value[2]);
      assert PlanValues(Resolve(body, casts, today).value)[2] == run.value[2];
    }
  }

  /** Two bodies that agree on every key a plan reads. */
  predicate AgreeOn(plan: seq<Read>, b1: Body, b2: Body) {
    forall i :: 0 <= i < |plan| ==>
      (plan[i].key in b1 <==> plan[i].key in b2) &&
      (plan[i].key in b1 ==> b1[plan[i].key] == b2[plan[i].key])
  }

  /** Running a plan depends only on the keys it reads. */
  lemma {:induction false} RunPlanReadsOnlyItsKeys(plan: seq<Read>, b1: Body, b2: Body, casts: Casts)
    requires AgreeOn(plan, b1, b2)
    ensures RunPlan(plan, b1, casts) == RunPlan(plan, b2, casts)
  {
    if plan != [] {
      assert Step(b1, casts, plan[0]) == Step(b2, casts, plan[0]);
      assert AgreeOn(plan[1..], b1, b2) by {
        forall i | 0 <= i < |plan[1..]|
          ensures plan[1..][i] == plan[i + 1]
        {
        }
      }
      RunPlanReadsOnlyItsKeys(plan[1..], b1, b2, casts);
    }
  }

  /** Resolution depends only on whether the date key is present and on the
      values of the keys the chosen branch reads. */
  lemma ResolveReadsOnlyPlanKeys(b1: Body, b2: Body, casts: Casts, today: Date)
    requires DateKey in b1 <==> DateKey in b2
    requires AgreeOn(PlanFor(b1), b1, b2)
    ensures Resolve(b1, casts, today) == Resolve(b2, casts, today)
  {
    RunPlanReadsOnlyItsKeys(PlanFor(b1), b1, b2, casts);
  }

  /** When the body holds `date_first_hospitalized`, `doubling_time` is never
      read: removing it or giving it any other value changes nothing. */
  lemma DateBranchIgnoresDoublingTime(body: Body, casts: Casts, today: Date, other: string)
    requires DateKey in body
    ensures Resolve(body - {DoublingKey}, casts, today) == Resolve(body, casts, today)
    ensures Resolve(body[DoublingKey := other], casts, today) == Resolve(body, casts, today)
  {
    assert forall i :: 0 <= i < |DatePlan| ==> DatePlan[i].key != DoublingKey;
    ResolveReadsOnlyPlanKeys(body, body - {DoublingKey}, casts, today);
    ResolveReadsOnlyPlanKeys(body, body[DoublingKey := other], casts, today);
  }

  /** The two branches read the same keys with the same casts in the same
      order, except the third read, the anchoring field. */
  lemma PlansDifferOnlyInAnchor()
    ensures |DatePlan| == |DoublingPlan| == 14
    ensures forall i :: 0 <= i < 14 && i != 2 ==> DatePlan[i] == DoublingPlan[i]
    ensures DatePlan[2] == Read(DateKey, DateCast(SlashFormat))
    ensures DoublingPlan[2] == Read(DoublingKey, FloatCast)
    ensures forall i :: 0 <= i < 14 ==> DatePlan[i].key != DoublingKey && DoublingPlan[i].key != DateKey
  {
  }

  /** A plan has at most one first failing read. */
  lemma FirstFailureUnique(plan: seq<Read>, body: Body, casts: Casts, j: int, k: int)
    requires FirstFailure(plan, body, casts, j) && FirstFailure(plan, body, casts, k)
    ensures j == k
  {
  }

  /** A record with its anchoring fields cleared. */
  function WithoutAnchor(r: Result<Parameters, HttpError>): Result<Parameters, HttpError> {
    match r
    case Success(p) => Success(p.(dateFirstHospitalized := None, doublingTime := None))
    case Failure(e) => Failure(e)
  }

  /** When both anchoring fields can be read, the two branches give the same
      outcome apart from the anchor: the same error, or records that differ
      only in which anchoring field is set. */
  lemma BranchesAgreeOffAnchor(body: Body, casts: Casts, today: Date)
    requires Step(body, casts, DatePlan[2]).Success?
    requires Step(body, casts, DoublingPlan[2]).Success?
    ensures WithoutAnchor(ResolveBranch(body, casts, today, true)) ==
            WithoutAnchor(ResolveBranch(body, casts, today, false))
  {
    PlansDifferOnlyInAnchor();
    var r1, r2 := RunPlan(DatePlan, body, casts), RunPlan(DoublingPlan, body, casts);
    assert forall i :: 0 <= i < 14 ==> Step(body, casts, DatePlan[i]).Success? == Step(body, casts, DoublingPlan[i]).Success?;
    if r1.Success? {
      var p1 := ResolveBranch(body, casts, today, true).value;
      var p2 := ResolveBranch(body, casts, today, false).value;
      assert forall i :: 0 <= i < 14 && i != 2 ==> PlanValues(p1)[i] == PlanValues(p2)[i];
    } else {
      var k1 :| FirstFailure(DatePlan, body, casts, k1) && Step(body, casts, DatePlan[k1]) == Failure(r1.error);
      var k2 :| FirstFailure(DoublingPlan, body, casts, k2) && Step(body, casts, DoublingPlan[k2]) == Failure(r2.error);
      assert FirstFailure(DatePlan, body, casts, k2);
      FirstFailureUnique(DatePlan, body, casts, k1, k2);
    }
  }

  /** Resolution succeeds exactly when every key the chosen branch reads is
      present and every one of its casts succeeds. */
  lemma ResolveSucceedsIff(body: Body, casts: Casts, today: Date)
    ensures Resolve(body, casts, today).Success? <==>
      forall i :: 0 <= i < |PlanFor(body)| ==>
        PlanFor(body)[i].key in body &&
        Cast(casts, PlanFor(body)[i].kind, body[PlanFor(body)[i].key]).Some?
  {
    var plan := PlanFor(body);
    if !Resolve(body, casts, today).Success? {
      var k :| FirstFailure(plan, body, casts, k);
      assert !(plan[k].key in body && Cast(casts, plan[k].kind, body[plan[k].key]).Some?);
    }
  }

  /** A missing key makes a plan fail at that read or at an earlier one. */
  lemma RunPlanMissingKey(plan: seq<Read>, body: Body, casts: Casts, i: int) returns (k: int)
    requires 0 <= i < |plan| && plan[i].key !in body
    ensures RunPlan(plan, body, casts).Failure?
    ensures 0 <= k <= i && Step(body, casts, plan[k]) == Failure(RunPlan(plan, body, casts).error)
  {
    var r := RunPlan(plan, body, casts);
    assert r.Failure?;
    k :| FirstFailure(plan, body, casts, k) && Step(body, casts, plan[k]) == Failure(r.error);
  }

  /** A key the chosen branch reads that is missing from the body makes
      resolution fail, with the error of that read or of an earlier one. */
  lemma MissingKeyFails(body: Body, casts: Casts, today: Date, i: int)
    requires 0 <= i < |PlanFor(body)| && PlanFor(body)[i].key !in body
    ensures Resolve(body, casts, today).Failure?
    ensures exists k :: 0 <= k <= i && Step(body, casts, PlanFor(body)[k]) == Failure(Resolve(body, casts, today).error)
  {
    var k := RunPlanMissingKey(PlanFor(body), body, casts, i);
  }

  /** No bound is checked on this path: every field of a resolved record is
      the cast of its raw string, whatever its value. */
  lemma ResolvePassesCastsThrough(body: Body, casts: Casts, today: Date)
    ensures var r := Resolve(body, casts, today);
      r.Success? ==> forall i :: 0 <= i < |PlanFor(body)| ==>
        PlanFor(body)[i].key in body &&
        Cast(casts, PlanFor(body)[i].kind, body[PlanFor(body)[i].key]) == Some(PlanValues(r.value)[i])
  {
  }

  /** So a hospitalization rate of 2.0 is accepted as it is. */
  lemma HttpAcceptsRateAboveOne(body: Body, casts: Casts, today: Date)
    requires Resolve(body, casts, today).Success?
    requires "hospitalized_rate" in body && casts.toFloat(body["hospitalized_rate"]) == Some(2.0)
    ensures Resolve(body, casts, today).value.hospitalized.rate == 2.0
  {
    ResolvePassesCastsThrough(body, casts, today);
    assert PlanFor(body)[3] == Read("hospitalized_rate", FloatCast);
  }
}
