# Parameter resolution of the CHIME projection API, in Dafny

This project models the parameter layer of `src/api.py`, the command-line and
HTTP front end of the CHIME epidemic projection. That layer turns untyped input
into the parameter record the external simulation engine consumes. Four parts
are modelled:

- **The field validator** (`validator`/`validate`). With a cast kind, optional
  inclusive bounds and a required flag fixed, it turns a raw string into a typed
  value, an explicit "absent" (`None`), or an exception. Module `Validator`.
- **The bound table** that `parse_args` builds one validator per flag from.
  Module `BoundTable`.
- **Record assembly in `POST /results`**. The presence of the key
  `date_first_hospitalized` picks one of two branches. Each branch does fourteen
  lookup-then-cast reads in Python's evaluation order and stops at the first one
  that raises. Module `HttpResolver`: each branch is a *read plan* (key and cast
  per read), run by `RunPlan` and assembled into the record by `Assemble`.
- **Publication of the results**. Three series are written under
  `{current_date}_{series}.csv` names, and the last census row is returned.
  Modules `Artifacts` (names, and how the date renders) and `Endpoint` (the
  handler, with the file storage as a class whose map it updates).

`FrontEnds` compares the two front ends. `Values` holds dates, typed values,
Python's `<=` between them, and the casts. `Wrappers` holds `Option`/`Result`.

The library casts (`int`, `float`, `datetime.strptime`) are not reimplemented.
They are a `Casts` record of partial functions, passed in as a parameter. `None`
stands for the `ValueError` they raise. `str` of a string is the string itself.
Python floats are modelled as reals. The clock's date (`current_date`) is a
parameter. The simulation engine is a function parameter
`Parameters -> Option<Projection>`, where `None` means it raised.

Where the intended design and the code differ, the model follows the code:

- A body with both anchoring keys is not rejected. The date branch is taken and
  `doubling_time` is never read (`DateBranchIgnoresDoublingTime`). A body with
  neither key takes the doubling-time branch and fails, at the latest at the
  missing `doubling_time` read (`MissingKeyFails`).
- Field errors are not collected. The first read that raises ends resolution
  (`RunPlan`, `MissingKeyFails`).
- The HTTP path checks no bounds. A hospitalization rate of 2.0 reaches the
  record (`BoundsOnlyOnCommandLine`).
- Neither a missing key nor an engine error is caught. Flask answers any
  exception with a server error, not a client error.
- The HTTP path casts `infectious_days` with `int`, but the command line uses
  `float`. Dates on the HTTP path are `%Y/%m/%d`, but `%Y-%m-%d` on the command
  line (`CastsAgreeExceptTwo`).

## Model

| member | source | states |
|---|---|---|
| `Values.Cast` | src/api.py:25-26 | a cast that succeeds gives a value of the requested kind, and that value is the library cast's own result; the int, float and date casts succeed exactly when the library cast does; `str` returns its input |
| `Values.AtMost` | src/api.py:40-42 | Python's `<=` on cast values is defined exactly for two numbers, two dates or two strings, and raises TypeError otherwise |
| `Values.AtMostNumeric` | src/api.py:40-42 | between ints and floats the comparison is the order of the reals |
| `Values.AtMostTotalOrder` | src/api.py:40-42 | the comparison is reflexive, transitive, and total on values it can compare |
| `Values.StrAtMostTotal` | src/api.py:40-42 | any two strings are ordered one way or the other |
| `Values.StrAtMostAntisymmetric` | src/api.py:40-42 | two strings each at most the other are equal |
| `Values.StrAtMostTransitive` | src/api.py:40-42 | string order is transitive |
| `Validator.Validate` | src/api.py:29-45 | a blank string with a non-`str` cast is rejected with the literal message `%s is required.` when the field is required, and is absent otherwise, with no cast or bound check; absent exactly for a blank optional field; a returned value is the unchanged cast of the input and lies within both bounds; a failed cast is rejected as malformed; a cast value passes exactly when it is within the bounds |
| `Validator.ValidateChecksMinFirst` | src/api.py:39-42 | a value below the minimum is reported as below the minimum whatever the maximum |
| `Validator.ValidateNumericBounds` | src/api.py:39-43 | for numeric rules a number is accepted iff min <= number <= max, on each bound that is present |
| `Validator.BlankRejectionOmitsFlag` | src/api.py:36 | any two blank required fields are rejected identically, with `%s is required.`, whatever their flags |
| `Validator.RequiredMessage` | src/api.py:36 | the corrected message is the flag followed by ` is required.` |
| `Validator.RequiredMessageIdentifiesFlag` | src/api.py:36 | different flags give different corrected messages |
| `BoundTable.CliTable` | src/api.py:53-110 | the fourteen rows in source order, each with the flag, cast, bounds, help text and required flag of the source |
| `BoundTable.Lookup` | src/api.py:111-115 | a rule found for a flag is a table row with that flag; no rule means no row has the flag |
| `BoundTable.LookupFinds` | src/api.py:111-115 | in a table without repeated flags, each flag finds its own row |
| `BoundTable.LookupCliTable` | src/api.py:53-110 | each flag of the table finds its own row |
| `BoundTable.OptionalFlags` | src/api.py:53-110 | lists exactly the flags of the rows with `required=False` |
| `BoundTable.AllRequiredNoOptional` | src/api.py:53-110 | a table of required rules has no optional flag |
| `BoundTable.FlagsDistinct` | src/api.py:53-110 | the table has fourteen rows and no flag repeats |
| `BoundTable.OnlyDateIsOptional` | src/api.py:62-69 | `--date-first-hospitalized` is the only optional flag, and it has no bounds |
| `BoundTable.RateBounds` | src/api.py:79-109 | market share and hospitalized rate are floats in [0.00001, 1.0]; ICU, ventilated and relative contact rates are floats in [0.0, 1.0] |
| `BoundTable.EveryRateInUnitInterval` | src/api.py:79-109 | every bounded rule has a numeric range that is non-empty and inside [0, 1] |
| `BoundTable.CountBounds` | src/api.py:53-110 | every int rule has no maximum and minimum 0, except population with minimum 1 |
| `BoundTable.PopulationRule` | src/api.py:107 | the population's rule is an int rule |
| `BoundTable.DurationBounds` | src/api.py:70-97 | doubling time and infectious days are floats with inclusive minimum 0.0 and no maximum |
| `BoundTable.EmptyFlagValue` | src/api.py:34-37 | for every table row an empty value is rejected with `%s is required.`, except the date of first hospitalization, which is absent |
| `BoundTable.EmptyPopulationAndDaysAlike` | src/api.py:36 | an empty `--population` and an empty `--n-days` are rejected identically |
| `BoundTable.CliRejectsRateAboveOne` | src/api.py:79-86 | the hospitalized-rate validator rejects 2.0 as above the maximum |
| `HttpResolver.DatePlan` | src/api.py:157-168 | the fourteen reads of the date branch, key and cast each, in keyword order |
| `HttpResolver.DoublingPlan` | src/api.py:172-183 | the fourteen reads of the doubling-time branch, key and cast each, in keyword order |
| `HttpResolver.Step` | src/api.py:157-183 | a read of a missing key raises KeyError; otherwise it succeeds exactly when the cast does and yields the cast of the raw string; a failed cast is a ValueError, labelled in the model with the key of the read that raised it |
| `HttpResolver.RunPlan` | src/api.py:156-169 | the reads run in order; the run succeeds exactly when every read does, and then holds each read's value; otherwise it raises the error of the first read that fails |
| `HttpResolver.Assemble` | src/api.py:156-169 | the record holds the values read, in plan order (round trip with `PlanValues`), the clock's date, and exactly the branch's anchoring field |
| `HttpResolver.ResolveBranch` | src/api.py:171-184 | a branch succeeds exactly when all its reads do; it then builds the record from the values read, and otherwise fails with the run's error |
| `HttpResolver.Resolve` | src/api.py:155-184 | succeeds exactly when every read of the branch picked by the presence of `date_first_hospitalized` succeeds; a resolved record has a date of first hospitalization exactly when that key is present; a failure is the error of the first failing read of that branch |
| `HttpResolver.AnchorByKeyPresence` | src/api.py:155-184 | with the date key present, a resolved record has the parsed date and no doubling time; without it, the parsed doubling time and no date; the key's value plays no part |
| `HttpResolver.RunPlanReadsOnlyItsKeys` | src/api.py:157-183 | a plan's outcome depends only on the body entries it reads |
| `HttpResolver.ResolveReadsOnlyPlanKeys` | src/api.py:155-184 | resolution depends only on date-key presence and the entries the chosen branch reads |
| `HttpResolver.DateBranchIgnoresDoublingTime` | src/api.py:155-169 | with the date key present, removing `doubling_time` or changing its value does not change the outcome |
| `HttpResolver.PlansDifferOnlyInAnchor` | src/api.py:157-168 | both branches make the same fourteen reads with the same casts in the same order, except the third read, the anchoring field |
| `HttpResolver.FirstFailureUnique` | src/api.py:156-169 | at most one read is the first to fail |
| `HttpResolver.BranchesAgreeOffAnchor` | src/api.py:171-184 | when both anchoring fields are readable, the two branches give the same error, or records equal apart from the anchor |
| `HttpResolver.ResolveSucceedsIff` | src/api.py:155-184 | resolution succeeds iff every key the chosen branch reads is present and every cast succeeds |
| `HttpResolver.RunPlanMissingKey` | src/api.py:157-183 | a missing key makes a plan fail at that read or an earlier one |
| `HttpResolver.MissingKeyFails` | src/api.py:155-184 | a missing key of the chosen branch makes resolution fail with the error of that read or an earlier one |
| `HttpResolver.ResolvePassesCastsThrough` | src/api.py:155-184 | every field of a resolved record is the unchanged cast of its raw string, with no bound check |
| `HttpResolver.HttpAcceptsRateAboveOne` | src/api.py:161 | a hospitalization rate of 2.0 is kept as 2.0 |
| `FrontEnds.Dest` | src/api.py:111-115 | the attribute argparse derives from a flag: leading dashes dropped, dashes turned into underscores |
| `FrontEnds.KeysFollowFlags` | src/api.py:157-183 | the HTTP path reads each table field under its flag's attribute name (`--icu-days` as `icu_days`, `--market_share` as `market_share`) |
| `FrontEnds.CastsAgreeExceptTwo` | src/api.py:157-183 | the HTTP path casts each table field as the command line does, except infectious days (float vs int) and the first-hospitalization date (`%Y-%m-%d` vs `%Y/%m/%d`); no table field is read as `mitigation_date` |
| `FrontEnds.BoundsOnlyOnCommandLine` | src/api.py:39-43 | the same raw "2.0" is rejected by the command-line validator and accepted by the HTTP path |
| `Artifacts.Pad` | src/api.py:192 | zero-padded rendering has the requested width and only digits |
| `Artifacts.PadRoundTrip` | src/api.py:192 | reading back a padded number below 10^width gives the number |
| `Artifacts.IsoFormat` | src/api.py:192 | a date renders as ten characters, digits with dashes at positions 4 and 7 |
| `Artifacts.IsoRoundTrip` | src/api.py:192 | parsing a rendered date gives the date back |
| `Artifacts.IsoFormatInjective` | src/api.py:192 | different dates render differently |
| `Artifacts.ArtifactNames` | src/api.py:187-192 | three names, in the order `sim_sir_w_date`, `projected_admits`, `projected_census`; each is the date, `_`, the series name and `.csv` |
| `Artifacts.ArtifactNamesDistinct` | src/api.py:187-192 | the three names of one projection are pairwise distinct |
| `Artifacts.ArtifactNamesDetermineDate` | src/api.py:187-192 | a name determines its date and series: projections for different dates never share a file |
| `Endpoint.Series` | src/api.py:187-191 | a projection has three series, in writing order: `sim_sir_w_date`, admits, census |
| `Endpoint.ArtifactStore.constructor` | src/api.py:192 | the storage starts with the given files |
| `Endpoint.ArtifactStore.Write` | src/api.py:192 | writing a file replaces that name's contents and changes nothing else |
| `Endpoint.WriteAll` | src/api.py:187-192 | the files after the loop writes each frame under its name in order |
| `Endpoint.WriteAllStores` | src/api.py:187-192 | writing frames under distinct names stores each under its name, adds exactly those names, and keeps every other file |
| `Endpoint.WriteAllSnoc` | src/api.py:187-192 | one more loop iteration adds one more write |
| `Endpoint.LastRow` | src/api.py:193 | `iloc[-1]` gives the final row, and raises on an empty table |
| `Endpoint.Results` | src/api.py:151-193 | a resolution error ends the request before the engine runs or any file is written; an engine error writes nothing; otherwise the three series are written in order under their names, and the answer is the last census row |
| `Endpoint.PublishedArtifacts` | src/api.py:187-192 | after a request reaches the engine, each series is stored under its own name and every other file is unchanged |

## Left out

- Flask routing, `request.get_json`, `jsonify`, `app.run` and the HTTP status codes: HTTP plumbing. An uncaught exception is a `Response` alternative.
- argparse wiring: registering the flags, the `--file` action `FromFile` (which re-parses a file's tokens into the namespace, unguarded against a file that loads itself), and argparse's treatment of exceptions from a validator. This is library behaviour and I/O. As a consequence, a flag that is not given is `None` without ever reaching its validator. Only an explicitly empty value is rejected as required.
- The semantics of `int()`, `float()` and `strptime`: abstract partial casts. NaN and infinity are not representable as reals, and `0.00001` is the exact decimal, not its binary float.
- `Parameters`, `Disposition`, `SimSirModel` and `get_defaults` from `penn_chime`: external, not part of this model. Any checks the `Parameters` constructor performs are outside it. The engine is a function parameter.
- The JSON body is a map from key to string. JSON numbers, nested values, and a body that is not an object are not modelled.
- Exception messages: not modelled. An error names only its kind and the key of the read that raised it. A KeyError does carry its key. The ValueError of `int`, `float` or `strptime` carries the raw value and, for dates, the format, but not the key. Two keys holding the same bad string raise the same ValueError message in Python, while the model's `MalformedField` labels differ.
- `print(data.date_first_hospitalized)`: console output.
- `to_csv` and `to_json`: file I/O and serialisation. A table is its sequence of rows, and a failed write is not modelled.
- Python's `-O` mode, which removes the `assert` bound checks: not modelled. The checks are always on.
- The commented-out `main`: dead code.
- Concurrent requests for the same date: the store is one object per request sequence, and no interleaving is modelled.

## Findings

| source | as written | input that shows it | evidently intended | confidence | as-written member | corrected member |
|---|---|---|---|---|---|---|
| src/api.py:36 | `raise AssertionError('%s is required.')` never fills in the placeholder, and `arg` is otherwise unused | `--population ""` and `--n-days ""` raise the same message `%s is required.` | the message names the flag, e.g. `--population is required.` | high (not executed) | `BoundTable.EmptyPopulationAndDaysAlike` | `Validator.RequiredMessageIdentifiesFlag` |

`Validator.Validate` raises the message as written, so the rest of the model follows the code. The corrected text is `Validator.RequiredMessage`: the flag followed by ` is required.`. `Validator.RequiredMessageIdentifiesFlag` proves that it names its flag.
