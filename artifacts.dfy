/** Naming of the three CSV artifacts a projection writes:
    `f"{current_date}_{name}.csv"` for the series names `sim_sir_w_date`,
    `projected_admits` and `projected_census`, in that order. Formatting a
    date in an f-string renders it as `str(date)`, the ISO form YYYY-MM-DD. */
module Artifacts {
  import opened Values

  const SeriesNames: seq<string> := ["sim_sir_w_date", "projected_admits", "projected_census"]

  predicate IsDigit(c: char) {
    '0' <= c <= '9'
  }

  function Pow10(width: nat): (p: nat)
    ensures p >= 1
  {
    if width == 0 then 1 else 10 * Pow10(width - 1)
  }

  /** The last `width` decimal digits of n, zero-padded on the left (`%0<width>d`
      for a number below 10^width). */
  function Pad(n: nat, width: nat): (s: string)
    ensures |s| == width
    ensures forall i :: 0 <= i < |s| ==> IsDigit(s[i])
  {
    if width == 0 then ""
    else Pad(n / 10, width - 1) + [('0' as int + n % 10) as char]
  }

  /** The number a string of decimal digits denotes. */
  function DecimalValue(s: string): nat
    requires forall i :: 0 <= i < |s| ==> IsDigit(s[i])
  {
    if s == [] then 0
    else
      assert IsDigit(s[|s| - 1]);
      10 * DecimalValue(s[..|s| - 1]) + (s[|s| - 1] as int - '0' as int)
  }

  /** Reading back a padded number gives the number, when it fits the width. */
  lemma {:induction false} PadRoundTrip(n: nat, width: nat)
    requires n < Pow10(width)
    ensures DecimalValue(Pad(n, width)) == n
  {
    if width > 0 {
      PadRoundTrip(n / 10, width - 1);
      var s := Pad(n, width);
      assert s[..|s| - 1] == Pad(n / 10, width - 1);
    }
  }

  /** `str(date)`: YYYY-MM-DD with zero padding. */
  function IsoFormat(d: Date): (s: string)
    requires ValidDate(d)
    ensures |s| == 10 && s[4] == '-' && s[7] == '-'
    ensures forall i :: 0 <= i < 10 && i != 4 && i != 7 ==> IsDigit(s[i])
  {
    Pad(d.year, 4) + "-" + Pad(d.month, 2) + "-" + Pad(d.day, 2)
  }

  /** Reads an ISO date string back. */
  function ParseIso(s: string): Date
    requires |s| == 10
    requires forall i :: 0 <= i < 10 && i != 4 && i != 7 ==> IsDigit(s[i])
  {
    Date(DecimalValue(s[0..4]), DecimalValue(s[5..7]), DecimalValue(s[8..10]))
  }

  lemma IsoRoundTrip(d: Date)
    requires ValidDate(d)
    ensures ParseIso(IsoFormat(d)) == d
  {
    var s := IsoFormat(d);
    assert s[0..4] == Pad(d.year, 4);
    assert s[5..7] == Pad(d.month, 2);
    assert s[8..10] == Pad(d.day, 2);
    PadRoundTrip(d.year, 4);
    PadRoundTrip(d.month, 2);
    PadRoundTrip(d.day, 2);
  }

  /** Different dates render differently. */
  lemma IsoFormatInjective(a: Date, b: Date)
    requires ValidDate(a) && ValidDate(b) && IsoFormat(a) == IsoFormat(b)
    ensures a == b
  {
    IsoRoundTrip(a);
    IsoRoundTrip(b);
  }

  /** The file names of one projection, one per series, in writing order:
      each is the date, an underscore, the series name and ".csv". */
  function ArtifactNames(currentDate: string): (names: seq<string>)
    ensures |names| == |SeriesNames| == 3
    ensures forall i :: 0 <= i < 3 ==>
      && |names[i]| == |currentDate| + 1 + |SeriesNames[i]| + 4
      && names[i][..|currentDate|] == currentDate
      && names[i][|currentDate|] == '_'
      && names[i][|currentDate| + 1 .. |names[i]| - 4] == SeriesNames[i]
      && names[i][|names[i]| - 4..] == ".csv"
  {
    seq(3, i requires 0 <= i < 3 => currentDate + "_" + SeriesNames[i] + ".csv")
  }

  /** The three names of one projection are pairwise distinct, so no series
      overwrites another. */
  lemma ArtifactNamesDistinct(currentDate: string, i: int, j: int)
    requires 0 <= i < 3 && 0 <= j < 3 && i != j
    ensures ArtifactNames(currentDate)[i] != ArtifactNames(currentDate)[j]
  {
    var names := ArtifactNames(currentDate);
    var n := |currentDate| + 1;
    if |names[i]| == |names[j]| {
      // only "projected_admits" and "projected_census" have equal lengths
      assert names[i][n + 10] != names[j][n + 10];
    }
  }

  /** Artifacts of projections for different dates never share a name: a name
      determines both the date and the series. Two requests of the same date
      write to the same three names. */
  lemma ArtifactNamesDetermineDate(a: Date, b: Date, i: int, j: int)
    requires ValidDate(a) && ValidDate(b)
    requires 0 <= i < 3 && 0 <= j < 3
    requires ArtifactNames(IsoFormat(a))[i] == ArtifactNames(IsoFormat(b))[j]
    ensures a == b && i == j
  {
    var na, nb := ArtifactNames(IsoFormat(a)), ArtifactNames(IsoFormat(b));
    assert IsoFormat(a) == na[i][..10] == nb[j][..10] == IsoFormat(b);
    IsoFormatInjective(a, b);
    if i != j {
      ArtifactNamesDistinct(IsoFormat(a), i, j);
    }
  }
}
