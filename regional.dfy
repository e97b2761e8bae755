/**
 * `transform_regional_performance`: the `parse_quarter` helper that turns a
 * `YYYY-Qn` label into the first day of the quarter, or NaT.
 */
module Regional {
  import opened Wrappers
  import opened PyText

  const QuarterSeparator: string := "-Q"

  /** A calendar date, as the `pd.Timestamp` it stands for. */
  datatype Date = Date(year: int, month: int, day: int)

  /** `pd.Timestamp(year=y, month=m, day=1)` does not raise: a month of the year, a year `datetime` accepts. */
  predicate ValidFirstOfMonth(year: int, month: int)
  {
    1 <= year <= 9999 && 1 <= month <= 12
  }

  /**
   * `parse_quarter`: split on "-Q" into exactly two parts, read each with `int`,
   * take month `(quarter - 1) * 3 + 1`; any exception (a missing label, a wrong
   * number of parts, a non-integer part, an invalid month) gives NaT.
   */
  function ParseQuarter(text: Option<string>): (date: Option<Date>)
    ensures date.Some? ==> text.Some? && |Split(text.value, QuarterSeparator)| == 2
    ensures date.Some? ==> date.value.day == 1 && date.value.month in {1, 4, 7, 10}
    ensures date.Some? ==> 1 <= date.value.year <= 9999
    ensures date.Some? ==> var parts := Split(text.value, QuarterSeparator);
      && PyInt(parts[0]) == Some(date.value.year)
      && PyInt(parts[1]).Some? && 1 <= PyInt(parts[1]).value <= 4
      && date.value.month == 3 * PyInt(parts[1]).value - 2
    ensures text.Some? ==> var parts := Split(text.value, QuarterSeparator);
      (&& |parts| == 2 && PyInt(parts[0]).Some? && PyInt(parts[1]).Some?
       && 1 <= PyInt(parts[0]).value <= 9999 && 1 <= PyInt(parts[1]).value <= 4)
      ==> date == Some(Date(PyInt(parts[0]).value, 3 * PyInt(parts[1]).value - 2, 1))
  {
    match text
    case None => None
    case Some(s) =>
      var parts := Split(s, QuarterSeparator);
      if |parts| != 2 then None
      else
        match (PyInt(parts[0]), PyInt(parts[1]))
        case (Some(year), Some(quarter)) => FirstDayOfQuarter(year, quarter)
        case _ => None
  }

  /** `pd.Timestamp(year=year, month=(quarter - 1) * 3 + 1, day=1)`, or NaT where it raises. */
  function FirstDayOfQuarter(year: int, quarter: int): (date: Option<Date>)
    ensures date.Some? <==> 1 <= year <= 9999 && 1 <= quarter <= 4
    ensures date.Some? ==> date.value == Date(year, 3 * quarter - 2, 1)
  {
    var month := (quarter - 1) * 3 + 1;
    if ValidFirstOfMonth(year, month) then Some(Date(year, month, 1)) else None
  }

  /** The digits of a non-negative number hold no '-'. */
  lemma NatTextLacksDash(n: nat)
    ensures Lacks(IntToString(n), '-')
  {
  }

  /** `str(i)` never holds "-Q": its only '-' is a leading sign, followed by a digit. */
  lemma IntTextHoldsNoSeparator(i: int)
    ensures IndexOf(IntToString(i), QuarterSeparator) == None
  {
    var s := IntToString(i);
    forall j | 0 <= j <= |s| ensures !OccursAt(s, QuarterSeparator, j) {
      if j + 2 <= |s| {
        if i < 0 {
          assert s == "-" + NatToString(-i);
          assert IsDigit(s[j + 1]);
        } else {
          assert IsDigit(s[j]);
        }
        assert s[j..j + 2][1] == s[j + 1];
        assert s[j..j + 2][0] == s[j];
      }
    }
  }

  /** A label `str(year) + "-Q" + str(quarter)` with a positive year splits back into its two numbers. */
  lemma QuarterLabelParts(year: int, quarter: int)
    requires year >= 1
    ensures var parts := Split(IntToString(year) + QuarterSeparator + IntToString(quarter), QuarterSeparator);
      |parts| == 2 && PyInt(parts[0]) == Some(year) && PyInt(parts[1]) == Some(quarter)
  {
    NatTextLacksDash(year);
    IntTextHoldsNoSeparator(quarter);
    SplitAroundFirst(IntToString(year), QuarterSeparator, IntToString(quarter));
    PyIntOfIntToString(year);
    PyIntOfIntToString(quarter);
  }

  /** Such a label parses as the timestamp of its two numbers. */
  lemma QuarterLabelParses(year: int, quarter: int)
    requires year >= 1
    ensures ParseQuarter(Some(IntToString(year) + QuarterSeparator + IntToString(quarter)))
         == FirstDayOfQuarter(year, quarter)
  {
    QuarterLabelParts(year, quarter);
  }

  /** A label written as `str(year) + "-Q" + str(quarter)` parses to the first day of that quarter. */
  lemma QuarterRoundTrip(year: int, quarter: int)
    requires 1 <= year <= 9999 && 1 <= quarter <= 4
    ensures ParseQuarter(Some(IntToString(year) + QuarterSeparator + IntToString(quarter)))
         == Some(Date(year, 3 * quarter - 2, 1))
  {
    QuarterLabelParses(year, quarter);
  }

  /** A quarter number outside 1..4 gives an invalid month, hence NaT. */
  lemma QuarterOutOfRange(year: int, quarter: int)
    requires year >= 1 && (quarter < 1 || quarter > 4)
    ensures ParseQuarter(Some(IntToString(year) + QuarterSeparator + IntToString(quarter))) == None
  {
    QuarterLabelParses(year, quarter);
  }

  /** A label without a "-Q" separator is NaT. */
  lemma NoSeparatorIsNaT(s: string)
    requires Lacks(s, '-')
    ensures ParseQuarter(Some(s)) == None
  {
    NoOccurrenceWithoutHead(s, QuarterSeparator);
  }

  /** A regional row as read, after the numeric coercions (None for NaN). */
  datatype RawRegionalRow = RawRegionalRow(
    regionCode: Option<string>,
    quarter: Option<string>,
    subscriberCount: Option<real>,
    revenue: Option<real>,
    arpu: Option<real>,
    churnRatePercent: Option<real>)

  datatype RegionalRow = RegionalRow(
    regionCode: Option<string>,
    quarterDate: Option<Date>,
    subscriberCount: Option<real>,
    revenue: Option<real>,
    arpu: Option<real>,
    churnRatePercent: Option<real>)

  /** `transform_regional_performance`: each row's quarter parsed, every other column kept, order kept. */
  function TransformRegionalPerformance(rows: seq<RawRegionalRow>): (clean: seq<RegionalRow>)
    ensures |clean| == |rows|
    ensures forall i :: 0 <= i < |rows| ==>
      var r := rows[i];
      clean[i] == RegionalRow(r.regionCode, ParseQuarter(r.quarter), r.subscriberCount, r.revenue, r.arpu, r.churnRatePercent)
  {
    seq(|rows|, i requires 0 <= i < |rows| =>
      var r := rows[i];
      RegionalRow(r.regionCode, ParseQuarter(r.quarter), r.subscriberCount, r.revenue, r.arpu, r.churnRatePercent))
  }
}
