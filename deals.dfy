/**
 * `transform_licensing_deals`: duration in days, cost per day with infinities
 * replaced by 0, and the exclusivity flag. Dates are day numbers; None stands
 * for NaT or NaN left by the coercions.
 */
module Deals {
  import opened Wrappers

  const ExclusiveType: string := "Exclusive"

  /** A licensing deal as read, after `to_datetime` and `to_numeric`. */
  datatype RawDealRow = RawDealRow(
    animeId: int,
    animeTitle: Option<string>,
    regionCode: Option<string>,
    licensingType: Option<string>,
    licenseStart: Option<int>,
    licenseEnd: Option<int>,
    estimatedCost: Option<real>)

  /** A deal with its derived columns. */
  datatype DealRow = DealRow(
    animeId: int,
    animeTitle: Option<string>,
    regionCode: Option<string>,
    licensingType: Option<string>,
    licenseStart: Option<int>,
    licenseEnd: Option<int>,
    estimatedCost: Option<real>,
    durationDays: Option<int>,
    costPerDay: Option<real>,
    isExclusive: int)

  /** `(end - start).dt.days`: missing when either date is; nothing stops it going negative. */
  function DurationDays(start: Option<int>, end: Option<int>): (d: Option<int>)
    ensures d.None? <==> start.None? || end.None?
    ensures d.Some? ==> start.value + d.value == end.value
  {
    if start.None? || end.None? then None else Some(end.value - start.value)
  }

  /**
   * `cost / duration` in floating point, then `replace([inf, -inf], 0)`: a non-zero
   * cost over 0 days gives 0, while 0/0 stays NaN, as does any missing operand.
   */
  function CostPerDay(cost: Option<real>, duration: Option<int>): (r: Option<real>)
    ensures r.None? <==> cost.None? || duration.None? || (duration.value == 0 && cost.value == 0.0)
    ensures r.Some? && duration.value != 0 ==> r.value * (duration.value as real) == cost.value
    ensures r.Some? && duration.value == 0 ==> r.value == 0.0
  {
    if cost.None? || duration.None? then None
    else if duration.value == 0 then (if cost.value == 0.0 then None else Some(0.0))
    else Some(cost.value / (duration.value as real))
  }

  /** `(licensing_type == 'Exclusive').astype(int)`; a missing type compares unequal. */
  function IsExclusive(licensingType: Option<string>): (flag: int)
    ensures flag == 0 || flag == 1
    ensures flag == 1 <==> licensingType == Some(ExclusiveType)
  {
    if licensingType == Some(ExclusiveType) then 1 else 0
  }

  function DeriveDeal(raw: RawDealRow): (deal: DealRow)
    ensures deal.animeId == raw.animeId && deal.animeTitle == raw.animeTitle
    ensures deal.regionCode == raw.regionCode && deal.licensingType == raw.licensingType
    ensures deal.licenseStart == raw.licenseStart && deal.licenseEnd == raw.licenseEnd
    ensures deal.estimatedCost == raw.estimatedCost
    ensures deal.durationDays == DurationDays(raw.licenseStart, raw.licenseEnd)
    ensures deal.costPerDay == CostPerDay(raw.estimatedCost, deal.durationDays)
    ensures deal.isExclusive == IsExclusive(raw.licensingType)
  {
    var duration := DurationDays(raw.licenseStart, raw.licenseEnd);
    DealRow(raw.animeId, raw.animeTitle, raw.regionCode, raw.licensingType,
            raw.licenseStart, raw.licenseEnd, raw.estimatedCost,
            duration, CostPerDay(raw.estimatedCost, duration), IsExclusive(raw.licensingType))
  }

  /** `transform_licensing_deals`: every deal derived, none dropped, order kept. */
  function TransformLicensingDeals(rows: seq<RawDealRow>): (deals: seq<DealRow>)
    ensures |deals| == |rows|
    ensures forall i :: 0 <= i < |rows| ==> deals[i] == DeriveDeal(rows[i])
  {
    seq(|rows|, i requires 0 <= i < |rows| => DeriveDeal(rows[i]))
  }

  /** Spread over the deal's days, the cost per day adds back up to the whole cost. */
  lemma CostPerDayTotals(raw: RawDealRow)
    requires raw.estimatedCost.Some? && raw.licenseStart.Some? && raw.licenseEnd.Some?
    requires raw.licenseStart != raw.licenseEnd
    ensures var deal := DeriveDeal(raw);
      deal.costPerDay.Some? && deal.costPerDay.value * ((raw.licenseEnd.value - raw.licenseStart.value) as real) == raw.estimatedCost.value
  {
  }

  /** A deal that ends before it starts keeps its negative duration, and a positive cost then gives a negative cost per day. */
  lemma NegativeDurationKept(raw: RawDealRow)
    requires raw.licenseStart.Some? && raw.licenseEnd.Some? && raw.licenseEnd.value < raw.licenseStart.value
    requires raw.estimatedCost.Some? && raw.estimatedCost.value > 0.0
    ensures DeriveDeal(raw).durationDays.value < 0
    ensures DeriveDeal(raw).costPerDay.value < 0.0
  {
    var d := DeriveDeal(raw).durationDays.value as real;
    assert DeriveDeal(raw).costPerDay.value == raw.estimatedCost.value / d;
  }
}
