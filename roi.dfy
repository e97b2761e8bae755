/**
 * The row rules of `calculate_licensing_roi`: the regional lookup, the tiered
 * attribution rate, ROI percent and the payback period. Money is exact `real`;
 * None stands for NaN, and for the infinite payback the code turns into None.
 */
module Roi {
  import opened Wrappers
  import opened Deals
  import opened Regional
  import opened Enrich

  const QuarterMonths: real := 3.0

  /** `regional_df['region_code'] == region`: NaN equals nothing, itself included. */
  predicate RegionMatches(row: RegionalRow, region: Option<string>)
  {
    region.Some? && row.regionCode == region
  }

  /** Row `k` is the first regional row of the region. */
  predicate FirstMatchAt(regional: seq<RegionalRow>, region: Option<string>, k: int)
  {
    && 0 <= k < |regional|
    && RegionMatches(regional[k], region)
    && forall j :: 0 <= j < k ==> !RegionMatches(regional[j], region)
  }

  /**
   * `regional_metrics['estimated_revenue_usd'].values[0]`: None when no regional row
   * has the region (the deal is skipped), else the revenue of the first one (None inside for NaN).
   */
  function RegionRevenue(regional: seq<RegionalRow>, region: Option<string>): (rev: Option<Option<real>>)
    ensures rev.None? <==> forall k :: 0 <= k < |regional| ==> !RegionMatches(regional[k], region)
    ensures rev.Some? ==> exists k :: FirstMatchAt(regional, region, k) && rev.value == regional[k].revenue
  {
    if regional == [] then None
    else if RegionMatches(regional[0], region) then
      assert FirstMatchAt(regional, region, 0);
      Some(regional[0].revenue)
    else
      var rest := RegionRevenue(regional[1..], region);
      assert forall k :: 1 <= k < |regional| ==> regional[k] == regional[1..][k - 1];
      if rest.Some? then
        var k :| FirstMatchAt(regional[1..], region, k) && rest.value == regional[1..][k].revenue;
        assert FirstMatchAt(regional, region, k + 1);
        rest
      else
        rest
  }

  /** The first match is unique, so the revenue used is well defined. */
  lemma FirstMatchUnique(regional: seq<RegionalRow>, region: Option<string>, i: int, j: int)
    requires FirstMatchAt(regional, region, i) && FirstMatchAt(regional, region, j)
    ensures i == j
  {
  }

  /** `if deal['score']`: a missing score is NaN, and NaN is truthy; only 0 is falsy. */
  predicate ScoreTruthy(score: Option<real>)
  {
    score.None? || score.value != 0.0
  }

  /** The attribution heuristic: 15% for a truthy score on an exclusive deal, 10% for a truthy score otherwise, else 5%. */
  function AttributionRate(score: Option<real>, isExclusive: int): (rate: real)
    ensures rate == 0.15 <==> ScoreTruthy(score) && isExclusive != 0
    ensures rate == 0.10 <==> ScoreTruthy(score) && isExclusive == 0
    ensures rate == 0.05 <==> !ScoreTruthy(score)
  {
    if ScoreTruthy(score) && isExclusive != 0 then 0.15
    else if ScoreTruthy(score) then 0.10
    else 0.05
  }

  /** A title with no score in the catalog is attributed at the scored rates, and only a score of exactly 0 gets 5%. */
  lemma MissingScoreGetsScoredRate(isExclusive: int)
    ensures AttributionRate(None, isExclusive) >= 0.10
    ensures AttributionRate(Some(0.0), isExclusive) == 0.05
  {
  }

  /** For the same score, an exclusive deal is never attributed less than a non-exclusive one. */
  lemma ExclusiveRateDominates(score: Option<real>)
    ensures AttributionRate(score, 1) >= AttributionRate(score, 0)
  {
  }

  /** `rev * revenue_attribution_rate`; NaN revenue stays NaN. */
  function AttributedRevenue(rev: Option<real>, rate: real): (attributed: Option<real>)
    ensures attributed.None? <==> rev.None?
    ensures attributed.Some? ==> attributed.value == rev.value * rate
  {
    match rev
    case None => None
    case Some(r) => Some(r * rate)
  }

  /** `cost > 0` on a float: false for NaN. */
  predicate PositiveCost(cost: Option<real>)
  {
    cost.Some? && cost.value > 0.0
  }

  /** `((attributed - cost) / cost) * 100` when the cost is positive, else 0. */
  function RoiPercent(cost: Option<real>, attributed: Option<real>): (roi: Option<real>)
    ensures !PositiveCost(cost) ==> roi == Some(0.0)
    ensures PositiveCost(cost) ==> (roi.None? <==> attributed.None?)
    ensures PositiveCost(cost) && roi.Some? ==> roi.value * cost.value == (attributed.value - cost.value) * 100.0
  {
    if !PositiveCost(cost) then Some(0.0)
    else
      match attributed
      case None => None
      case Some(a) => Some((a - cost.value) / cost.value * 100.0)
  }

  /** For a positive cost the ROI is non-negative exactly when the attributed revenue covers the cost. */
  lemma RoiSignMatchesCoverage(cost: real, attributed: real)
    requires cost > 0.0
    ensures RoiPercent(Some(cost), Some(attributed)).value >= 0.0 <==> attributed >= cost
  {
    var roi := RoiPercent(Some(cost), Some(attributed)).value;
    assert roi * cost == (attributed - cost) * 100.0;
    if roi >= 0.0 {
      assert roi * cost >= 0.0;
    } else {
      assert roi * cost < 0.0;
    }
  }

  /**
   * Payback in months: for a positive cost, `cost / (attributed / 3)` when the monthly
   * revenue is positive and None otherwise (the infinity the code replaces, or NaN);
   * 0 for a cost that is not positive.
   */
  function PaybackMonths(cost: Option<real>, attributed: Option<real>): (months: Option<real>)
    ensures !PositiveCost(cost) ==> months == Some(0.0)
    ensures PositiveCost(cost) ==> (months.Some? <==> attributed.Some? && attributed.value / QuarterMonths > 0.0)
    ensures PositiveCost(cost) && months.Some? ==>
      months.value > 0.0 && months.value * (attributed.value / QuarterMonths) == cost.value
  {
    if !PositiveCost(cost) then Some(0.0)
    else
      match attributed
      case Some(a) =>
        var monthly := a / QuarterMonths;
        if monthly > 0.0 then Some(cost.value / monthly) else None
      case None => None
  }

  /** One row of the ROI table. */
  datatype RoiRow = RoiRow(
    animeId: int,
    animeTitle: Option<string>,
    regionCode: Option<string>,
    licensingType: Option<string>,
    licensingCost: Option<real>,
    attributedRevenue: Option<real>,
    roiPercent: Option<real>,
    paybackMonths: Option<real>,
    animeScore: Option<real>,
    isExclusive: int)

  /** The ROI row of one merged deal, or None when its region has no regional row (`continue`). */
  function RoiRowOf(row: EnrichedRow, regional: seq<RegionalRow>): (r: Option<RoiRow>)
    ensures r.None? <==> RegionRevenue(regional, row.deal.regionCode).None?
    ensures r.Some? ==>
      var d := row.deal;
      var attributed := AttributedRevenue(RegionRevenue(regional, d.regionCode).value, AttributionRate(row.score, d.isExclusive));
      && r.value.animeId == d.animeId && r.value.animeTitle == d.animeTitle
      && r.value.regionCode == d.regionCode && r.value.licensingType == d.licensingType
      && r.value.licensingCost == d.estimatedCost
      && r.value.attributedRevenue == attributed
      && r.value.roiPercent == RoiPercent(d.estimatedCost, attributed)
      && r.value.paybackMonths == PaybackMonths(d.estimatedCost, attributed)
      && r.value.animeScore == row.score && r.value.isExclusive == d.isExclusive
  {
    var d := row.deal;
    match RegionRevenue(regional, d.regionCode)
    case None => None
    case Some(rev) =>
      var attributed := AttributedRevenue(rev, AttributionRate(row.score, d.isExclusive));
      Some(RoiRow(d.animeId, d.animeTitle, d.regionCode, d.licensingType, d.estimatedCost, attributed,
                  RoiPercent(d.estimatedCost, attributed), PaybackMonths(d.estimatedCost, attributed),
                  row.score, d.isExclusive))
  }

  /** The rows `roi_data` collects: one per deal whose region has regional data, in deal order. */
  function RoiRows(enriched: seq<EnrichedRow>, regional: seq<RegionalRow>): (rows: seq<RoiRow>)
    ensures |rows| <= |enriched|
  {
    if enriched == [] then []
    else
      var last := enriched[|enriched| - 1];
      RoiRows(enriched[..|enriched| - 1], regional)
        + (match RoiRowOf(last, regional) case Some(r) => [r] case None => [])
  }

  /** The table is built deal by deal: two batches of deals give their two tables, concatenated in order. */
  lemma {:induction false} RoiRowsAppend(a: seq<EnrichedRow>, b: seq<EnrichedRow>, regional: seq<RegionalRow>)
    ensures RoiRows(a + b, regional) == RoiRows(a, regional) + RoiRows(b, regional)
    decreases |b|
  {
    if b == [] {
      assert a + b == a;
    } else {
      var init := b[..|b| - 1];
      var last := b[|b| - 1];
      var tail := match RoiRowOf(last, regional) case Some(r) => [r] case None => [];
      assert (a + b)[..|a + b| - 1] == a + init;
      assert (a + b)[|a + b| - 1] == last;
      calc {
        RoiRows(a + b, regional);
        RoiRows(a + init, regional) + tail;
        { RoiRowsAppend(a, init, regional); }
        (RoiRows(a, regional) + RoiRows(init, regional)) + tail;
        RoiRows(a, regional) + (RoiRows(init, regional) + tail);
        RoiRows(a, regional) + RoiRows(b, regional);
      }
    }
  }

  /** When every deal's region has regional data, there is exactly one ROI row per deal, in deal order. */
  lemma {:induction false} AllRegionsFound(enriched: seq<EnrichedRow>, regional: seq<RegionalRow>)
    requires forall i :: 0 <= i < |enriched| ==> RegionRevenue(regional, enriched[i].deal.regionCode).Some?
    ensures var rows := RoiRows(enriched, regional);
      && |rows| == |enriched|
      && forall i :: 0 <= i < |enriched| ==> Some(rows[i]) == RoiRowOf(enriched[i], regional)
  {
    if enriched != [] {
      var init := enriched[..|enriched| - 1];
      var last := enriched[|enriched| - 1];
      assert forall i :: 0 <= i < |init| ==> init[i] == enriched[i];
      AllRegionsFound(init, regional);
      var rows := RoiRows(enriched, regional);
      assert rows == RoiRows(init, regional) + [RoiRowOf(last, regional).value];
    }
  }

  /** When no deal's region has regional data the table is empty: the case where the code's summary raises KeyError. */
  lemma {:induction false} NoRegionsFound(enriched: seq<EnrichedRow>, regional: seq<RegionalRow>)
    requires forall i :: 0 <= i < |enriched| ==> RegionRevenue(regional, enriched[i].deal.regionCode).None?
    ensures RoiRows(enriched, regional) == []
  {
    if enriched != [] {
      var init := enriched[..|enriched| - 1];
      assert forall i :: 0 <= i < |init| ==> init[i] == enriched[i];
      NoRegionsFound(init, regional);
    }
  }

  /** The table is empty exactly when no deal's region has regional data. */
  lemma {:induction false} RoiRowsEmpty(enriched: seq<EnrichedRow>, regional: seq<RegionalRow>)
    ensures RoiRows(enriched, regional) == [] <==>
      forall i :: 0 <= i < |enriched| ==> RegionRevenue(regional, enriched[i].deal.regionCode).None?
  {
    if enriched != [] {
      var init := enriched[..|enriched| - 1];
      assert forall i :: 0 <= i < |init| ==> init[i] == enriched[i];
      RoiRowsEmpty(init, regional);
    }
  }
}
