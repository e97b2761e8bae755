/**
 * The stateful parts of the licensing ROI engine: the `LicensingDataTransformer`
 * fields that the merge and the ROI pass store their tables in, and the loop of
 * `upload_processed_files_to_s3` that counts the files stored.
 */
module Licensing {
  import opened Wrappers
  import opened Catalog
  import opened Deals
  import opened Regional
  import opened Enrich
  import opened Roi

  class LicensingDataTransformer {
    /** `self.enriched_licensing`: None until the merge has run. */
    var enrichedLicensing: Option<seq<EnrichedRow>>
    /** `self.licensing_roi`: None until an ROI pass has completed. */
    var licensingRoi: Option<seq<RoiRow>>

    constructor ()
      ensures enrichedLicensing == None && licensingRoi == None
    {
      enrichedLicensing := None;
      licensingRoi := None;
    }

    /** `enrich_licensing_with_anime`: the left merge, returned and stored. */
    method EnrichLicensingWithAnime(deals: seq<DealRow>, catalog: seq<CatalogRow>) returns (merged: seq<EnrichedRow>)
      modifies this
      ensures merged == LeftJoin(deals, catalog)
      ensures enrichedLicensing == Some(merged)
      ensures licensingRoi == old(licensingRoi)
    {
      merged := LeftJoin(deals, catalog);
      enrichedLicensing := Some(merged);
    }

    /**
     * `calculate_licensing_roi`: one ROI row per merged deal whose region has
     * regional data, in deal order. When no row is produced the summary's
     * `roi_df['roi_percent']` raises KeyError (`raised`), and `self.licensing_roi`
     * keeps its old value; otherwise the table is stored.
     */
    method CalculateLicensingRoi(enriched: seq<EnrichedRow>, regional: seq<RegionalRow>)
      returns (roi: seq<RoiRow>, raised: bool)
      modifies this
      ensures roi == RoiRows(enriched, regional)
      ensures raised <==> roi == []
      ensures raised <==> forall i :: 0 <= i < |enriched| ==> RegionRevenue(regional, enriched[i].deal.regionCode).None?
      ensures licensingRoi == if raised then old(licensingRoi) else Some(roi)
      ensures enrichedLicensing == old(enrichedLicensing)
    {
      roi := [];
      var i := 0;
      while i < |enriched|
        invariant 0 <= i <= |enriched|
        invariant roi == RoiRows(enriched[..i], regional)
      {
        assert enriched[..i + 1][..i] == enriched[..i];
        var deal := enriched[i].deal;
        var found := RegionRevenue(regional, deal.regionCode);
        if found.Some? {
          var attributed := AttributedRevenue(found.value, AttributionRate(enriched[i].score, deal.isExclusive));
          var row := RoiRow(deal.animeId, deal.animeTitle, deal.regionCode, deal.licensingType, deal.estimatedCost,
                            attributed, RoiPercent(deal.estimatedCost, attributed),
                            PaybackMonths(deal.estimatedCost, attributed), enriched[i].score, deal.isExclusive);
          assert RoiRowOf(enriched[i], regional) == Some(row);
          roi := roi + [row];
        }
        i := i + 1;
      }
      assert enriched[..i] == enriched;
      RoiRowsEmpty(enriched, regional);
      raised := roi == [];
      if !raised {
        licensingRoi := Some(roi);
      }
    }
  }

  const ProcessedPrefix: string := "licensing-strategy/processed/"

  /** The five processed tables, uploaded under their own names. */
  const ProcessedFiles: seq<string> := [
    "project4_anime_catalog_clean.csv",
    "project4_licensing_deals_clean.csv",
    "project4_licensing_enriched.csv",
    "project4_regional_performance_clean.csv",
    "project4_licensing_roi.csv"
  ]

  /** The S3 keys `f"{S3_PROCESSED_PREFIX}{s3_name}"`, in upload order. */
  function ProcessedKeys(): (keys: seq<string>)
    ensures |keys| == |ProcessedFiles| == 5
    ensures forall i :: 0 <= i < |keys| ==> keys[i] == ProcessedPrefix + ProcessedFiles[i]
  {
    seq(|ProcessedFiles|, i requires 0 <= i < |ProcessedFiles| => ProcessedPrefix + ProcessedFiles[i])
  }

  /** The number of keys whose upload succeeds. */
  function CountUploaded(keys: seq<string>, upload: string -> bool): (n: nat)
    ensures n <= |keys|
  {
    if keys == [] then 0
    else CountUploaded(keys[..|keys| - 1], upload) + (if upload(keys[|keys| - 1]) then 1 else 0)
  }

  /** Every upload succeeds exactly when the count of successes reaches the number of keys. */
  lemma {:induction false} CountUploadedAll(keys: seq<string>, upload: string -> bool)
    ensures CountUploaded(keys, upload) == |keys| <==> forall i :: 0 <= i < |keys| ==> upload(keys[i])
  {
    if keys != [] {
      var init := keys[..|keys| - 1];
      CountUploadedAll(init, upload);
      assert forall i :: 0 <= i < |init| ==> init[i] == keys[i];
    }
  }

  /**
   * `upload_processed_files_to_s3`, with the outcome of each `upload_csv` call
   * given by `upload`: it counts the successes and reports whether all five
   * tables were stored.
   */
  method UploadProcessedFiles(upload: string -> bool) returns (allUploaded: bool, successful: nat)
    ensures successful == CountUploaded(ProcessedKeys(), upload)
    ensures allUploaded <==> forall i :: 0 <= i < |ProcessedFiles| ==> upload(ProcessedPrefix + ProcessedFiles[i])
  {
    var keys := ProcessedKeys();
    successful := 0;
    var i := 0;
    while i < |ProcessedFiles|
      invariant 0 <= i <= |ProcessedFiles|
      invariant successful == CountUploaded(keys[..i], upload)
    {
      assert keys[..i + 1][..i] == keys[..i];
      var key := ProcessedPrefix + ProcessedFiles[i];
      if upload(key) {
        successful := successful + 1;
      }
      i := i + 1;
    }
    assert keys[..i] == keys;
    CountUploadedAll(keys, upload);
    allUploaded := successful == |ProcessedFiles|;
  }
}
