/**
 * `transform_anime_catalog` of the licensing transformer: popularity tiers by
 * `pd.cut` on half-open bins, and missing year and episode counts filled with 0.
 */
module Catalog {
  import opened Wrappers

  /** The labels of `pd.cut(popularity, bins=[0, 100, 500, 1000, inf])`. */
  datatype Tier = Blockbuster | High | Medium | Niche

  /** The position of a tier's bin, from the most popular ranks upward. */
  function TierIndex(t: Tier): nat
  {
    match t
    case Blockbuster => 0
    case High => 1
    case Medium => 2
    case Niche => 3
  }

  /**
   * `pd.cut` with right-closed bins: (0,100] Blockbuster, (100,500] High,
   * (500,1000] Medium, (1000,inf) Niche; a rank of 0 or less, or a missing one, gets no tier.
   */
  function PopularityTier(popularity: Option<real>): (tier: Option<Tier>)
    ensures tier.None? <==> popularity.None? || popularity.value <= 0.0
    ensures tier == Some(Blockbuster) <==> popularity.Some? && 0.0 < popularity.value <= 100.0
    ensures tier == Some(High) <==> popularity.Some? && 100.0 < popularity.value <= 500.0
    ensures tier == Some(Medium) <==> popularity.Some? && 500.0 < popularity.value <= 1000.0
    ensures tier == Some(Niche) <==> popularity.Some? && 1000.0 < popularity.value
  {
    match popularity
    case None => None
    case Some(p) =>
      if p <= 0.0 then None
      else if p <= 100.0 then Some(Blockbuster)
      else if p <= 500.0 then Some(High)
      else if p <= 1000.0 then Some(Medium)
      else Some(Niche)
  }

  /** A larger popularity rank never gets a more popular tier. */
  lemma TierMonotone(p: real, q: real)
    requires 0.0 < p <= q
    ensures PopularityTier(Some(p)).Some? && PopularityTier(Some(q)).Some?
    ensures TierIndex(PopularityTier(Some(p)).value) <= TierIndex(PopularityTier(Some(q)).value)
  {
  }

  /** `astype(int)` on a float: truncation toward zero. */
  function TruncToInt(x: real): (n: int)
    ensures x >= 0.0 ==> n as real <= x < n as real + 1.0
    ensures x < 0.0 ==> n as real - 1.0 < x <= n as real
  {
    if x >= 0.0 then x.Floor else -((-x).Floor)
  }

  /** Truncation leaves whole numbers unchanged. */
  lemma TruncWhole(n: int)
    ensures TruncToInt(n as real) == n
  {
  }

  /** `.fillna(0).astype(int)`. */
  function FillZeroInt(x: Option<real>): (n: int)
    ensures x.None? ==> n == 0
    ensures x.Some? ==> n == TruncToInt(x.value)
  {
    match x
    case None => 0
    case Some(v) => TruncToInt(v)
  }

  /** A catalog row as read, after the numeric coercions (None for NaN). */
  datatype RawCatalogRow = RawCatalogRow(
    animeId: int,
    title: Option<string>,
    year: Option<real>,
    episodes: Option<real>,
    score: Option<real>,
    popularity: Option<real>)

  /** A cleaned catalog row: year and episodes are whole numbers, score may stay missing. */
  datatype CatalogRow = CatalogRow(
    animeId: int,
    title: Option<string>,
    year: int,
    episodes: int,
    score: Option<real>,
    popularity: Option<real>,
    popularityTier: Option<Tier>)

  function CleanCatalogRow(raw: RawCatalogRow): (row: CatalogRow)
    ensures row.animeId == raw.animeId && row.title == raw.title && row.score == raw.score
    ensures row.popularity == raw.popularity && row.popularityTier == PopularityTier(raw.popularity)
    ensures raw.year.None? ==> row.year == 0
    ensures raw.episodes.None? ==> row.episodes == 0
    ensures raw.year.Some? && raw.year.value >= 0.0 ==> row.year as real <= raw.year.value < row.year as real + 1.0
    ensures raw.episodes.Some? && raw.episodes.value >= 0.0 ==> row.episodes as real <= raw.episodes.value < row.episodes as real + 1.0
  {
    CatalogRow(raw.animeId, raw.title, FillZeroInt(raw.year), FillZeroInt(raw.episodes),
               raw.score, raw.popularity, PopularityTier(raw.popularity))
  }

  /** `transform_anime_catalog`: every row cleaned, none dropped, order kept. */
  function TransformAnimeCatalog(rows: seq<RawCatalogRow>): (clean: seq<CatalogRow>)
    ensures |clean| == |rows|
    ensures forall i :: 0 <= i < |rows| ==> clean[i] == CleanCatalogRow(rows[i])
  {
    seq(|rows|, i requires 0 <= i < |rows| => CleanCatalogRow(rows[i]))
  }

  /** A whole year survives cleaning; a missing one becomes 0 rather than staying missing. */
  lemma CleanKeepsWholeYear(raw: RawCatalogRow, y: int)
    requires raw.year == Some(y as real)
    ensures CleanCatalogRow(raw).year == y
  {
    TruncWhole(y);
  }
}
