/**
 * `enrich_licensing_with_anime`: the left merge of the deals with the catalog's
 * `anime_id`, `title`, `year`, `score` and `popularity_tier` columns.
 */
module Enrich {
  import opened Wrappers
  import opened Catalog
  import opened Deals

  /** A deal with the catalog columns of one matching title, all missing when none matches. */
  datatype EnrichedRow = EnrichedRow(
    deal: DealRow,
    title: Option<string>,
    year: Option<int>,
    score: Option<real>,
    popularityTier: Option<Tier>)

  /** The catalog rows whose id is the deal's, in catalog order. */
  function Matches(animeId: int, catalog: seq<CatalogRow>): (rows: seq<CatalogRow>)
    ensures |rows| <= |catalog|
    ensures forall k :: 0 <= k < |rows| ==> rows[k].animeId == animeId
  {
    if catalog == [] then []
    else
      var last := catalog[|catalog| - 1];
      Matches(animeId, catalog[..|catalog| - 1]) + (if last.animeId == animeId then [last] else [])
  }

  /** No catalog row carries the id exactly when there is no match. */
  lemma {:induction false} NoMatchesIffAbsent(animeId: int, catalog: seq<CatalogRow>)
    ensures Matches(animeId, catalog) == [] <==> forall k :: 0 <= k < |catalog| ==> catalog[k].animeId != animeId
  {
    if catalog != [] {
      var init := catalog[..|catalog| - 1];
      NoMatchesIffAbsent(animeId, init);
      assert forall k :: 0 <= k < |init| ==> init[k] == catalog[k];
    }
  }

  /** The matches are exactly the catalog rows that carry the id. */
  lemma {:induction false} MatchesAreCatalogRows(animeId: int, catalog: seq<CatalogRow>)
    ensures forall r :: r in Matches(animeId, catalog) <==> r in catalog && r.animeId == animeId
  {
    if catalog != [] {
      var init := catalog[..|catalog| - 1];
      var last := catalog[|catalog| - 1];
      MatchesAreCatalogRows(animeId, init);
      assert catalog == init + [last];
    }
  }

  /** Matching works row by row, so the matches keep catalog order. */
  lemma {:induction false} MatchesAppend(animeId: int, a: seq<CatalogRow>, b: seq<CatalogRow>)
    ensures Matches(animeId, a + b) == Matches(animeId, a) + Matches(animeId, b)
    decreases |b|
  {
    if b == [] {
      assert a + b == a;
    } else {
      var init := b[..|b| - 1];
      assert (a + b)[..|a + b| - 1] == a + init;
      assert (a + b)[|a + b| - 1] == b[|b| - 1];
      MatchesAppend(animeId, a, init);
    }
  }

  function Matched(deal: DealRow, row: CatalogRow): EnrichedRow
  {
    EnrichedRow(deal, row.title, Some(row.year), row.score, row.popularityTier)
  }

  function Unmatched(deal: DealRow): EnrichedRow
  {
    EnrichedRow(deal, None, None, None, None)
  }

  /** The merged rows of one deal: one per matching catalog row, or one with missing catalog columns. */
  function DealRows(deal: DealRow, catalog: seq<CatalogRow>): (rows: seq<EnrichedRow>)
    ensures |rows| >= 1
  {
    var found := Matches(deal.animeId, catalog);
    if found == [] then [Unmatched(deal)]
    else seq(|found|, k requires 0 <= k < |found| => Matched(deal, found[k]))
  }

  /**
   * Every merged row of a deal carries the deal; an unmatched deal gets one row with
   * missing catalog columns, a matched one a row per matching catalog row, in catalog order.
   */
  lemma DealRowsShape(deal: DealRow, catalog: seq<CatalogRow>)
    ensures var rows := DealRows(deal, catalog); var found := Matches(deal.animeId, catalog);
      && (forall k :: 0 <= k < |rows| ==> rows[k].deal == deal)
      && (found == [] ==> rows == [Unmatched(deal)])
      && (found != [] ==> |rows| == |found| && forall k :: 0 <= k < |rows| ==> rows[k] == Matched(deal, found[k]))
  {
  }

  /** The rows each item gives, concatenated in item order. */
  function ConcatRows<A, B>(xs: seq<A>, rowsOf: A -> seq<B>): seq<B>
  {
    if xs == [] then [] else ConcatRows(xs[..|xs| - 1], rowsOf) + rowsOf(xs[|xs| - 1])
  }

  /** Concatenating the rows of two batches is concatenating the rows of each. */
  lemma {:induction false} ConcatRowsAppend<A, B>(a: seq<A>, b: seq<A>, rowsOf: A -> seq<B>)
    ensures ConcatRows(a + b, rowsOf) == ConcatRows(a, rowsOf) + ConcatRows(b, rowsOf)
    decreases |b|
  {
    if b == [] {
      assert a + b == a;
    } else {
      var init := b[..|b| - 1];
      assert (a + b)[..|a + b| - 1] == a + init;
      assert (a + b)[|a + b| - 1] == b[|b| - 1];
      ConcatRowsAppend(a, init, rowsOf);
    }
  }

  /** When every item gives at least one row, there are at least as many rows as items. */
  lemma {:induction false} ConcatRowsAtLeast<A, B>(xs: seq<A>, rowsOf: A -> seq<B>)
    requires forall x :: |rowsOf(x)| >= 1
    ensures |ConcatRows(xs, rowsOf)| >= |xs|
  {
    if xs != [] {
      ConcatRowsAtLeast(xs[..|xs| - 1], rowsOf);
    }
  }

  /** The merge of one deal against the catalog, as a function of the deal. */
  function RowsAgainst(catalog: seq<CatalogRow>): DealRow -> seq<EnrichedRow>
  {
    (deal: DealRow) => DealRows(deal, catalog)
  }

  /** `licensing_df.merge(anime_df[...], on='anime_id', how='left')`: deal by deal, in deal order. */
  function LeftJoin(deals: seq<DealRow>, catalog: seq<CatalogRow>): (merged: seq<EnrichedRow>)
    ensures |merged| >= |deals|
  {
    ConcatRowsAtLeast(deals, RowsAgainst(catalog));
    ConcatRows(deals, RowsAgainst(catalog))
  }

  /** The merge of the deals but the last, followed by the rows of the last deal. */
  lemma LeftJoinLast(deals: seq<DealRow>, catalog: seq<CatalogRow>)
    requires deals != []
    ensures LeftJoin(deals, catalog) == LeftJoin(deals[..|deals| - 1], catalog) + DealRows(deals[|deals| - 1], catalog)
  {
  }

  /** The merge works deal by deal: merging two batches of deals is merging each and concatenating, so deal order is kept. */
  lemma LeftJoinAppend(a: seq<DealRow>, b: seq<DealRow>, catalog: seq<CatalogRow>)
    ensures LeftJoin(a + b, catalog) == LeftJoin(a, catalog) + LeftJoin(b, catalog)
  {
    ConcatRowsAppend(a, b, RowsAgainst(catalog));
  }

  predicate UniqueIds(catalog: seq<CatalogRow>)
  {
    forall i, j :: 0 <= i < j < |catalog| ==> catalog[i].animeId != catalog[j].animeId
  }

  /** With unique catalog ids, a deal matches at most one catalog row. */
  lemma {:induction false} MatchesUnique(animeId: int, catalog: seq<CatalogRow>)
    requires UniqueIds(catalog)
    ensures |Matches(animeId, catalog)| <= 1
  {
    if catalog != [] {
      var init := catalog[..|catalog| - 1];
      var last := catalog[|catalog| - 1];
      assert UniqueIds(init) by {
        forall i, j | 0 <= i < j < |init| ensures init[i].animeId != init[j].animeId {
          assert init[i] == catalog[i] && init[j] == catalog[j];
        }
      }
      MatchesUnique(animeId, init);
      if last.animeId == animeId {
        NoMatchesIffAbsent(animeId, init);
        forall k | 0 <= k < |init| ensures init[k].animeId != animeId {
          assert init[k] == catalog[k];
        }
      }
    }
  }

  /** With unique catalog ids, a catalog row carrying the id is the one match. */
  lemma OnlyMatch(animeId: int, catalog: seq<CatalogRow>, c: CatalogRow)
    requires UniqueIds(catalog)
    requires c in catalog && c.animeId == animeId
    ensures Matches(animeId, catalog) == [c]
  {
    MatchesAreCatalogRows(animeId, catalog);
    MatchesUnique(animeId, catalog);
    assert c in Matches(animeId, catalog);
  }

  /**
   * When catalog ids are unique the merge has exactly one row per deal, in deal
   * order, carrying that deal; a deal whose id is in the catalog gets that catalog
   * row's columns, and an unmatched deal gets missing title, year, score and tier.
   */
  lemma {:induction false} LeftJoinUnique(deals: seq<DealRow>, catalog: seq<CatalogRow>)
    requires UniqueIds(catalog)
    ensures var merged := LeftJoin(deals, catalog);
      && |merged| == |deals|
      && (forall i :: 0 <= i < |deals| ==> merged[i].deal == deals[i])
      && (forall i, c :: 0 <= i < |deals| && c in catalog && c.animeId == deals[i].animeId ==> merged[i] == Matched(deals[i], c))
      && (forall i :: 0 <= i < |deals| && Matches(deals[i].animeId, catalog) == [] ==> merged[i] == Unmatched(deals[i]))
  {
    LeftJoinRowOfDeal(deals, catalog);
    var merged := LeftJoin(deals, catalog);
    forall i | 0 <= i < |deals| ensures merged[i].deal == deals[i] {
      DealRowsShape(deals[i], catalog);
      assert DealRows(deals[i], catalog)[0] == merged[i];
    }
    forall i, c | 0 <= i < |deals| && c in catalog && c.animeId == deals[i].animeId
      ensures merged[i] == Matched(deals[i], c)
    {
      OnlyMatch(deals[i].animeId, catalog, c);
      DealRowsShape(deals[i], catalog);
      assert DealRows(deals[i], catalog)[0] == merged[i];
    }
    forall i | 0 <= i < |deals| && Matches(deals[i].animeId, catalog) == [] ensures merged[i] == Unmatched(deals[i]) {
      DealRowsShape(deals[i], catalog);
    }
  }

  /** With unique catalog ids, row `i` of the merge is the one merged row of deal `i`. */
  lemma {:induction false} LeftJoinRowOfDeal(deals: seq<DealRow>, catalog: seq<CatalogRow>)
    requires UniqueIds(catalog)
    ensures var merged := LeftJoin(deals, catalog);
      && |merged| == |deals|
      && forall i :: 0 <= i < |deals| ==> DealRows(deals[i], catalog) == [merged[i]]
  {
    if deals != [] {
      var init := deals[..|deals| - 1];
      var last := deals[|deals| - 1];
      LeftJoinRowOfDeal(init, catalog);
      MatchesUnique(last.animeId, catalog);
      DealRowsShape(last, catalog);
      var merged := LeftJoin(deals, catalog);
      LeftJoinLast(deals, catalog);
      assert |DealRows(last, catalog)| == 1;
      forall i | 0 <= i < |deals| ensures DealRows(deals[i], catalog) == [merged[i]] {
        if i < |init| {
          assert merged[i] == LeftJoin(init, catalog)[i];
          assert deals[i] == init[i];
        }
      }
    }
  }
}
