/**
 * `ETLPipeline` of the title ingestion script: load the id list, then for each id
 * fetch, store the raw payload, parse, validate and keep the record, counting
 * every id as successful, failed or skipped.
 */
module EtlPipeline {
  import opened Wrappers
  import opened Json
  import opened PyText
  import opened Retry
  import opened JikanClient
  import opened AnimeTransform
  import opened AnimeValidation

  // ---------------------------------------------------------------------------
  // load_anime_ids
  // ---------------------------------------------------------------------------

  predicate IsBlank(line: string)
  {
    Strip(line) == []
  }

  /** What the comprehension makes of one line: skipped, an id, or a ValueError from `int`. */
  datatype LineResult = BlankLine | IdLine(id: int) | BadLine

  function ClassifyLine(line: string): LineResult
  {
    if IsBlank(line) then BlankLine
    else
      match PyInt(Strip(line))
      case None => BadLine
      case Some(n) => IdLine(n)
  }

  /**
   * The comprehension `[int(x.strip()) for x in xs if x.strip()]` over any lines,
   * where `f` says what it makes of each one; None where `int` raises.
   */
  function Comprehension<T>(xs: seq<T>, f: T -> LineResult): (r: Option<seq<int>>)
    ensures r.Some? ==> |r.value| <= |xs|
  {
    if xs == [] then Some([])
    else
      match Comprehension(xs[..|xs| - 1], f)
      case None => None
      case Some(ids) =>
        match f(xs[|xs| - 1])
        case BlankLine => Some(ids)
        case IdLine(n) => Some(ids + [n])
        case BadLine => None
  }

  /** The lines the comprehension does not skip, in order. */
  function Retained<T>(xs: seq<T>, f: T -> LineResult): (r: seq<T>)
    ensures |r| <= |xs|
    ensures forall k :: 0 <= k < |r| ==> !f(r[k]).BlankLine?
  {
    if xs == [] then []
    else if f(xs[|xs| - 1]).BlankLine? then Retained(xs[..|xs| - 1], f)
    else Retained(xs[..|xs| - 1], f) + [xs[|xs| - 1]]
  }

  predicate BadAt<T>(xs: seq<T>, f: T -> LineResult, k: int)
  {
    0 <= k < |xs| && f(xs[k]).BadLine?
  }

  lemma {:induction false} BadLineFails<T>(xs: seq<T>, f: T -> LineResult, k: int)
    requires BadAt(xs, f, k)
    ensures Comprehension(xs, f).None?
  {
    var init := xs[..|xs| - 1];
    if k < |init| {
      assert init[k] == xs[k];
      BadLineFails(init, f, k);
    }
  }

  lemma {:induction false} CleanLinesParse<T>(xs: seq<T>, f: T -> LineResult)
    requires forall k :: 0 <= k < |xs| ==> !BadAt(xs, f, k)
    ensures Comprehension(xs, f).Some?
  {
    if xs != [] {
      var init := xs[..|xs| - 1];
      forall k | 0 <= k < |init| ensures !BadAt(init, f, k) {
        assert init[k] == xs[k];
        assert !BadAt(xs, f, k);
      }
      CleanLinesParse(init, f);
      assert !BadAt(xs, f, |xs| - 1);
    }
  }

  /** The comprehension raises exactly when some line is neither blank nor an integer. */
  lemma ComprehensionFails<T>(xs: seq<T>, f: T -> LineResult)
    ensures Comprehension(xs, f).None? <==> exists k :: BadAt(xs, f, k)
  {
    if k :| BadAt(xs, f, k) {
      BadLineFails(xs, f, k);
    } else {
      CleanLinesParse(xs, f);
    }
  }

  /** Otherwise it yields one id per kept line, in order. */
  lemma {:induction false} ComprehensionYields<T>(xs: seq<T>, f: T -> LineResult)
    requires Comprehension(xs, f).Some?
    ensures var ids := Comprehension(xs, f).value; var kept := Retained(xs, f);
      |ids| == |kept| && forall k :: 0 <= k < |kept| ==> f(kept[k]) == IdLine(ids[k])
  {
    if xs != [] {
      var init := xs[..|xs| - 1];
      ComprehensionYields(init, f);
      var last := xs[|xs| - 1];
      if !f(last).BlankLine? {
        assert Retained(xs, f) == Retained(init, f) + [last];
        assert Comprehension(xs, f).value == Comprehension(init, f).value + [f(last).id];
      }
    }
  }

  /** Lines that each read as the matching id parse to exactly those ids. */
  lemma {:induction false} ComprehensionOfIds<T>(xs: seq<T>, f: T -> LineResult, ids: seq<int>)
    requires |xs| == |ids|
    requires forall k :: 0 <= k < |xs| ==> f(xs[k]) == IdLine(ids[k])
    ensures Comprehension(xs, f) == Some(ids)
  {
    if xs != [] {
      var init := xs[..|xs| - 1];
      assert forall k :: 0 <= k < |init| ==> init[k] == xs[k];
      ComprehensionOfIds(init, f, ids[..|ids| - 1]);
      assert ids[..|ids| - 1] + [ids[|ids| - 1]] == ids;
    }
  }

  /** The id-file lines: `[int(line.strip()) for line in f if line.strip()]`. */
  function ParseIdLines(lines: seq<string>): Option<seq<int>>
  {
    Comprehension(lines, ClassifyLine)
  }

  /** The non-blank lines of the file, in order. */
  function NonBlank(lines: seq<string>): seq<string>
  {
    Retained(lines, ClassifyLine)
  }

  /**
   * Python's `load_anime_ids`: `file` is the file's lines, or None when it cannot be
   * opened. Any failure yields the empty list.
   */
  function LoadAnimeIds(file: Option<seq<string>>): (ids: seq<int>)
    ensures file.None? ==> ids == []
    ensures file.Some? ==> |ids| <= |file.value|
  {
    match file
    case None => []
    case Some(lines) => ParseIdLines(lines).GetOr([])
  }

  /** A single non-blank line that is not an integer empties the whole list. */
  lemma OneBadLineEmptiesList(lines: seq<string>, k: nat)
    requires k < |lines| && !IsBlank(lines[k]) && PyInt(Strip(lines[k])).None?
    ensures LoadAnimeIds(Some(lines)) == []
  {
    assert BadAt(lines, ClassifyLine, k);
    BadLineFails(lines, ClassifyLine, k);
  }

  /** Blank lines are skipped: a clean file yields one id per non-blank line, in order. */
  lemma CleanFileYieldsEveryId(lines: seq<string>)
    requires forall k :: 0 <= k < |lines| ==> IsBlank(lines[k]) || PyInt(Strip(lines[k])).Some?
    ensures var ids := LoadAnimeIds(Some(lines)); var kept := NonBlank(lines);
      && |ids| == |kept|
      && forall k :: 0 <= k < |ids| ==> !IsBlank(kept[k]) && PyInt(Strip(kept[k])) == Some(ids[k])
  {
    forall k | 0 <= k < |lines| ensures !BadAt(lines, ClassifyLine, k) {
    }
    CleanLinesParse(lines, ClassifyLine);
    ComprehensionYields(lines, ClassifyLine);
  }

  /** The lines of an id file written one id per line. */
  function IdFileLines(ids: seq<int>): (lines: seq<string>)
    ensures |lines| == |ids|
  {
    seq(|ids|, i requires 0 <= i < |ids| => IntToString(ids[i]) + "\n")
  }

  lemma StripIdLine(n: int)
    ensures Strip(IntToString(n) + "\n") == IntToString(n)
  {
    var s := IntToString(n);
    assert IsDigit(s[|s| - 1]);
    assert s[0] == '-' || IsDigit(s[0]);
    StripNewline(s);
  }

  lemma ClassifyIdLine(n: int)
    ensures ClassifyLine(IntToString(n) + "\n") == IdLine(n)
  {
    StripIdLine(n);
    PyIntOfIntToString(n);
    StripUnpadded(IntToString(n));
  }

  /** Writing ids one per line and loading the file gives the ids back. */
  lemma LoadIdFileRoundTrip(ids: seq<int>)
    ensures LoadAnimeIds(Some(IdFileLines(ids))) == ids
  {
    var lines := IdFileLines(ids);
    forall k | 0 <= k < |lines| ensures ClassifyLine(lines[k]) == IdLine(ids[k]) {
      ClassifyIdLine(ids[k]);
    }
    ComprehensionOfIds(lines, ClassifyLine, ids);
  }

  // ---------------------------------------------------------------------------
  // fetch_and_transform: how one id is routed, and the counts of a run
  // ---------------------------------------------------------------------------

  /** Where one fetched payload ends up: a failed fetch, a skip (parse or validation), a kept record, or the exception that ends the run. */
  datatype Route = Failed | Skipped | Kept(record: AnimeRecord) | Crashed

  function RouteOf(raw: Json): (r: Route)
    ensures r == Failed <==> !Truthy(raw)
    ensures r.Kept? ==> ValidateAnimeRecord(r.record) == Accept
  {
    if !Truthy(raw) then Failed
    else
      match ParseAnimeJson(raw)
      case None => Skipped
      case Some(rec) =>
        match ValidateAnimeRecord(rec)
        case Accept => Kept(rec)
        case Reject => Skipped
        case RaisesTypeError => Crashed
  }

  /** A payload fails exactly when falsy, is kept exactly when it parses and passes validation, and crashes the run exactly when validation raises. */
  lemma RouteCases(raw: Json)
    ensures RouteOf(raw) == Failed <==> !Truthy(raw)
    ensures RouteOf(raw).Kept? <==> Truthy(raw) && ParseAnimeJson(raw).Some? && ValidateAnimeRecord(ParseAnimeJson(raw).value) == Accept
    ensures RouteOf(raw).Kept? ==> ParseAnimeJson(raw) == Some(RouteOf(raw).record)
    ensures RouteOf(raw) == Crashed <==> Truthy(raw) && ParseAnimeJson(raw).Some? && ValidateAnimeRecord(ParseAnimeJson(raw).value) == RaisesTypeError
  {
  }

  /** The counters a run of items adds, the records it appends, whether it ended in an exception, and how many ids it fetched. */
  datatype Tally = Tally(successful: nat, failed: nat, skipped: nat, records: seq<AnimeRecord>, crashed: bool, consumed: nat)

  const Zero := Tally(0, 0, 0, [], false, 0)

  /** One more item; nothing happens after the exception. */
  function Step(t: Tally, route: Route): Tally
  {
    if t.crashed then t
    else
      match route
      case Failed => t.(failed := t.failed + 1, consumed := t.consumed + 1)
      case Skipped => t.(skipped := t.skipped + 1, consumed := t.consumed + 1)
      case Kept(rec) => t.(successful := t.successful + 1, records := t.records + [rec], consumed := t.consumed + 1)
      case Crashed => t.(crashed := true, consumed := t.consumed + 1)
  }

  /** The effect of the loop over items routed as `routes`, in order. */
  function TallyOf(routes: seq<Route>): (t: Tally)
    ensures t.consumed <= |routes|
  {
    if routes == [] then Zero else Step(TallyOf(routes[..|routes| - 1]), routes[|routes| - 1])
  }

  /** The route of each payload. */
  function RoutesOf(raws: seq<Json>): (routes: seq<Route>)
    ensures |routes| == |raws|
    ensures forall i :: 0 <= i < |raws| ==> routes[i] == RouteOf(raws[i])
  {
    seq(|raws|, i requires 0 <= i < |raws| => RouteOf(raws[i]))
  }

  /** Every kept record is one that passed validation. */
  predicate KeptAreValid(routes: seq<Route>)
  {
    forall i :: 0 <= i < |routes| && routes[i].Kept? ==> ValidateAnimeRecord(routes[i].record) == Accept
  }

  lemma RoutesOfKeepValid(raws: seq<Json>)
    ensures KeptAreValid(RoutesOf(raws))
  {
    forall i | 0 <= i < |raws| && RoutesOf(raws)[i].Kept?
      ensures ValidateAnimeRecord(RoutesOf(raws)[i].record) == Accept
    {
      RouteCases(raws[i]);
    }
  }

  /**
   * Every processed item lands in exactly one counter: successful + failed + skipped
   * is the number of items handled, which is all of them unless an exception ended
   * the run; successful equals the number of records, and every record passed validation.
   */
  lemma {:induction false} TallyCounts(routes: seq<Route>)
    requires KeptAreValid(routes)
    ensures var t := TallyOf(routes);
      && t.successful + t.failed + t.skipped + (if t.crashed then 1 else 0) == t.consumed
      && t.consumed <= |routes|
      && (!t.crashed ==> t.consumed == |routes|)
      && t.successful == |t.records|
      && forall k :: 0 <= k < |t.records| ==> ValidateAnimeRecord(t.records[k]) == Accept
  {
    if routes != [] {
      var init := routes[..|routes| - 1];
      assert KeptAreValid(init) by {
        forall i | 0 <= i < |init| && init[i].Kept? ensures ValidateAnimeRecord(init[i].record) == Accept {
          assert init[i] == routes[i];
        }
      }
      TallyCounts(init);
    }
  }

  function Merge(x: Tally, y: Tally): Tally
  {
    Tally(x.successful + y.successful, x.failed + y.failed, x.skipped + y.skipped,
          x.records + y.records, y.crashed, x.consumed + y.consumed)
  }

  /**
   * Runs compose: after a run that did not crash, a further run adds its counts and
   * appends its records after the earlier ones, so records keep input order.
   */
  lemma {:induction false} TallyAppend(a: seq<Route>, b: seq<Route>)
    requires !TallyOf(a).crashed
    ensures TallyOf(a + b) == Merge(TallyOf(a), TallyOf(b))
    decreases |b|
  {
    if b == [] {
      assert a + b == a;
      assert TallyOf(a).records + [] == TallyOf(a).records;
    } else {
      var init := b[..|b| - 1];
      assert (a + b)[..|a + b| - 1] == a + init;
      TallyAppend(a, init);
      StepMerge(TallyOf(a), TallyOf(init), b[|b| - 1]);
    }
  }

  lemma StepMerge(x: Tally, y: Tally, route: Route)
    requires !x.crashed
    ensures Step(Merge(x, y), route) == Merge(x, Step(y, route))
  {
    if !y.crashed && route.Kept? {
      assert (x.records + y.records) + [route.record] == x.records + (y.records + [route.record]);
    }
  }

  /** One more item adds the counts of that item alone to a tally that has not crashed. */
  lemma StepAfter(t: Tally, route: Route, before: seq<AnimeRecord>)
    requires !t.crashed
    ensures var d := Step(Zero, route); var next := Step(t, route);
      && d.consumed == 1 && next.consumed == t.consumed + 1
      && next.crashed == d.crashed
      && next.successful == t.successful + d.successful
      && next.failed == t.failed + d.failed
      && next.skipped == t.skipped + d.skipped
      && before + next.records == (before + t.records) + d.records
  {
    StepMerge(t, Zero, route);
    assert Merge(t, Zero) == t by {
      assert t.records + [] == t.records;
    }
  }

  /** The loop's step: one more item extends the tally of the ones before. */
  lemma TallyStep(routes: seq<Route>, i: nat)
    requires i < |routes|
    ensures TallyOf(routes[..i + 1]) == Step(TallyOf(routes[..i]), routes[i])
  {
    assert routes[..i + 1][..i] == routes[..i];
  }

  /** Once the exception is raised, later items change nothing. */
  lemma {:induction false} CrashIsFinal(routes: seq<Route>, k: nat)
    requires k <= |routes| && TallyOf(routes[..k]).crashed
    ensures TallyOf(routes) == TallyOf(routes[..k])
    decreases |routes| - k
  {
    if k < |routes| {
      assert routes[..k + 1][..k] == routes[..k];
      CrashIsFinal(routes, k + 1);
    } else {
      assert routes[..k] == routes;
    }
  }

  /** What each id's environment plays: the exchanges of its fetch attempts and whether storing its raw payload succeeds. */
  datatype ItemEnv = ItemEnv(exchanges: nat -> Exchange, rawUploaded: bool)

  /** The payload (JNull for None) the decorated fetch returns for each item. */
  function Payloads(items: seq<ItemEnv>): (raws: seq<Json>)
    ensures |raws| == |items|
    ensures forall i :: 0 <= i < |items| ==> raws[i] == FetchResult(MaxRetries, items[i].exchanges)
  {
    seq(|items|, i requires 0 <= i < |items| => FetchResult(MaxRetries, items[i].exchanges))
  }

  /** The number of items whose fetch ended in a counted request. */
  function CountedRequests(items: seq<ItemEnv>): nat
  {
    if items == [] then 0
    else CountedRequests(items[..|items| - 1]) + (if FetchCounted(MaxRetries, items[|items| - 1].exchanges) then 1 else 0)
  }

  /** The client's `last_request_time` after fetching `items`, starting from `init`. */
  function LastRequestAfter(init: Option<real>, items: seq<ItemEnv>): Option<real>
  {
    if items == [] then init
    else
      var ex := items[|items| - 1].exchanges;
      if FetchCounted(MaxRetries, ex) then Some(ex(FetchTrace(MaxRetries, ex).calls - 1).finish)
      else LastRequestAfter(init, items[..|items| - 1])
  }

  /** The loop's step for the client's state: one more item's fetch. */
  lemma ClientStep(init: Option<real>, items: seq<ItemEnv>, i: nat)
    requires i < |items|
    ensures var ex := items[i].exchanges;
      && CountedRequests(items[..i + 1]) == CountedRequests(items[..i]) + (if FetchCounted(MaxRetries, ex) then 1 else 0)
      && LastRequestAfter(init, items[..i + 1])
         == (if FetchCounted(MaxRetries, ex) then Some(ex(FetchTrace(MaxRetries, ex).calls - 1).finish)
             else LastRequestAfter(init, items[..i]))
  {
    assert items[..i + 1][..i] == items[..i];
  }

  /** `generate_report`'s success rate in percent; None where Python divides by zero. */
  function SuccessRatePercent(successful: nat, total: nat): (rate: Option<real>)
    ensures rate.None? <==> total == 0
    ensures rate.Some? ==> rate.value * (total as real) == (successful as real) * 100.0
    ensures rate.Some? && successful <= total ==> 0.0 <= rate.value <= 100.0
  {
    if total == 0 then None else Some((successful as real) / (total as real) * 100.0)
  }

  class Pipeline {
    const client: Client
    var totalAnime: nat
    var successfulFetches: nat
    var failedFetches: nat
    var skippedAnime: nat
    var records: seq<AnimeRecord>

    /** `successful_fetches` counts the kept records, all of which passed validation. */
    ghost predicate Valid()
      reads this
    {
      && successfulFetches == |records|
      && forall k :: 0 <= k < |records| ==> ValidateAnimeRecord(records[k]) == Accept
    }

    constructor ()
      ensures Valid() && fresh(client)
      ensures client.rateLimitDelay == RateLimitDelay && client.requestsMade == 0 && client.lastRequestTime == None
      ensures totalAnime == 0 && successfulFetches == 0 && failedFetches == 0 && skippedAnime == 0 && records == []
    {
      client := new Client(RateLimitDelay);
      totalAnime, successfulFetches, failedFetches, skippedAnime, records := 0, 0, 0, 0, [];
    }

    /**
     * Python's `fetch_and_transform(anime_ids)`; `items[i]` plays the environment for
     * `animeIds[i]`. Returns false when validation raised and ended the loop early.
     */
    method FetchAndTransform(animeIds: seq<int>, items: seq<ItemEnv>) returns (completed: bool)
      requires |items| == |animeIds|
      requires Valid()
      modifies this, client
      ensures Valid()
      ensures var t := TallyOf(RoutesOf(Payloads(items)));
        && totalAnime == |animeIds|
        && successfulFetches == old(successfulFetches) + t.successful
        && failedFetches == old(failedFetches) + t.failed
        && skippedAnime == old(skippedAnime) + t.skipped
        && records == old(records) + t.records
        && completed == !t.crashed
        && client.requestsMade == old(client.requestsMade) + CountedRequests(items[..t.consumed])
        && client.lastRequestTime == LastRequestAfter(old(client.lastRequestTime), items[..t.consumed])
      ensures completed ==>
        successfulFetches + failedFetches + skippedAnime == old(successfulFetches + failedFetches + skippedAnime) + |animeIds|
    {
      totalAnime := |animeIds|;
      ghost var routes := RoutesOf(Payloads(items));
      RoutesOfKeepValid(Payloads(items));
      ghost var tally := Zero;
      var i := 0;
      while i < |animeIds|
        invariant 0 <= i <= |animeIds|
        invariant tally == TallyOf(routes[..i]) && !tally.crashed && tally.consumed == i
        invariant successfulFetches == old(successfulFetches) + tally.successful
        invariant failedFetches == old(failedFetches) + tally.failed
        invariant skippedAnime == old(skippedAnime) + tally.skipped
        invariant records == old(records) + tally.records
        invariant Valid()
        invariant totalAnime == |animeIds|
        invariant client.requestsMade == old(client.requestsMade) + CountedRequests(items[..i])
        invariant client.lastRequestTime == LastRequestAfter(old(client.lastRequestTime), items[..i])
      {
        TallyStep(routes, i);
        ClientStep(old(client.lastRequestTime), items, i);
        ghost var route := routes[i];
        var crashed := ProcessItem(items[i], route);
        StepAfter(tally, route, old(records));
        if crashed {
          CrashIsFinal(routes, i + 1);
          completed := false;
          return;
        }
        tally := Step(tally, route);
        i := i + 1;
      }
      assert routes[..i] == routes;
      assert items[..i] == items;
      completed := true;
      TallyCounts(routes);
    }

    /** One iteration of the loop: fetch the id's payload through the client, then route it. */
    method ProcessItem(item: ItemEnv, ghost route: Route) returns (crashed: bool)
      requires route == RouteOf(FetchResult(MaxRetries, item.exchanges))
      requires Valid()
      modifies this, client
      ensures Valid()
      ensures var d := Step(Zero, route);
        && crashed == d.crashed
        && successfulFetches == old(successfulFetches) + d.successful
        && failedFetches == old(failedFetches) + d.failed
        && skippedAnime == old(skippedAnime) + d.skipped
        && records == old(records) + d.records
        && totalAnime == old(totalAnime)
      ensures var ex := item.exchanges;
        && client.requestsMade == old(client.requestsMade) + (if FetchCounted(MaxRetries, ex) then 1 else 0)
        && client.lastRequestTime
           == (if FetchCounted(MaxRetries, ex) then Some(ex(FetchTrace(MaxRetries, ex).calls - 1).finish)
               else old(client.lastRequestTime))
    {
      var rawData, _, _ := client.FetchAnime(MaxRetries, RetryDelay, item.exchanges);
      // a failed raw upload (`!item.rawUploaded`) is only logged, so the payload is processed either way
      crashed := ProcessPayload(rawData);
    }

    /**
     * The loop body after the fetch: count a failure, skip an unparseable or invalid
     * payload, or keep the record; true when validation raised.
     */
    method ProcessPayload(rawData: Json) returns (crashed: bool)
      requires Valid()
      modifies this
      ensures Valid()
      ensures var d := Step(Zero, RouteOf(rawData));
        && crashed == d.crashed
        && successfulFetches == old(successfulFetches) + d.successful
        && failedFetches == old(failedFetches) + d.failed
        && skippedAnime == old(skippedAnime) + d.skipped
        && records == old(records) + d.records
        && totalAnime == old(totalAnime)
    {
      crashed := false;
      if !Truthy(rawData) {
        failedFetches := failedFetches + 1;
        return;
      }
      var parsed := ParseAnimeJson(rawData);
      if parsed.None? {
        skippedAnime := skippedAnime + 1;
        return;
      }
      var verdict := ValidateAnimeRecord(parsed.value);
      if verdict == RaisesTypeError {
        crashed := true;
      } else if verdict == Reject {
        skippedAnime := skippedAnime + 1;
      } else {
        records := records + [parsed.value];
        successfulFetches := successfulFetches + 1;
      }
    }

    /** `create_csv`'s guard, and the report it logs: nothing is written for an empty batch. */
    function CreateCsv(): (report: Option<ValidationReport>)
      reads this
      requires Valid()
      ensures report.None? <==> records == []
      ensures report.Some? ==> report.value == ValidateDataframe(records)
    {
      if records == [] then None else Some(ValidateDataframe(records))
    }
  }
}
