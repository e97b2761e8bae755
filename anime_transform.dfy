/**
 * `DataTransformer.parse_anime_json`: turn one fetched payload into a flat record,
 * or None. Every exception inside the parser is caught and also gives None; the
 * model spells out which inputs raise.
 */
module AnimeTransform {
  import opened Wrappers
  import opened Json
  import opened PyText

  /**
   * One parsed title. Fields copied from the payload keep their JSON value,
   * JNull where the key is absent or null (`dict.get`); the three list fields
   * are `|`-joined names. The nondeterministic `extracted_at` stamp is not kept.
   */
  datatype AnimeRecord = AnimeRecord(
    animeId: Json,
    title: Json,
    titleEnglish: Json,
    titleJapanese: Json,
    animeType: Json,
    episodes: Json,
    status: Json,
    airedFrom: Json,
    airedTo: Json,
    score: Json,
    scoredBy: Json,
    rank: Json,
    popularityRank: Json,
    members: Json,
    favorites: Json,
    source: Json,
    rating: Json,
    season: Json,
    seasonYear: Json,
    duration: Json,
    studios: string,
    producers: string,
    genres: string)

  /** The separator of the flattened list fields. */
  const NameSeparator: char := '|'

  /** The `name` of each entry of a list, in order; None when an entry is not a dict with a string `name` (`s['name']` or `join` raises). */
  function EntryNames(items: seq<Json>): (r: Option<seq<string>>)
    ensures r.Some? ==>
      (|r.value| == |items| && forall k :: 0 <= k < |items| ==>
         items[k].JObject? && "name" in items[k].fields && items[k].fields["name"] == JStr(r.value[k]))
    ensures r.None? ==> exists k :: 0 <= k < |items| && !IsNamedEntry(items[k])
  {
    if items == [] then Some([])
    else if !IsNamedEntry(items[0]) then None
    else
      match EntryNames(items[1..])
      case None => None
      case Some(rest) => Some([items[0].fields["name"].s] + rest)
  }

  predicate IsNamedEntry(j: Json)
  {
    j.JObject? && "name" in j.fields && j.fields["name"].JStr?
  }

  /**
   * `'|'.join([s['name'] for s in anime.get(key, [])])`: a missing key gives "";
   * a present value is iterated as Python would (an empty string or dict gives "",
   * None, a number or a non-empty string or dict raises).
   */
  function JoinedNames(anime: map<string, Json>, key: string): (r: Option<string>)
    ensures key !in anime ==> r == Some("")
    ensures key in anime && anime[key].JArray? ==>
      match EntryNames(anime[key].items)
      case Some(names) => r == Some(Join(names, [NameSeparator]))
      case None => r == None
  {
    if key !in anime then Some("")
    else
      match anime[key]
      case JArray(items) =>
        (match EntryNames(items)
         case Some(names) => Some(Join(names, [NameSeparator]))
         case None => None)
      case JStr(s) => if s == "" then Some("") else None
      case JObject(m) => if m == map[] then Some("") else None
      case _ => None
  }

  /** `anime.get('aired', {})` followed by `.get('from')` and `.get('to')`; None when `aired` is present but not a dict. */
  function AiredDates(anime: map<string, Json>): Option<(Json, Json)>
  {
    if "aired" !in anime then Some((JNull, JNull))
    else
      match anime["aired"]
      case JObject(m) => Some((Get(m, "from"), Get(m, "to")))
      case _ => None
  }

  /** Python's `parse_anime_json(anime_data)`. */
  function ParseAnimeJson(raw: Json): (r: Option<AnimeRecord>)
    ensures !Truthy(raw) ==> r.None?
    ensures !(raw.JObject? && "data" in raw.fields) ==> r.None?
    ensures raw.JObject? && "data" in raw.fields ==>
      var data := raw.fields["data"];
      !(data.JObject? && "mal_id" in data.fields && "title" in data.fields) ==> r.None?
    ensures r.Some? ==>
      && raw.JObject? && "data" in raw.fields && raw.fields["data"].JObject?
      && var anime := raw.fields["data"].fields;
      && "mal_id" in anime && "title" in anime
      && r.value.animeId == anime["mal_id"]
      && r.value.title == anime["title"]
      && r.value.episodes == Get(anime, "episodes")
      && r.value.score == Get(anime, "score")
      && Some(r.value.studios) == JoinedNames(anime, "studios")
      && Some(r.value.producers) == JoinedNames(anime, "producers")
      && Some(r.value.genres) == JoinedNames(anime, "genres")
  {
    if !Truthy(raw) then None
    else
      match raw
      case JObject(top) =>
        if "data" !in top then None
        else
          (match top["data"]
           case JObject(anime) =>
             if "mal_id" !in anime || "title" !in anime then None
             else Extract(anime)
           case _ => None)  // `in` on a list or string, then `.get` on it, or `in` on a number, raises
      case _ => None        // a truthy list, string or number: `'data' in`, or indexing with 'data', raises
  }

  /** The record built from a payload's `data` dict; None where building it raises. */
  function Extract(anime: map<string, Json>): Option<AnimeRecord>
  {
    match (AiredDates(anime), JoinedNames(anime, "studios"), JoinedNames(anime, "producers"), JoinedNames(anime, "genres"))
    case (Some((from, to)), Some(studios), Some(producers), Some(genres)) =>
      Some(AnimeRecord(
        Get(anime, "mal_id"), Get(anime, "title"), Get(anime, "title_english"), Get(anime, "title_japanese"),
        Get(anime, "type"), Get(anime, "episodes"), Get(anime, "status"), from, to,
        Get(anime, "score"), Get(anime, "scored_by"), Get(anime, "rank"), Get(anime, "popularity"),
        Get(anime, "members"), Get(anime, "favorites"), Get(anime, "source"), Get(anime, "rating"),
        Get(anime, "season"), Get(anime, "year"), Get(anime, "duration"),
        studios, producers, genres))
    case _ => None
  }

  /** A payload whose `data` dict has `mal_id` and `title` and well-formed optional parts always parses, whatever `mal_id` and `title` hold. */
  lemma WellFormedPayloadParses(raw: Json, anime: map<string, Json>)
    requires raw.JObject? && "data" in raw.fields && raw.fields["data"] == JObject(anime)
    requires "mal_id" in anime && "title" in anime
    requires AiredDates(anime).Some?
    requires JoinedNames(anime, "studios").Some? && JoinedNames(anime, "producers").Some? && JoinedNames(anime, "genres").Some?
    ensures var r := ParseAnimeJson(raw);
      r.Some? && r.value.animeId == anime["mal_id"] && r.value.title == anime["title"]
  {
    assert Truthy(raw);
    assert ParseAnimeJson(raw) == Extract(anime);
  }


  /** The flattened names split back on `|` into the original names, in source order, when no name holds a `|`. */
  lemma {:induction false} JoinedNamesRoundTrip(anime: map<string, Json>, key: string, names: seq<string>)
    requires key in anime && anime[key].JArray?
    requires EntryNames(anime[key].items) == Some(names)
    requires |names| > 0 && forall k :: 0 <= k < |names| ==> Lacks(names[k], NameSeparator)
    ensures JoinedNames(anime, key).Some?
    ensures Split(JoinedNames(anime, key).value, [NameSeparator]) == names
  {
    SplitJoin(names, NameSeparator);
  }
}
