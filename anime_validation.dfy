/**
 * `DataValidator`: the per-record check that decides whether a parsed title is
 * kept, and the counting part of the batch report.
 */
module AnimeValidation {
  import opened Wrappers
  import opened Json
  import opened AnimeTransform

  /** The record is kept, rejected, or the check itself raises TypeError (comparing a non-number with 0 or 10). */
  datatype Verdict = Accept | Reject | RaisesTypeError

  /** `score` is None or a number within [0, 10], the range check's accepting case. */
  predicate ScoreInRange(score: Json)
  {
    score == JNull || (Numeric(score).Some? && 0.0 <= Numeric(score).value <= 10.0)
  }

  /** `episodes` is None or a non-negative number. */
  predicate EpisodesInRange(episodes: Json)
  {
    episodes == JNull || (Numeric(episodes).Some? && Numeric(episodes).value >= 0.0)
  }

  /** Python's `validate_anime_record(record)`. */
  function ValidateAnimeRecord(r: AnimeRecord): (v: Verdict)
    ensures v == Accept <==>
      Truthy(r.animeId) && Truthy(r.title) && IsPyInt(r.animeId) && ScoreInRange(r.score) && EpisodesInRange(r.episodes)
    ensures (!Truthy(r.animeId) || !Truthy(r.title) || !IsPyInt(r.animeId)) ==> v == Reject
    ensures v == RaisesTypeError <==>
      Truthy(r.animeId) && Truthy(r.title) && IsPyInt(r.animeId)
      && ((r.score != JNull && Numeric(r.score).None?)
          || (ScoreInRange(r.score) && r.episodes != JNull && Numeric(r.episodes).None?))
  {
    if !Truthy(r.animeId) || !Truthy(r.title) then Reject
    else if !IsPyInt(r.animeId) then Reject
    else if r.score != JNull && Numeric(r.score).None? then RaisesTypeError
    else if r.score != JNull && !(0.0 <= Numeric(r.score).value <= 10.0) then Reject
    else if r.episodes != JNull && Numeric(r.episodes).None? then RaisesTypeError
    else if r.episodes != JNull && Numeric(r.episodes).value < 0.0 then Reject
    else Accept
  }

  /**
   * A kept record has a non-zero integer id (or `True`, which Python counts as the
   * int 1), a truthy title, a score that is absent or within [0, 10] and an episode
   * count that is absent or non-negative. Nothing is clamped into range.
   */
  lemma AcceptedRecordIsInRange(r: AnimeRecord)
    requires ValidateAnimeRecord(r) == Accept
    ensures (r.animeId.JInt? && r.animeId.i != 0) || r.animeId == JBool(true)
    ensures r.score == JNull || (Numeric(r.score).Some? && 0.0 <= Numeric(r.score).value <= 10.0)
    ensures r.episodes == JNull || Numeric(r.episodes).value >= 0.0
  {
  }

  /** The number of rows whose key already occurred at an earlier row (pandas' `duplicated().sum()`). */
  function DuplicateCount<K(==)>(keys: seq<K>): (n: nat)
    ensures n <= |keys|
    ensures keys != [] ==> n < |keys|
  {
    if keys == [] then 0
    else DuplicateCount(keys[..|keys| - 1]) + (if keys[|keys| - 1] in keys[..|keys| - 1] then 1 else 0)
  }

  function Distinct<K(==)>(keys: seq<K>): set<K>
  {
    set k | k in keys
  }

  /** Every row is either the first of its key or a duplicate: duplicates = rows - distinct keys. */
  lemma {:induction false} DuplicateCountIsRowsMinusDistinct<K>(keys: seq<K>)
    ensures DuplicateCount(keys) + |Distinct(keys)| == |keys|
  {
    if keys != [] {
      var init := keys[..|keys| - 1];
      var last := keys[|keys| - 1];
      DuplicateCountIsRowsMinusDistinct(init);
      assert keys == init + [last];
      assert Distinct(keys) == Distinct(init) + {last};
      if last in init {
        assert Distinct(keys) == Distinct(init);
      } else {
        assert last !in Distinct(init);
      }
    }
  }

  /** No duplicates are reported exactly when all keys differ. */
  lemma {:induction false} NoDuplicatesIffDistinct<K>(keys: seq<K>)
    ensures DuplicateCount(keys) == 0 <==> forall i, j :: 0 <= i < j < |keys| ==> keys[i] != keys[j]
  {
    if keys != [] {
      var init := keys[..|keys| - 1];
      var last := keys[|keys| - 1];
      NoDuplicatesIffDistinct(init);
      if last in init {
        var i :| 0 <= i < |init| && init[i] == last;
        assert keys[i] == keys[|keys| - 1];
      } else {
        forall i, j | 0 <= i < j < |keys| && DuplicateCount(keys) == 0 ensures keys[i] != keys[j] {
          if j < |keys| - 1 {
            assert keys[i] == init[i] && keys[j] == init[j];
          } else {
            assert keys[i] == init[i];
          }
        }
      }
    }
  }

  /** How pandas compares ids: `True`/`False` equal 1/0, and a float with an integral value equals that int. */
  function IdKey(id: Json): Json
  {
    match id
    case JBool(b) => JInt(if b then 1 else 0)
    case JFloat(x) => if x == x.Floor as real then JInt(x.Floor) else id
    case _ => id
  }

  function IdKeys(records: seq<AnimeRecord>): (keys: seq<Json>)
    ensures |keys| == |records| && forall i :: 0 <= i < |records| ==> keys[i] == IdKey(records[i].animeId)
  {
    seq(|records|, i requires 0 <= i < |records| => IdKey(records[i].animeId))
  }

  /** `score > 0` in pandas: a number above 0 (None compares as NaN, never above 0). */
  predicate PositiveScore(r: AnimeRecord)
  {
    Numeric(r.score).Some? && Numeric(r.score).value > 0.0
  }

  /** The number of records whose score is a number greater than 0. */
  function PositiveScoreCount(records: seq<AnimeRecord>): (n: nat)
    ensures n <= |records|
  {
    if records == [] then 0
    else PositiveScoreCount(records[..|records| - 1]) + (if PositiveScore(records[|records| - 1]) then 1 else 0)
  }

  /** The positions of the records with a positive score. */
  function PositiveScoreRows(records: seq<AnimeRecord>): set<int>
  {
    set i | 0 <= i < |records| && PositiveScore(records[i])
  }

  /** The count is the number of rows whose score is above 0. */
  lemma {:induction false} PositiveScoreCountIsRows(records: seq<AnimeRecord>)
    ensures PositiveScoreCount(records) == |PositiveScoreRows(records)|
  {
    if records != [] {
      var n := |records| - 1;
      var init := records[..n];
      PositiveScoreCountIsRows(init);
      assert forall i :: 0 <= i < n ==> init[i] == records[i];
      assert PositiveScoreRows(init) == PositiveScoreRows(records) - {n};
      if PositiveScore(records[n]) {
        assert PositiveScoreRows(records) == PositiveScoreRows(init) + {n};
      } else {
        assert PositiveScoreRows(records) == PositiveScoreRows(init);
      }
    }
  }

  /** Counting positive scores is additive over concatenation. */
  lemma {:induction false} PositiveScoreCountAppend(a: seq<AnimeRecord>, b: seq<AnimeRecord>)
    ensures PositiveScoreCount(a + b) == PositiveScoreCount(a) + PositiveScoreCount(b)
    decreases |b|
  {
    if b != [] {
      var init := b[..|b| - 1];
      assert (a + b)[..|a + b| - 1] == a + init;
      PositiveScoreCountAppend(a, init);
    } else {
      assert a + b == a;
    }
  }

  /** The number of columns a DataFrame of parsed records has (`extracted_at` included). */
  const RecordColumns: nat := 24

  /** The counting part of `validate_dataframe`'s report. */
  datatype ValidationReport = ValidationReport(
    totalRows: nat,
    totalColumns: nat,
    duplicateAnimeIds: nat,
    rowsWithValidScores: nat)

  /** Python's `validate_dataframe` on the DataFrame of the kept records (it is never called on an empty batch). */
  function ValidateDataframe(records: seq<AnimeRecord>): (rep: ValidationReport)
    requires |records| > 0
    requires forall i :: 0 <= i < |records| ==> ValidateAnimeRecord(records[i]) == Accept
    ensures rep.totalRows == |records| && rep.totalColumns == RecordColumns
    ensures rep.duplicateAnimeIds + |Distinct(IdKeys(records))| == |records|
    ensures rep.rowsWithValidScores == |set i | 0 <= i < |records| && PositiveScore(records[i])|
  {
    DuplicateCountIsRowsMinusDistinct(IdKeys(records));
    PositiveScoreCountIsRows(records);
    ValidationReport(|records|, RecordColumns, DuplicateCount(IdKeys(records)), PositiveScoreCount(records))
  }
}
