/**
 * `HiscoreActivity` of the `com.mikebull94.rsapi` revision: a player's rank
 * and score in one activity (minigame or clue-scroll table), read from one
 * CSV row. The `com.github.michaelbull.rs` revision's `HiscoreActivity` is
 * not part of this model; its `Hiscores` is modelled with this one.
 */
module RsapiHiscoreActivity {
  import opened Wrappers
  import opened JavaLang
  import opened RowDecoder

  datatype HiscoreActivity = HiscoreActivity(rank: Int32, score: Int32)

  /** What the validating constructor admits. */
  predicate Valid(a: HiscoreActivity)
  {
    (a.rank == -1 || a.rank > 0) && a.score >= -1
  }

  /** `new HiscoreActivity(rank, score)`. */
  function New(rank: Int32, score: Int32): (r: Result<HiscoreActivity, Fault>)
    ensures r.Ok? <==> (rank == -1 || rank > 0) && score >= -1
    ensures r.Ok? ==> r.value == HiscoreActivity(rank, score) && Valid(r.value)
    ensures r.Err? ==> r.error == IllegalArgument
  {
    var a := HiscoreActivity(rank, score);
    if Valid(a) then Ok(a) else Err(IllegalArgument)
  }

  /** `new HiscoreActivity(CSVRecord)`: cells 0 and 1 as ints, with no range check. */
  function FromRecord(record: Record): (r: Result<HiscoreActivity, Fault>)
    ensures r.Ok? <==> |record| >= 2 && ParseInt(record[0]).Ok? && ParseInt(record[1]).Ok?
    ensures r.Ok? ==> r.value == HiscoreActivity(ParseInt(record[0]).value, ParseInt(record[1]).value)
    ensures r.Err? ==> r.error == NumberFormat || r.error == IndexOutOfBounds
    ensures r.Err? && |record| >= 2 ==> r.error == NumberFormat
  {
    var rank :- IntCell(record, 0);
    var score :- IntCell(record, 1);
    Ok(HiscoreActivity(rank, score))
  }

  /** `getRank`: empty when unranked. */
  function GetRank(a: HiscoreActivity): (r: Option<int>)
    ensures r.None? <==> a.rank == -1
    ensures r.Some? ==> r.value == a.rank
  {
    Present(a.rank)
  }

  /** `getScore`: empty only for -1, so a score of 0 is present. */
  function GetScore(a: HiscoreActivity): (r: Option<int>)
    ensures r.None? <==> a.score == -1
    ensures r.Some? ==> r.value == a.score
  {
    Present(a.score)
  }

  /** `equals`: rank and score compared. */
  function Equals(a: HiscoreActivity, b: HiscoreActivity): (r: bool)
    ensures r <==> a == b
  {
    a.rank == b.rank && a.score == b.score
  }

  /** The row a hiscores server writes for an activity: rank or -1, score or -1. */
  function Encode(a: HiscoreActivity): Record
  {
    [DecimalString(GetRank(a).GetOr(-1)), DecimalString(GetScore(a).GetOr(-1))]
  }

  lemma FromRecordRoundTrip(a: HiscoreActivity)
    ensures FromRecord(Encode(a)) == Ok(a)
  {
    IntDecimalRoundTrip(a.rank);
    IntDecimalRoundTrip(a.score);
  }
}
