/** `Activity` of the hiscores module (`com.runescape.api`): rank and score in one activity. */
module ApiActivity {
  import opened Wrappers
  import opened JavaLang
  import opened RowDecoder

  datatype Activity = Activity(rank: Int32, score: Int32)

  /** What the validating constructor admits. */
  predicate Valid(a: Activity)
  {
    (a.rank == -1 || a.rank > 0) && a.score >= -1
  }

  /** `new Activity(rank, score)`. */
  function New(rank: Int32, score: Int32): (r: Result<Activity, Fault>)
    ensures r.Ok? <==> (rank == -1 || rank > 0) && score >= -1
    ensures r.Ok? ==> r.value == Activity(rank, score) && Valid(r.value)
    ensures r.Err? ==> r.error == IllegalArgument
  {
    var a := Activity(rank, score);
    if Valid(a) then Ok(a) else Err(IllegalArgument)
  }

  /** `new Activity(CSVRecord)`: cells 0 and 1 as ints, with no range check. */
  function FromRecord(record: Record): (r: Result<Activity, Fault>)
    ensures r.Ok? <==> |record| >= 2 && ParseInt(record[0]).Ok? && ParseInt(record[1]).Ok?
    ensures r.Ok? ==> r.value == Activity(ParseInt(record[0]).value, ParseInt(record[1]).value)
    ensures r.Err? ==> r.error == NumberFormat || r.error == IndexOutOfBounds
  {
    var rank :- IntCell(record, 0);
    var score :- IntCell(record, 1);
    Ok(Activity(rank, score))
  }

  /** `getRank`: empty when unranked. */
  function GetRank(a: Activity): (r: Option<int>)
    ensures r.None? <==> a.rank == -1
    ensures r.Some? ==> r.value == a.rank
  {
    Present(a.rank)
  }

  /** `getScore`: empty only for -1. */
  function GetScore(a: Activity): (r: Option<int>)
    ensures r.None? <==> a.score == -1
    ensures r.Some? ==> r.value == a.score
  {
    Present(a.score)
  }

  /** `equals`: rank and score compared. */
  function Equals(a: Activity, b: Activity): (r: bool)
    ensures r <==> a == b
  {
    a.rank == b.rank && a.score == b.score
  }

  /** The row a hiscores server writes for an activity: rank or -1, score or -1. */
  function Encode(a: Activity): Record
  {
    [DecimalString(GetRank(a).GetOr(-1)), DecimalString(GetScore(a).GetOr(-1))]
  }

  lemma FromRecordRoundTrip(a: Activity)
    ensures FromRecord(Encode(a)) == Ok(a)
  {
    IntDecimalRoundTrip(a.rank);
    IntDecimalRoundTrip(a.score);
  }
}
