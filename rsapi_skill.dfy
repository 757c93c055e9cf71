/**
 * `Skill` of the `com.mikebull94.rsapi` revision. Its validating constructor
 * is stricter than the later revision's: level and experience must be
 * positive (experience may still be -1). `Hiscores` builds skills with the
 * CSV constructor, which checks nothing.
 */
module RsapiSkill {
  import opened Wrappers
  import opened JavaLang
  import opened RowDecoder

  datatype Skill = Skill(rank: Int32, level: Int32, experience: Int64)

  /** What the validating constructor admits. */
  predicate Valid(s: Skill)
  {
    (s.rank == -1 || s.rank > 0) && s.level > 0 && (s.experience == -1 || s.experience > 0)
  }

  /** `new Skill(rank, level, experience)`. */
  function New(rank: Int32, level: Int32, experience: Int64): (r: Result<Skill, Fault>)
    ensures r.Ok? <==> (rank == -1 || rank > 0) && level > 0 && (experience == -1 || experience > 0)
    ensures r.Ok? ==> r.value == Skill(rank, level, experience) && Valid(r.value)
    ensures r.Err? ==> r.error == IllegalArgument
  {
    var s := Skill(rank, level, experience);
    if Valid(s) then Ok(s) else Err(IllegalArgument)
  }

  /** `new Skill(CSVRecord)`: cells 0, 1 and 2 as int, int and long, with no range check. */
  function FromRecord(record: Record): (r: Result<Skill, Fault>)
    ensures r.Ok? <==> |record| >= 3 && ParseInt(record[0]).Ok? && ParseInt(record[1]).Ok? && ParseLong(record[2]).Ok?
    ensures r.Ok? ==> r.value == Skill(ParseInt(record[0]).value, ParseInt(record[1]).value, ParseLong(record[2]).value)
    ensures r.Err? ==> r.error == NumberFormat || r.error == IndexOutOfBounds
    ensures r.Err? && |record| >= 3 ==> r.error == NumberFormat
    ensures |record| == 0 ==> r == Err(IndexOutOfBounds)
  {
    var rank :- IntCell(record, 0);
    var level :- IntCell(record, 1);
    var experience :- LongCell(record, 2);
    Ok(Skill(rank, level, experience))
  }

  /** `getRank`: empty for an unranked skill. */
  function GetRank(s: Skill): (r: Option<int>)
    ensures r.None? <==> s.rank == -1
    ensures r.Some? ==> r.value == s.rank
  {
    Present(s.rank)
  }

  /** `getExperience`: empty for an unranked skill. */
  function GetExperience(s: Skill): (r: Option<int>)
    ensures r.None? <==> s.experience == -1
    ensures r.Some? ==> r.value == s.experience
  {
    Present(s.experience)
  }

  /** `equals`: the three raw fields compared one by one. */
  function Equals(a: Skill, b: Skill): (r: bool)
    ensures r <==> a == b
  {
    a.rank == b.rank && a.level == b.level && a.experience == b.experience
  }

  /** The row a hiscores server writes for a skill: rank or -1, level, experience or -1. */
  function Encode(s: Skill): Record
  {
    [DecimalString(GetRank(s).GetOr(-1)), DecimalString(s.level), DecimalString(GetExperience(s).GetOr(-1))]
  }

  /** The CSV constructor reads back every skill, including ones the validating constructor rejects. */
  lemma FromRecordRoundTrip(s: Skill)
    ensures FromRecord(Encode(s)) == Ok(s)
  {
    IntDecimalRoundTrip(s.rank);
    IntDecimalRoundTrip(s.level);
    LongDecimalRoundTrip(s.experience);
  }

  /** The validating constructor rejects level 0, while the CSV constructor reads a level-0 row unchecked. */
  lemma LevelZeroRejected(rank: Int32, experience: Int64)
    ensures New(rank, 0, experience) == Err(IllegalArgument)
    ensures FromRecord(Encode(Skill(rank, 0, experience))) == Ok(Skill(rank, 0, experience))
  {
    FromRecordRoundTrip(Skill(rank, 0, experience));
  }
}
