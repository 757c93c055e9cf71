/**
 * `Skill` of the `com.github.michaelbull.rs` revision: a player's rank, level
 * and experience in one skill, read from one hiscores CSV row.
 */
module RsSkill {
  import opened Wrappers
  import opened JavaLang
  import opened RowDecoder

  /** The most experience one skill can hold. */
  const MAX_EXPERIENCE: int := 200_000_000

  /** The raw fields; -1 in rank or experience means "unranked". */
  datatype Skill = Skill(rank: Int32, level: Int32, experience: Int64)

  /** What the validating constructor admits. */
  predicate Valid(s: Skill)
  {
    (s.rank == -1 || s.rank > 0) && s.level >= 0 && s.experience >= -1
  }

  /** `new Skill(rank, level, experience)`: IllegalArgumentException unless the values are in range. */
  function New(rank: Int32, level: Int32, experience: Int64): (r: Result<Skill, Fault>)
    ensures r.Ok? <==> (rank == -1 || rank > 0) && level >= 0 && experience >= -1
    ensures r.Ok? ==> r.value == Skill(rank, level, experience) && Valid(r.value)
    ensures r.Err? ==> r.error == IllegalArgument
  {
    var s := Skill(rank, level, experience);
    if Valid(s) then Ok(s) else Err(IllegalArgument)
  }

  /**
   * The deprecated `new Skill(CSVRecord)`, the one `Hiscores` uses: cells 0,
   * 1 and 2 parsed as int, int and long, with no range check.
   */
  function FromRecord(record: Record): (r: Result<Skill, Fault>)
    ensures r.Ok? <==> |record| >= 3 && ParseInt(record[0]).Ok? && ParseInt(record[1]).Ok? && ParseLong(record[2]).Ok?
    ensures r.Ok? ==> r.value == Skill(ParseInt(record[0]).value, ParseInt(record[1]).value, ParseLong(record[2]).value)
    ensures r.Err? ==> r.error == NumberFormat || r.error == IndexOutOfBounds
    ensures r.Err? && |record| >= 3 ==> r.error == NumberFormat
    ensures |record| == 0 ==> r == Err(IndexOutOfBounds)
  {
    var rank :- IntCell(record, 0);
    var level :- IntCell(record, 1);
    var experience :- LongCell(record, 2);
    Ok(Skill(rank, level, experience))
  }

  /**
   * `Skill.fromCsv`: empty for a short row or a cell that does not parse;
   * numbers that parse go through the validating constructor, so a value out
   * of range raises instead of giving empty.
   */
  function FromCsv(record: Record): (r: Result<Option<Skill>, Fault>)
    ensures |record| < 3 ==> r == Ok(None)
    ensures |record| >= 3 && (TryParseInt(record[0]).None? || TryParseInt(record[1]).None? || TryParseLong(record[2]).None?)
      ==> r == Ok(None)
    ensures r.Err? ==> r.error == IllegalArgument
    ensures r.Err? <==> (
      |record| >= 3 && TryParseInt(record[0]).Some? && TryParseInt(record[1]).Some? && TryParseLong(record[2]).Some? &&
      !Valid(Skill(TryParseInt(record[0]).value, TryParseInt(record[1]).value, TryParseLong(record[2]).value)))
    ensures r.Ok? && r.value.Some? ==> Valid(r.value.value) && FromRecord(record) == Ok(r.value.value)
    ensures (|record| >= 3 && TryParseInt(record[0]).Some? && TryParseInt(record[1]).Some? && TryParseLong(record[2]).Some? &&
             Valid(Skill(TryParseInt(record[0]).value, TryParseInt(record[1]).value, TryParseLong(record[2]).value))) ==>
      r == Ok(Some(Skill(TryParseInt(record[0]).value, TryParseInt(record[1]).value, TryParseLong(record[2]).value)))
  {
    if |record| < 3 then Ok(None)
    else
      TryParseAgrees(record[0]);
      TryParseAgrees(record[1]);
      TryParseAgrees(record[2]);
      match (TryParseInt(record[0]), TryParseInt(record[1]), TryParseLong(record[2]))
      case (Some(rank), Some(level), Some(experience)) =>
        var s :- New(rank, level, experience);
        Ok(Some(s))
      case _ => Ok(None)
  }

  /** `getRank`: empty for an unranked skill. */
  function GetRank(s: Skill): (r: Option<int>)
    ensures r.None? <==> s.rank == -1
    ensures r.Some? ==> r.value == s.rank
  {
    Present(s.rank)
  }

  /** `getExperience`: empty for an unranked skill. */
  function GetExperience(s: Skill): (r: Option<int>)
    ensures r.None? <==> s.experience == -1
    ensures r.Some? ==> r.value == s.experience
  {
    Present(s.experience)
  }

  /** `equals`: the three raw fields compared one by one. */
  function Equals(a: Skill, b: Skill): (r: bool)
    ensures r <==> a == b
  {
    a.rank == b.rank && a.level == b.level && a.experience == b.experience
  }

  /** The row a hiscores server writes for a skill: rank or -1, level, experience or -1. */
  function Encode(s: Skill): Record
  {
    [DecimalString(GetRank(s).GetOr(-1)), DecimalString(s.level), DecimalString(GetExperience(s).GetOr(-1))]
  }

  /** The deprecated constructor reads back every skill, valid or not. */
  lemma FromRecordRoundTrip(s: Skill)
    ensures FromRecord(Encode(s)) == Ok(s)
  {
    IntDecimalRoundTrip(s.rank);
    IntDecimalRoundTrip(s.level);
    LongDecimalRoundTrip(s.experience);
  }

  /** `fromCsv` reads back every valid skill and raises on every invalid one. */
  lemma FromCsvRoundTrip(s: Skill)
    ensures Valid(s) ==> FromCsv(Encode(s)) == Ok(Some(s))
    ensures !Valid(s) ==> FromCsv(Encode(s)) == Err(IllegalArgument)
  {
    IntDecimalRoundTrip(s.rank);
    IntDecimalRoundTrip(s.level);
    LongDecimalRoundTrip(s.experience);
  }
}
