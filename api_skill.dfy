/**
 * `Skill` of the hiscores module (`com.runescape.api`): three `int` fields,
 * no validation, and a CSV constructor that parses all three cells as 32-bit
 * ints.
 */
module ApiSkill {
  import opened Wrappers
  import opened JavaLang
  import opened RowDecoder

  /** The constructor `Skill(int, int, int)` stores its arguments unchecked. */
  datatype Skill = Skill(rank: Int32, level: Int32, experience: Int32)

  /** `new Skill(CSVRecord)`: cells 0, 1 and 2, each parsed as an int. */
  function FromRecord(record: Record): (r: Result<Skill, Fault>)
    ensures r.Ok? <==> |record| >= 3 && ParseInt(record[0]).Ok? && ParseInt(record[1]).Ok? && ParseInt(record[2]).Ok?
    ensures r.Ok? ==> r.value == Skill(ParseInt(record[0]).value, ParseInt(record[1]).value, ParseInt(record[2]).value)
    ensures r.Err? ==> r.error == NumberFormat || r.error == IndexOutOfBounds
  {
    var rank :- IntCell(record, 0);
    var level :- IntCell(record, 1);
    var experience :- IntCell(record, 2);
    Ok(Skill(rank, level, experience))
  }

  /** `getRank`: empty for an unranked skill. */
  function GetRank(s: Skill): (r: Option<int>)
    ensures r.None? <==> s.rank == -1
    ensures r.Some? ==> r.value == s.rank
  {
    Present(s.rank)
  }

  /** `getExperience`: empty for an unranked skill. */
  function GetExperience(s: Skill): (r: Option<int>)
    ensures r.None? <==> s.experience == -1
    ensures r.Some? ==> r.value == s.experience
  {
    Present(s.experience)
  }

  /** The row a hiscores server writes for a skill: rank or -1, level, experience or -1. */
  function Encode(s: Skill): Record
  {
    [DecimalString(GetRank(s).GetOr(-1)), DecimalString(s.level), DecimalString(GetExperience(s).GetOr(-1))]
  }

  lemma FromRecordRoundTrip(s: Skill)
    ensures FromRecord(Encode(s)) == Ok(s)
  {
    IntDecimalRoundTrip(s.rank);
    IntDecimalRoundTrip(s.level);
    IntDecimalRoundTrip(s.experience);
  }

  /** Experience beyond 2^31 - 1 is a well-formed long but does not parse as an int. */
  lemma ExperienceOverflow(rank: Int32, level: Int32, experience: Int64)
    requires experience > INT_MAX
    ensures FromRecord([DecimalString(rank), DecimalString(level), DecimalString(experience)]) == Err(NumberFormat)
  {
    IntDecimalRoundTrip(rank);
    IntDecimalRoundTrip(level);
    IntOverflowRejected(experience);
  }
}
