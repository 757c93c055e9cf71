/**
 * `ClanMate` of the hiscores module (`com.runescape.api`): experience and
 * kills as 32-bit ints, stored without validation.
 */
module ApiClanMate {
  import opened Wrappers
  import opened JavaLang
  import opened RowDecoder

  /** The constructor `ClanMate(String, String, int, int)` stores its arguments unchecked. */
  datatype ClanMate = ClanMate(name: string, rank: string, experience: Int32, kills: Int32)

  /** `new ClanMate(CSVRecord)`: cells 0 to 3 as name, rank, int experience and int kills. */
  function FromRecord(record: Record): (r: Result<ClanMate, Fault>)
    ensures r.Ok? <==> |record| >= 4 && ParseInt(record[2]).Ok? && ParseInt(record[3]).Ok?
    ensures r.Ok? ==> r.value == ClanMate(record[0], record[1], ParseInt(record[2]).value, ParseInt(record[3]).value)
    ensures r.Err? && |record| >= 4 ==> r.error == NumberFormat
  {
    var name :- Cell(record, 0);
    var rank :- Cell(record, 1);
    var experience :- IntCell(record, 2);
    var kills :- IntCell(record, 3);
    Ok(ClanMate(name, rank, experience, kills))
  }

  /** The row a clan listing holds for a member. */
  function Encode(c: ClanMate): Record
  {
    [c.name, c.rank, DecimalString(c.experience), DecimalString(c.kills)]
  }

  /** Every member's row reads back as that member. */
  lemma FromRecordRoundTrip(c: ClanMate)
    ensures FromRecord(Encode(c)) == Ok(c)
  {
    IntDecimalRoundTrip(c.experience);
    IntDecimalRoundTrip(c.kills);
  }
}
