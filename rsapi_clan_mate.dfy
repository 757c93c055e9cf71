/** `ClanMate` of the `com.mikebull94.rsapi` revision. */
module RsapiClanMate {
  import opened Wrappers
  import opened JavaLang
  import opened RowDecoder

  /** The getters return these fields unchanged. */
  datatype ClanMate = ClanMate(name: string, rank: string, experience: Int64, kills: Int32)

  /** What the validating constructor admits. */
  predicate Valid(c: ClanMate)
  {
    c.experience >= 0 && c.kills >= 0
  }

  /** `new ClanMate(name, rank, experience, kills)`: IllegalArgumentException for negative numbers. */
  function New(name: string, rank: string, experience: Int64, kills: Int32): (r: Result<ClanMate, Fault>)
    ensures r.Ok? <==> experience >= 0 && kills >= 0
    ensures r.Ok? ==> r.value == ClanMate(name, rank, experience, kills) && Valid(r.value)
    ensures r.Err? ==> r.error == IllegalArgument
  {
    var c := ClanMate(name, rank, experience, kills);
    if Valid(c) then Ok(c) else Err(IllegalArgument)
  }

  /** `new ClanMate(CSVRecord)`: cells 0 to 3 as name, rank, long experience and int kills, then validated. */
  function FromRecord(record: Record): (r: Result<ClanMate, Fault>)
    ensures r.Ok? ==> |record| >= 4 && r.value.name == record[0] && r.value.rank == record[1]
    ensures r.Ok? ==> ParseLong(record[2]) == Ok(r.value.experience) && ParseInt(record[3]) == Ok(r.value.kills)
    ensures r.Ok? ==> Valid(r.value)
    ensures |record| >= 4 ==> (r == Err(NumberFormat) <==> ParseLong(record[2]).Err? || ParseInt(record[3]).Err?)
    ensures |record| >= 4 ==> (r == Err(IllegalArgument) <==>
      ParseLong(record[2]).Ok? && ParseInt(record[3]).Ok? && (ParseLong(record[2]).value < 0 || ParseInt(record[3]).value < 0))
    ensures (|record| >= 4 && ParseLong(record[2]).Ok? && ParseInt(record[3]).Ok? &&
             ParseLong(record[2]).value >= 0 && ParseInt(record[3]).value >= 0) ==> r.Ok?
    ensures |record| < 3 ==> r == Err(IndexOutOfBounds)
    ensures |record| == 3 ==> r == Err(if ParseLong(record[2]).Ok? then IndexOutOfBounds else NumberFormat)
  {
    var name :- Cell(record, 0);
    var rank :- Cell(record, 1);
    var experience :- LongCell(record, 2);
    var kills :- IntCell(record, 3);
    New(name, rank, experience, kills)
  }

  /** `equals`: all four fields compared. */
  function Equals(a: ClanMate, b: ClanMate): (r: bool)
    ensures r <==> a == b
  {
    a.experience == b.experience && a.kills == b.kills && a.name == b.name && a.rank == b.rank
  }

  /** The row a clan listing holds for a member. */
  function Encode(c: ClanMate): Record
  {
    [c.name, c.rank, DecimalString(c.experience), DecimalString(c.kills)]
  }

  /** A valid member's row reads back as that member; an invalid one's raises. */
  lemma FromRecordRoundTrip(c: ClanMate)
    ensures Valid(c) ==> FromRecord(Encode(c)) == Ok(c)
    ensures !Valid(c) ==> FromRecord(Encode(c)) == Err(IllegalArgument)
  {
    LongDecimalRoundTrip(c.experience);
    IntDecimalRoundTrip(c.kills);
  }
}
