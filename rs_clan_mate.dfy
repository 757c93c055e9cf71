/**
 * `ClanMate` of the `com.github.michaelbull.rs` revision: a member of a
 * clan, read from one four-cell row of the clan listing.
 */
module RsClanMate {
  import opened Wrappers
  import opened JavaLang
  import opened RowDecoder

  datatype ClanMate = ClanMate(name: string, rank: string, experience: Int64, kills: Int32)

  /** What the validating constructor admits. */
  predicate Valid(c: ClanMate)
  {
    c.experience >= 0 && c.kills >= 0
  }

  /** `new ClanMate(name, rank, experience, kills)`: IllegalArgumentException for negative numbers. */
  function New(name: string, rank: string, experience: Int64, kills: Int32): (r: Result<ClanMate, Fault>)
    ensures r.Ok? <==> experience >= 0 && kills >= 0
    ensures r.Ok? ==> r.value == ClanMate(name, rank, experience, kills) && Valid(r.value)
    ensures r.Err? ==> r.error == IllegalArgument
  {
    var c := ClanMate(name, rank, experience, kills);
    if Valid(c) then Ok(c) else Err(IllegalArgument)
  }

  /**
   * The deprecated `new ClanMate(CSVRecord)`, the one `Hiscores` uses: name
   * and rank verbatim from cells 0 and 1, experience (long) and kills (int)
   * parsed from cells 2 and 3, then the validating constructor.
   */
  function FromRecord(record: Record): (r: Result<ClanMate, Fault>)
    ensures r.Ok? ==> |record| >= 4 && r.value.name == record[0] && r.value.rank == record[1]
    ensures r.Ok? ==> ParseLong(record[2]) == Ok(r.value.experience) && ParseInt(record[3]) == Ok(r.value.kills)
    ensures r.Ok? ==> Valid(r.value)
    ensures |record| >= 4 ==> (r == Err(NumberFormat) <==> ParseLong(record[2]).Err? || ParseInt(record[3]).Err?)
    ensures |record| >= 4 ==> (r == Err(IllegalArgument) <==>
      ParseLong(record[2]).Ok? && ParseInt(record[3]).Ok? && (ParseLong(record[2]).value < 0 || ParseInt(record[3]).value < 0))
    ensures (|record| >= 4 && ParseLong(record[2]).Ok? && ParseInt(record[3]).Ok? &&
             ParseLong(record[2]).value >= 0 && ParseInt(record[3]).value >= 0) ==> r.Ok?
    ensures |record| < 3 ==> r == Err(IndexOutOfBounds)
    ensures |record| == 3 ==> r == Err(if ParseLong(record[2]).Ok? then IndexOutOfBounds else NumberFormat)
  {
    var name :- Cell(record, 0);
    var rank :- Cell(record, 1);
    var experience :- LongCell(record, 2);
    var kills :- IntCell(record, 3);
    New(name, rank, experience, kills)
  }

  /**
   * `ClanMate.fromCsv`: empty for a row of fewer than four cells or numbers
   * that do not parse; parsed numbers go through the validating constructor,
   * so a negative one raises.
   */
  function FromCsv(record: Record): (r: Result<Option<ClanMate>, Fault>)
    ensures |record| < 4 ==> r == Ok(None)
    ensures |record| >= 4 && (TryParseLong(record[2]).None? || TryParseInt(record[3]).None?) ==> r == Ok(None)
    ensures r.Err? ==> r.error == IllegalArgument
    ensures r.Ok? && r.value.Some? ==> FromRecord(record) == Ok(r.value.value)
    ensures r.Err? <==> (|record| >= 4 && TryParseLong(record[2]).Some? && TryParseInt(record[3]).Some? &&
                         (TryParseLong(record[2]).value < 0 || TryParseInt(record[3]).value < 0))
    ensures (|record| >= 4 && TryParseLong(record[2]).Some? && TryParseInt(record[3]).Some? &&
             TryParseLong(record[2]).value >= 0 && TryParseInt(record[3]).value >= 0) ==>
      r == Ok(Some(ClanMate(record[0], record[1], TryParseLong(record[2]).value, TryParseInt(record[3]).value)))
  {
    if |record| < 4 then Ok(None)
    else
      TryParseAgrees(record[2]);
      TryParseAgrees(record[3]);
      match (TryParseLong(record[2]), TryParseInt(record[3]))
      case (Some(experience), Some(kills)) =>
        var c :- New(record[0], record[1], experience, kills);
        Ok(Some(c))
      case _ => Ok(None)
  }

  /** `equals`: all four fields compared. */
  function Equals(a: ClanMate, b: ClanMate): (r: bool)
    ensures r <==> a == b
  {
    a.experience == b.experience && a.kills == b.kills && a.name == b.name && a.rank == b.rank
  }

  /** The row a clan listing holds for a member. */
  function Encode(c: ClanMate): Record
  {
    [c.name, c.rank, DecimalString(c.experience), DecimalString(c.kills)]
  }

  /** A valid member's row reads back as that member; an invalid one's raises. */
  lemma FromRecordRoundTrip(c: ClanMate)
    ensures Valid(c) ==> FromRecord(Encode(c)) == Ok(c) && FromCsv(Encode(c)) == Ok(Some(c))
    ensures !Valid(c) ==> FromRecord(Encode(c)) == Err(IllegalArgument) && FromCsv(Encode(c)) == Err(IllegalArgument)
  {
    LongDecimalRoundTrip(c.experience);
    IntDecimalRoundTrip(c.kills);
  }
}
