/**
 * The positional CSV decoding shared by the three revisions of `Hiscores`.
 *
 * A player's hiscore table arrives as CSV rows: one row per skill, in the
 * order of the table's skill names, then one row per activity, in the order of
 * its activity names. `readSkills` binds skill name i to the decoding of row i,
 * `readActivities` binds activity name i to the decoding of row M + i (M being
 * the number of skills), and each puts its entries into an `ImmutableMap`
 * builder. The clan listing is a header row followed by one row per member.
 * The revisions differ only in the guards around these loops and in which
 * exceptions they catch; they are thin wrappers over this module.
 */
module RowDecoder {
  import opened Wrappers
  import opened JavaLang
  import opened ImmutableMaps

  /** A CSV record: its cells in order. */
  type Record = seq<string>

  /** `CSVRecord.get(k)`, which raises past the last cell. */
  function Cell(record: Record, k: nat): (r: Result<string, Fault>)
    ensures r.Ok? <==> k < |record|
    ensures r.Ok? ==> r.value == record[k]
    ensures r.Err? ==> r.error == IndexOutOfBounds
  {
    if k < |record| then Ok(record[k]) else Err(IndexOutOfBounds)
  }

  /** `Integer.parseInt(record.get(k))`: the cell is fetched first, then parsed. */
  function IntCell(record: Record, k: nat): (r: Result<Int32, Fault>)
    ensures r.Ok? <==> k < |record| && ParseInt(record[k]).Ok?
    ensures r.Ok? ==> r.value == ParseInt(record[k]).value
    ensures r.Err? ==> r.error == if k < |record| then NumberFormat else IndexOutOfBounds
  {
    var cell :- Cell(record, k);
    var n :- ParseInt(cell);
    Ok(n)
  }

  /** `Long.parseLong(record.get(k))`. */
  function LongCell(record: Record, k: nat): (r: Result<Int64, Fault>)
    ensures r.Ok? <==> k < |record| && ParseLong(record[k]).Ok?
    ensures r.Ok? ==> r.value == ParseLong(record[k]).value
    ensures r.Err? ==> r.error == if k < |record| then NumberFormat else IndexOutOfBounds
  {
    var cell :- Cell(record, k);
    var n :- ParseLong(cell);
    Ok(n)
  }

  /** The wire convention of the hiscores: -1 stands for "unranked", which the getters report as absent. */
  function Present(raw: int): (r: Option<int>)
    ensures r.None? <==> raw == -1
    ensures r.Some? ==> r.value == raw
  {
    if raw == -1 then None else Some(raw)
  }

  /** What a `HiscoreTable` tells the decoder: its service name and its two ordered name lists. */
  datatype Schema = Schema(name: string, skillNames: seq<string>, activityNames: seq<string>)

  /** A decoded player: skill and activity maps in schema order. */
  datatype Player<S, A> = Player(skills: Entries<string, S>, activities: Entries<string, A>)

  /** Decoding of record `i`; `ImmutableList.get` raises past the last record. */
  function RowAt<V>(records: seq<Record>, i: nat, decode: Record -> Result<V, Fault>): Result<V, Fault>
  {
    if i < |records| then decode(records[i]) else Err(IndexOutOfBounds)
  }

  /**
   * The puts of the loop in `readSkills`/`readActivities`: `names[i]` bound to
   * the decoding of record `offset + i`, for i ascending; the first failure
   * aborts the loop.
   */
  function Bound<V>(records: seq<Record>, names: seq<string>, offset: nat, decode: Record -> Result<V, Fault>)
    : Result<Entries<string, V>, Fault>
    decreases |names|
  {
    if |names| == 0 then Ok([])
    else
      var v :- RowAt(records, offset, decode);
      var rest :- Bound(records, names[1..], offset + 1, decode);
      Ok([(names[0], v)] + rest)
  }

  /** The loop followed by `builder.build()`. */
  function BuildBound<V>(records: seq<Record>, names: seq<string>, offset: nat, decode: Record -> Result<V, Fault>)
    : Result<Entries<string, V>, Fault>
  {
    var puts :- Bound(records, names, offset, decode);
    Build(puts)
  }

  /** Entries `done` followed by whatever `rest` yields, or the fault of `rest`. */
  function Prepend<T>(done: seq<T>, rest: Result<seq<T>, Fault>): Result<seq<T>, Fault>
  {
    match rest
    case Ok(more) => Ok(done + more)
    case Err(f) => Err(f)
  }

  /**
   * The loop of `readSkills` (offset 0) and `readActivities` (offset M): one
   * `put` per name, then `build()`.
   */
  method ReadEntries<V>(records: seq<Record>, names: seq<string>, offset: nat, decode: Record -> Result<V, Fault>)
    returns (r: Result<Entries<string, V>, Fault>)
    ensures r == BuildBound(records, names, offset, decode)
  {
    var puts: Entries<string, V> := [];
    var i := 0;
    assert names[0..] == names;
    PrependNothing(Bound(records, names, offset, decode));
    while i < |names|
      invariant 0 <= i <= |names|
      invariant Bound(records, names, offset, decode) == Prepend(puts, Bound(records, names[i..], offset + i, decode))
    {
      assert names[i..][1..] == names[i + 1..];
      var row := RowAt(records, offset + i, decode);
      if row.Err? {
        return Err(row.error);
      }
      assert puts + [(names[i], row.value)] + [] == puts + [(names[i], row.value)];
      PrependTwice(puts, (names[i], row.value), Bound(records, names[i + 1..], offset + i + 1, decode));
      puts := puts + [(names[i], row.value)];
      i := i + 1;
    }
    assert names[i..] == [];
    assert puts + [] == puts;
    r := Build(puts);
  }

  lemma PrependNothing<T>(rest: Result<seq<T>, Fault>)
    ensures Prepend([], rest) == rest
  {
    if rest.Ok? {
      assert [] + rest.value == rest.value;
    }
  }

  lemma PrependTwice<T>(done: seq<T>, x: T, rest: Result<seq<T>, Fault>)
    ensures Prepend(done, Prepend([x], rest)) == Prepend(done + [x], rest)
  {
    if rest.Ok? {
      assert done + ([x] + rest.value) == done + [x] + rest.value;
    }
  }

  /**
   * Everything `playerInformation` does inside its `try` block: `readSkills`,
   * then `readActivities`, then `new Player`.
   */
  function Decode<S, A>(records: seq<Record>, schema: Schema, decodeSkill: Record -> Result<S, Fault>,
                        decodeActivity: Record -> Result<A, Fault>): Result<Player<S, A>, Fault>
  {
    var skills :- BuildBound(records, schema.skillNames, 0, decodeSkill);
    var activities :- BuildBound(records, schema.activityNames, |schema.skillNames|, decodeActivity);
    Ok(Player(skills, activities))
  }

  /** How the `catch` clause of `playerInformation` turns the outcome into an Optional. */
  function Catching<T>(outcome: Result<T, Fault>, caught: Fault -> bool): (r: Result<Option<T>, Fault>)
    ensures r == Ok(None) <==> outcome.Err? && caught(outcome.error)
    ensures r.Err? <==> outcome.Err? && !caught(outcome.error)
    ensures outcome.Ok? ==> r == Ok(Some(outcome.value))
  {
    match outcome
    case Ok(v) => Ok(Some(v))
    case Err(f) => if caught(f) then Ok(None) else Err(f)
  }

  /** The `catch (NumberFormatException ignored)` clause. */
  predicate IsNumberFormat(f: Fault) { f == NumberFormat }

  /** The `catch (Exception e)` clause. */
  predicate AnyFault(f: Fault) { true }

  // -------------------------------------------------------------------------
  // Properties of the positional decoder

  /** A successful loop bound name i to the decoding of record offset + i. */
  lemma {:induction false} BoundAt<V>(records: seq<Record>, names: seq<string>, offset: nat,
                                      decode: Record -> Result<V, Fault>, i: nat)
    requires Bound(records, names, offset, decode).Ok? && i < |names|
    ensures |Bound(records, names, offset, decode).value| == |names|
    ensures offset + i < |records| && decode(records[offset + i]).Ok?
    ensures Bound(records, names, offset, decode).value[i] == (names[i], decode(records[offset + i]).value)
    decreases |names|
  {
    var rest := Bound(records, names[1..], offset + 1, decode);
    assert rest.Ok? && Bound(records, names, offset, decode).value == [(names[0], decode(records[offset]).value)] + rest.value;
    if i > 0 {
      BoundAt(records, names[1..], offset + 1, decode, i - 1);
    } else if |names| > 1 {
      BoundAt(records, names[1..], offset + 1, decode, 0);
    }
  }

  /** A successful loop put exactly the names, in order, each bound to its own record. */
  lemma BoundBinds<V>(records: seq<Record>, names: seq<string>, offset: nat, decode: Record -> Result<V, Fault>)
    requires Bound(records, names, offset, decode).Ok?
    ensures |Bound(records, names, offset, decode).value| == |names|
    ensures Keys(Bound(records, names, offset, decode).value) == names
    ensures |names| > 0 ==> offset + |names| <= |records|
    ensures forall i :: 0 <= i < |names| ==>
      decode(records[offset + i]) == Ok(Bound(records, names, offset, decode).value[i].1)
  {
    var e := Bound(records, names, offset, decode).value;
    if |names| > 0 {
      BoundAt(records, names, offset, decode, |names| - 1);
    } else {
      assert e == [];
    }
    forall i | 0 <= i < |names|
      ensures decode(records[offset + i]) == Ok(e[i].1)
      ensures Keys(e)[i] == names[i]
    {
      BoundAt(records, names, offset, decode, i);
    }
    assert Keys(e) == names;
  }

  /** When every record in range decodes, the loop puts every name with its decoding. */
  lemma {:induction false} BoundOfRows<V>(records: seq<Record>, names: seq<string>, offset: nat,
                                          decode: Record -> Result<V, Fault>, values: seq<V>)
    requires |values| == |names| && offset + |names| <= |records|
    requires forall i :: 0 <= i < |names| ==> decode(records[offset + i]) == Ok(values[i])
    ensures Bound(records, names, offset, decode) == Ok(Zip(names, values))
    decreases |names|
  {
    if |names| > 0 {
      var tailNames, tailValues := names[1..], values[1..];
      forall i | 0 <= i < |tailNames| ensures decode(records[offset + 1 + i]) == Ok(tailValues[i]) {
        assert decode(records[offset + (i + 1)]) == Ok(values[i + 1]);
      }
      BoundOfRows(records, tailNames, offset + 1, decode, tailValues);
      assert RowAt(records, offset, decode) == Ok(values[0]) by {
        assert decode(records[offset + 0]) == Ok(values[0]);
      }
      ZipCons(names, values);
    }
  }

  /** Zipping a non-empty pair of sequences puts their heads first. */
  lemma ZipCons<K, V>(names: seq<K>, values: seq<V>)
    requires |names| == |values| > 0
    ensures Zip(names, values) == [(names[0], values[0])] + Zip(names[1..], values[1..])
  {
  }

  /** Which record the loop reads first decides the fault: a record past the end is an index fault. */
  lemma {:induction false} BoundShort<V>(records: seq<Record>, names: seq<string>, offset: nat,
                                         decode: Record -> Result<V, Fault>)
    requires |names| > 0 && offset + |names| > |records|
    ensures Bound(records, names, offset, decode).Err?
    decreases |names|
  {
    if offset < |records| && RowAt(records, offset, decode).Ok? {
      assert |names| > 1;
      BoundShort(records, names[1..], offset + 1, decode);
    }
  }

  /** The loop reads no record outside [offset, offset + |names|). */
  lemma {:induction false} BoundWindow<V>(records: seq<Record>, other: seq<Record>, names: seq<string>, offset: nat,
                                          decode: Record -> Result<V, Fault>)
    requires offset + |names| <= |records| && offset + |names| <= |other|
    requires records[offset..offset + |names|] == other[offset..offset + |names|]
    ensures Bound(records, names, offset, decode) == Bound(other, names, offset, decode)
    decreases |names|
  {
    if |names| > 0 {
      assert records[offset] == records[offset..offset + |names|][0];
      assert other[offset] == other[offset..offset + |names|][0];
      assert records[offset + 1..offset + |names|] == records[offset..offset + |names|][1..];
      assert other[offset + 1..offset + |names|] == other[offset..offset + |names|][1..];
      BoundWindow(records, other, names[1..], offset + 1, decode);
    }
  }

  /** A fault of the loop is a row missing from a short table, or the fault of one of the rows it reads. */
  lemma {:induction false} BoundFaults<V>(records: seq<Record>, names: seq<string>, offset: nat,
                                          decode: Record -> Result<V, Fault>)
    requires Bound(records, names, offset, decode).Err?
    ensures var f := Bound(records, names, offset, decode).error;
      (f == IndexOutOfBounds && |records| < offset + |names|) ||
      exists i :: offset <= i < offset + |names| && i < |records| && decode(records[i]) == Err(f)
    decreases |names|
  {
    if RowAt(records, offset, decode).Ok? {
      BoundFaults(records, names[1..], offset + 1, decode);
    }
  }

  /**
   * A fault of `playerInformation`'s `try` block is a row missing from a short
   * table, the duplicate key that `build` rejects, or the fault of a skill row
   * or of an activity row.
   */
  lemma DecodeFaults<S, A>(records: seq<Record>, schema: Schema, decodeSkill: Record -> Result<S, Fault>,
                           decodeActivity: Record -> Result<A, Fault>)
    requires Decode(records, schema, decodeSkill, decodeActivity).Err?
    ensures var f := Decode(records, schema, decodeSkill, decodeActivity).error;
      var m, a := |schema.skillNames|, |schema.activityNames|;
      (f == IndexOutOfBounds && |records| < m + a) ||
      (f == IllegalArgument && !(Distinct(schema.skillNames) && Distinct(schema.activityNames))) ||
      (exists i :: 0 <= i < m && i < |records| && decodeSkill(records[i]) == Err(f)) ||
      (exists i :: m <= i < m + a && i < |records| && decodeActivity(records[i]) == Err(f))
  {
    var m := |schema.skillNames|;
    var skills := Bound(records, schema.skillNames, 0, decodeSkill);
    if skills.Err? {
      BoundFaults(records, schema.skillNames, 0, decodeSkill);
    } else {
      BoundBinds(records, schema.skillNames, 0, decodeSkill);
      if Build(skills.value).Ok? {
        var activities := Bound(records, schema.activityNames, m, decodeActivity);
        if activities.Err? {
          BoundFaults(records, schema.activityNames, m, decodeActivity);
        } else {
          BoundBinds(records, schema.activityNames, m, decodeActivity);
        }
      }
    }
  }

  /** One row that does not decode makes the whole loop fail: no partial map is built. */
  lemma {:induction false} BoundRowFails<V>(records: seq<Record>, names: seq<string>, offset: nat,
                                            decode: Record -> Result<V, Fault>, i: nat)
    requires offset <= i < offset + |names| && i < |records| && decode(records[i]).Err?
    ensures Bound(records, names, offset, decode).Err?
    decreases |names|
  {
    if i > offset && RowAt(records, offset, decode).Ok? {
      BoundRowFails(records, names[1..], offset + 1, decode, i);
    }
  }

  /** One skill or activity row that does not decode makes the whole `try` block fail. */
  lemma DecodeRowFails<S, A>(records: seq<Record>, schema: Schema, decodeSkill: Record -> Result<S, Fault>,
                             decodeActivity: Record -> Result<A, Fault>, i: nat)
    requires i < |records|
    requires (i < |schema.skillNames| && decodeSkill(records[i]).Err?) ||
             (|schema.skillNames| <= i < |schema.skillNames| + |schema.activityNames| && decodeActivity(records[i]).Err?)
    ensures Decode(records, schema, decodeSkill, decodeActivity).Err?
  {
    var m := |schema.skillNames|;
    if i < m {
      BoundRowFails(records, schema.skillNames, 0, decodeSkill, i);
    } else if BuildBound(records, schema.skillNames, 0, decodeSkill).Ok? {
      BoundRowFails(records, schema.activityNames, m, decodeActivity, i);
    }
  }

  /** A successful loop and build put exactly the names, none twice, each bound to its own record. */
  lemma BuildBoundBinds<V>(records: seq<Record>, names: seq<string>, offset: nat, decode: Record -> Result<V, Fault>)
    requires BuildBound(records, names, offset, decode).Ok?
    ensures var e := BuildBound(records, names, offset, decode).value;
      Keys(e) == names && Distinct(names) && (|names| > 0 ==> offset + |names| <= |records|) &&
      forall i :: 0 <= i < |names| ==> decode(records[offset + i]) == Ok(e[i].1)
  {
    var puts := Bound(records, names, offset, decode);
    assert puts.Ok? && BuildBound(records, names, offset, decode) == Ok(puts.value);
    BoundBinds(records, names, offset, decode);
  }

  /**
   * A decoded player holds exactly the schema's names, once each and in schema
   * order; skill i is the decoding of record i and activity i that of record
   * M + i.
   */
  lemma DecodeBinds<S, A>(records: seq<Record>, schema: Schema, decodeSkill: Record -> Result<S, Fault>,
                          decodeActivity: Record -> Result<A, Fault>)
    requires Decode(records, schema, decodeSkill, decodeActivity).Ok?
    ensures var p := Decode(records, schema, decodeSkill, decodeActivity).value;
      var m := |schema.skillNames|;
      Keys(p.skills) == schema.skillNames && Keys(p.activities) == schema.activityNames &&
      Distinct(schema.skillNames) && Distinct(schema.activityNames) &&
      |records| >= m + |schema.activityNames| &&
      (forall i :: 0 <= i < m ==> decodeSkill(records[i]) == Ok(p.skills[i].1)) &&
      (forall i :: 0 <= i < |schema.activityNames| ==> decodeActivity(records[m + i]) == Ok(p.activities[i].1))
  {
    var m := |schema.skillNames|;
    var skills := BuildBound(records, schema.skillNames, 0, decodeSkill);
    var activities := BuildBound(records, schema.activityNames, m, decodeActivity);
    assert skills.Ok? && activities.Ok?;
    assert Decode(records, schema, decodeSkill, decodeActivity).value == Player(skills.value, activities.value);
    BuildBoundBinds(records, schema.skillNames, 0, decodeSkill);
    BuildBoundBinds(records, schema.activityNames, m, decodeActivity);
    forall i | 0 <= i < m ensures decodeSkill(records[i]) == Ok(skills.value[i].1) {
      assert 0 + i == i;
    }
  }

  /**
   * All or nothing: the decoding succeeds exactly when every schema row is
   * present and decodes and neither name list repeats a name; it then holds
   * every row's value.
   */
  lemma DecodeSucceeds<S, A>(records: seq<Record>, schema: Schema, decodeSkill: Record -> Result<S, Fault>,
                             decodeActivity: Record -> Result<A, Fault>, skills: seq<S>, activities: seq<A>)
    requires |skills| == |schema.skillNames| && |activities| == |schema.activityNames|
    requires |records| >= |skills| + |activities|
    requires Distinct(schema.skillNames) && Distinct(schema.activityNames)
    requires forall i :: 0 <= i < |skills| ==> decodeSkill(records[i]) == Ok(skills[i])
    requires forall i :: 0 <= i < |activities| ==> decodeActivity(records[|skills| + i]) == Ok(activities[i])
    ensures Decode(records, schema, decodeSkill, decodeActivity)
         == Ok(Player(Zip(schema.skillNames, skills), Zip(schema.activityNames, activities)))
  {
    BoundOfRows(records, schema.skillNames, 0, decodeSkill, skills);
    BoundOfRows(records, schema.activityNames, |skills|, decodeActivity, activities);
  }

  /** A table shorter than M + A never decodes. */
  lemma DecodeShort<S, A>(records: seq<Record>, schema: Schema, decodeSkill: Record -> Result<S, Fault>,
                          decodeActivity: Record -> Result<A, Fault>)
    requires |records| < |schema.skillNames| + |schema.activityNames|
    ensures Decode(records, schema, decodeSkill, decodeActivity).Err?
  {
    if |records| < |schema.skillNames| {
      BoundShort(records, schema.skillNames, 0, decodeSkill);
    } else {
      BoundShort(records, schema.activityNames, |schema.skillNames|, decodeActivity);
    }
  }

  /** Rows at index M + A and beyond are never read. */
  lemma DecodeIgnoresTail<S, A>(records: seq<Record>, schema: Schema, decodeSkill: Record -> Result<S, Fault>,
                                decodeActivity: Record -> Result<A, Fault>)
    requires |records| >= |schema.skillNames| + |schema.activityNames|
    ensures var n := |schema.skillNames| + |schema.activityNames|;
      Decode(records, schema, decodeSkill, decodeActivity) == Decode(records[..n], schema, decodeSkill, decodeActivity)
  {
    var m, n := |schema.skillNames|, |schema.skillNames| + |schema.activityNames|;
    assert records[0..m] == records[..n][0..m];
    assert records[m..n] == records[..n][m..n];
    BoundWindow(records, records[..n], schema.skillNames, 0, decodeSkill);
    BoundWindow(records, records[..n], schema.activityNames, m, decodeActivity);
  }

  /** The records a test server writes for the given values, one encoded record per value. */
  function Rendered<T>(values: seq<T>, encode: T -> Record): (rows: seq<Record>)
    ensures |rows| == |values|
    ensures forall i :: 0 <= i < |values| ==> rows[i] == encode(values[i])
  {
    seq(|values|, i requires 0 <= i < |values| => encode(values[i]))
  }

  /**
   * Round trip: rendering the skills and then the activities in schema order
   * and decoding the rows gives back a player holding those values.
   */
  lemma DecodeRendered<S, A>(schema: Schema, skills: seq<S>, activities: seq<A>,
                             decodeSkill: Record -> Result<S, Fault>, decodeActivity: Record -> Result<A, Fault>,
                             encodeSkill: S -> Record, encodeActivity: A -> Record)
    requires |skills| == |schema.skillNames| && |activities| == |schema.activityNames|
    requires Distinct(schema.skillNames) && Distinct(schema.activityNames)
    requires forall i :: 0 <= i < |skills| ==> decodeSkill(encodeSkill(skills[i])) == Ok(skills[i])
    requires forall i :: 0 <= i < |activities| ==> decodeActivity(encodeActivity(activities[i])) == Ok(activities[i])
    ensures Decode(Rendered(skills, encodeSkill) + Rendered(activities, encodeActivity), schema, decodeSkill, decodeActivity)
         == Ok(Player(Zip(schema.skillNames, skills), Zip(schema.activityNames, activities)))
  {
    var records := Rendered(skills, encodeSkill) + Rendered(activities, encodeActivity);
    forall i | 0 <= i < |activities|
      ensures decodeActivity(records[|skills| + i]) == Ok(activities[i])
    {
      assert records[|skills| + i] == encodeActivity(activities[i]);
    }
    DecodeSucceeds(records, schema, decodeSkill, decodeActivity, skills, activities);
  }

  // -------------------------------------------------------------------------
  // Clan rows

  /**
   * What the loop of `clanInformation` adds for the given rows: each row of
   * exactly four cells that decodes, in row order; a row whose numbers do not
   * parse is dropped; any other fault aborts the loop.
   */
  function Members<C>(rows: seq<Record>, decode: Record -> Result<C, Fault>): Result<seq<C>, Fault>
  {
    if |rows| == 0 then Ok([])
    else if |rows[0]| != 4 then Members(rows[1..], decode)
    else
      match decode(rows[0])
      case Ok(c) => Prepend([c], Members(rows[1..], decode))
      case Err(f) => if f == NumberFormat then Members(rows[1..], decode) else Err(f)
  }

  /** The records after the header row. */
  function Body(records: seq<Record>): seq<Record>
  {
    if |records| == 0 then [] else records[1..]
  }

  /** The loop of `clanInformation`, starting after the header row. */
  method ReadClan<C>(records: seq<Record>, decode: Record -> Result<C, Fault>) returns (r: Result<seq<C>, Fault>)
    ensures r == Members(Body(records), decode)
  {
    var mates: seq<C> := [];
    var i := 1;
    PrependNothing(Members(Body(records), decode));
    while i < |records|
      invariant 1 <= i <= |records| || |records| == 0
      invariant Members(Body(records), decode) == Prepend(mates, Members(if |records| == 0 then [] else records[i..], decode))
    {
      var record := records[i];
      assert records[i..][1..] == records[i + 1..];
      if |record| == 4 {
        var c := decode(record);
        if c.Ok? {
          PrependTwice(mates, c.value, Members(records[i + 1..], decode));
          mates := mates + [c.value];
        } else if c.error != NumberFormat {
          return Err(c.error);
        }
      }
      i := i + 1;
    }
    assert |records| == 0 || records[i..] == [];
    assert mates + [] == mates;
    r := Ok(mates);
  }

  /** The header row is never looked at. */
  lemma ClanSkipsHeader<C>(records: seq<Record>, header: Record, decode: Record -> Result<C, Fault>)
    requires |records| > 0
    ensures Members(Body(records), decode) == Members(Body([header] + records[1..]), decode)
  {
    assert ([header] + records[1..])[1..] == records[1..];
  }

  /** The members of consecutive row blocks are concatenated in row order; the first fault wins. */
  lemma {:induction false} MembersAppend<C>(a: seq<Record>, b: seq<Record>, decode: Record -> Result<C, Fault>)
    ensures Members(a + b, decode) == match Members(a, decode)
      case Ok(x) => Prepend(x, Members(b, decode))
      case Err(f) => Err(f)
  {
    if |a| == 0 {
      assert a + b == b;
      match Members(b, decode)
      case Ok(y) => assert [] + y == y;
      case Err(_) =>
    } else {
      assert (a + b)[1..] == a[1..] + b;
      assert (a + b)[0] == a[0];
      MembersAppend(a[1..], b, decode);
      if |a[0]| == 4 && decode(a[0]).Ok? && Members(a[1..], decode).Ok? && Members(b, decode).Ok? {
        var c, x, y := decode(a[0]).value, Members(a[1..], decode).value, Members(b, decode).value;
        assert [c] + (x + y) == ([c] + x) + y;
      }
    }
  }

  /** A single row contributes its decoding, nothing (wrong width or unparsable numbers), or its fault. */
  lemma MembersOfRow<C>(row: Record, decode: Record -> Result<C, Fault>)
    ensures |row| != 4 ==> Members([row], decode) == Ok([])
    ensures |row| == 4 && decode(row) == Err(NumberFormat) ==> Members([row], decode) == Ok([])
    ensures |row| == 4 && decode(row).Ok? ==> Members([row], decode) == Ok([decode(row).value])
    ensures |row| == 4 && decode(row).Err? && decode(row).error != NumberFormat ==> Members([row], decode) == Err(decode(row).error)
  {
    assert [row][1..] == [];
    if |row| == 4 && decode(row).Ok? {
      assert [decode(row).value] + [] == [decode(row).value];
    }
  }

  /** Removing a row that is skipped or dropped does not change the outcome. */
  lemma MembersWithout<C>(a: seq<Record>, row: Record, b: seq<Record>, decode: Record -> Result<C, Fault>)
    requires |row| != 4 || decode(row) == Err(NumberFormat)
    ensures Members(a + [row] + b, decode) == Members(a + b, decode)
  {
    MembersOfRow(row, decode);
    MembersAppend([row], b, decode);
    MembersAppend(a, [row] + b, decode);
    MembersAppend(a, b, decode);
    assert a + [row] + b == a + ([row] + b);
    match Members(b, decode)
    case Ok(y) => assert [] + y == y;
    case Err(_) =>
  }

  /** Round trip: a clan listing written as four-cell rows decodes to exactly its members, in order. */
  lemma {:induction false} MembersRendered<C>(mates: seq<C>, decode: Record -> Result<C, Fault>, encode: C -> Record)
    requires forall i :: 0 <= i < |mates| ==> |encode(mates[i])| == 4 && decode(encode(mates[i])) == Ok(mates[i])
    ensures Members(Rendered(mates, encode), decode) == Ok(mates)
    decreases |mates|
  {
    if |mates| > 0 {
      var rows := Rendered(mates, encode);
      assert rows[1..] == Rendered(mates[1..], encode);
      MembersRendered(mates[1..], decode, encode);
      assert [mates[0]] + mates[1..] == mates;
    }
  }

  /** Every clan mate in the outcome was decoded from one of the rows of exactly four cells. */
  lemma {:induction false} MembersFrom<C>(rows: seq<Record>, decode: Record -> Result<C, Fault>)
    requires Members(rows, decode).Ok?
    ensures var cs := Members(rows, decode).value;
      forall k :: 0 <= k < |cs| ==> exists j :: 0 <= j < |rows| && |rows[j]| == 4 && decode(rows[j]) == Ok(cs[k])
    decreases |rows|
  {
    if |rows| > 0 {
      var cs := Members(rows, decode).value;
      var tail := Members(rows[1..], decode).value;
      MembersFrom(rows[1..], decode);
      var kept := |rows[0]| == 4 && decode(rows[0]).Ok?;
      assert cs == (if kept then [decode(rows[0]).value] + tail else tail);
      forall k | 0 <= k < |cs|
        ensures exists j :: 0 <= j < |rows| && |rows[j]| == 4 && decode(rows[j]) == Ok(cs[k])
      {
        if kept && k == 0 {
          assert |rows[0]| == 4 && decode(rows[0]) == Ok(cs[0]);
        } else {
          var t := if kept then k - 1 else k;
          assert cs[k] == tail[t];
          var j :| 0 <= j < |rows[1..]| && |rows[1..][j]| == 4 && decode(rows[1..][j]) == Ok(tail[t]);
          assert rows[1..][j] == rows[j + 1];
        }
      }
    }
  }

  /** When a four-cell row can only fail on an unparsable number, the listing never fails. */
  lemma {:induction false} MembersNeverFail<C>(rows: seq<Record>, decode: Record -> Result<C, Fault>)
    requires forall row :: |row| == 4 && decode(row).Err? ==> decode(row).error == NumberFormat
    ensures Members(rows, decode).Ok?
    decreases |rows|
  {
    if |rows| > 0 {
      MembersNeverFail(rows[1..], decode);
    }
  }
}
