// The hiscores service of the com.runescape.api modules: the decoding of the
// player and clan tables the service returns.

module ApiHiscores {
  import opened Wrappers
  import opened JavaLang
  import opened ImmutableMaps
  import opened RowDecoder
  import ApiSkill
  import ApiActivity
  import ApiClanMate
  import RsapiHiscores

  // The four name lists of this module are, name for name and in the same
  // order, those of the com.mikebull94.rsapi revision.

  /** The skills of the modern game. */
  const SKILL_NAMES: seq<string> := RsapiHiscores.SKILL_NAMES
  /** The skills of the oldschool game. */
  const OLDSCHOOL_SKILL_NAMES: seq<string> := RsapiHiscores.OLDSCHOOL_SKILL_NAMES
  /** The activities of the modern game. */
  const ACTIVITY_NAMES: seq<string> := RsapiHiscores.ACTIVITY_NAMES
  /** The activities of the oldschool game. */
  const OLDSCHOOL_ACTIVITY_NAMES: seq<string> := RsapiHiscores.OLDSCHOOL_ACTIVITY_NAMES

  // -------------------------------------------------------------------------
  // Player tables

  /** A player as the service describes one: skill and activity rankings by name. */
  type HiscorePlayer = Player<ApiSkill.Skill, ApiActivity.Activity>

  /**
   * What `playerInformation` answers for the rows the service returned: the
   * player when every skill and activity row decodes, and no player for any
   * fault at all, a missing row included, since the `catch` takes every
   * exception.
   */
  function PlayerOutcome(records: seq<Record>, schema: Schema): Option<HiscorePlayer>
  {
    match Decode(records, schema, ApiSkill.FromRecord, ApiActivity.FromRecord)
    case Ok(p) => Some(p)
    case Err(_) => None
  }

  /**
   * `playerInformation` with `readSkills` and `readActivities`, from the rows
   * fetched for the player onwards; neither reader checks the row count.
   */
  method PlayerInformation(records: seq<Record>, schema: Schema) returns (r: Option<HiscorePlayer>)
    ensures r == PlayerOutcome(records, schema)
  {
    var skills := ReadEntries(records, schema.skillNames, 0, ApiSkill.FromRecord);
    if skills.Err? {
      return None;
    }
    var activities := ReadEntries(records, schema.activityNames, |schema.skillNames|, ApiActivity.FromRecord);
    if activities.Err? {
      return None;
    }
    return Some(Player(skills.value, activities.value));
  }

  /**
   * A player is found only when the table has a row for every name and no
   * name is listed twice, and then each name is bound to the decoding of its
   * own row.
   */
  lemma PlayerFound(records: seq<Record>, schema: Schema)
    requires PlayerOutcome(records, schema).Some?
    ensures var p := PlayerOutcome(records, schema).value;
      var m := |schema.skillNames|;
      |records| >= m + |schema.activityNames| &&
      Distinct(schema.skillNames) && Distinct(schema.activityNames) &&
      Keys(p.skills) == schema.skillNames && Keys(p.activities) == schema.activityNames &&
      (forall i :: 0 <= i < m ==> ApiSkill.FromRecord(records[i]) == Ok(p.skills[i].1)) &&
      (forall i :: 0 <= i < |schema.activityNames| ==> ApiActivity.FromRecord(records[m + i]) == Ok(p.activities[i].1))
  {
    DecodeBinds(records, schema, ApiSkill.FromRecord, ApiActivity.FromRecord);
  }

  /** A table with fewer rows than names (an unknown player's empty table among them) yields no player. */
  lemma PlayerShortAbsent(records: seq<Record>, schema: Schema)
    requires |records| < |schema.skillNames| + |schema.activityNames|
    ensures PlayerOutcome(records, schema) == None
  {
    DecodeShort(records, schema, ApiSkill.FromRecord, ApiActivity.FromRecord);
  }

  /** Rows after the last activity row do not change the answer. */
  lemma PlayerIgnoresTail(records: seq<Record>, schema: Schema)
    requires |records| >= |schema.skillNames| + |schema.activityNames|
    ensures var n := |schema.skillNames| + |schema.activityNames|;
      PlayerOutcome(records, schema) == PlayerOutcome(records[..n], schema)
  {
    DecodeIgnoresTail(records, schema, ApiSkill.FromRecord, ApiActivity.FromRecord);
  }

  /** Round trip: rows rendered from rankings, one per name, decode to exactly those rankings. */
  lemma PlayerRoundTrip(schema: Schema, skills: seq<ApiSkill.Skill>, activities: seq<ApiActivity.Activity>)
    requires |skills| == |schema.skillNames| && |activities| == |schema.activityNames|
    requires Distinct(schema.skillNames) && Distinct(schema.activityNames)
    ensures PlayerOutcome(Rendered(skills, ApiSkill.Encode) + Rendered(activities, ApiActivity.Encode), schema)
         == Some(Player(Zip(schema.skillNames, skills), Zip(schema.activityNames, activities)))
  {
    forall s | s in skills ensures ApiSkill.FromRecord(ApiSkill.Encode(s)) == Ok(s) {
      ApiSkill.FromRecordRoundTrip(s);
    }
    forall a | a in activities ensures ApiActivity.FromRecord(ApiActivity.Encode(a)) == Ok(a) {
      ApiActivity.FromRecordRoundTrip(a);
    }
    DecodeRendered(schema, skills, activities, ApiSkill.FromRecord, ApiActivity.FromRecord,
                   ApiSkill.Encode, ApiActivity.Encode);
  }

  /**
   * Experience is read as a 32-bit int: a player whose first skill row (the
   * overall total) holds more experience than an int can represent is not
   * found at all.
   */
  lemma OverallOverflowHidesPlayer(schema: Schema, rank: Int32, level: Int32, experience: Int64, rest: seq<Record>)
    requires |schema.skillNames| > 0 && experience > INT_MAX
    ensures PlayerOutcome([[DecimalString(rank), DecimalString(level), DecimalString(experience)]] + rest, schema) == None
  {
    var records := [[DecimalString(rank), DecimalString(level), DecimalString(experience)]] + rest;
    ApiSkill.ExperienceOverflow(rank, level, experience);
    assert RowAt(records, 0, ApiSkill.FromRecord).Err?;
  }

  // -------------------------------------------------------------------------
  // Clan tables

  /** `clanInformation`, from the rows fetched for the clan onwards. */
  method ClanInformation(records: seq<Record>) returns (r: Result<seq<ApiClanMate.ClanMate>, Fault>)
    ensures r == Members(Body(records), ApiClanMate.FromRecord)
  {
    r := ReadClan(records, ApiClanMate.FromRecord);
  }

  /** Decoding a clan mate only ever fails on an unparsable number, so the listing never fails. */
  lemma ClanNeverFails(records: seq<Record>)
    ensures Members(Body(records), ApiClanMate.FromRecord).Ok?
  {
    MembersNeverFail(Body(records), ApiClanMate.FromRecord);
  }

  /** Round trip: a listing under any header row decodes to exactly its members. */
  lemma ClanRoundTrip(header: Record, mates: seq<ApiClanMate.ClanMate>)
    ensures Members(Body([header] + Rendered(mates, ApiClanMate.Encode)), ApiClanMate.FromRecord) == Ok(mates)
  {
    forall i | 0 <= i < |mates|
      ensures |ApiClanMate.Encode(mates[i])| == 4
      ensures ApiClanMate.FromRecord(ApiClanMate.Encode(mates[i])) == Ok(mates[i])
    {
      ApiClanMate.FromRecordRoundTrip(mates[i]);
    }
    assert Body([header] + Rendered(mates, ApiClanMate.Encode)) == Rendered(mates, ApiClanMate.Encode);
    MembersRendered(mates, ApiClanMate.FromRecord, ApiClanMate.Encode);
  }
}
