// The hiscores service of the com.mikebull94.rsapi revision: the name lists a
// player's table is read against, and the decoding of the player and clan
// tables the service returns.

module RsapiHiscores {
  import opened Wrappers
  import opened JavaLang
  import opened ImmutableMaps
  import opened RowDecoder
  import RsapiSkill
  import RsapiHiscoreActivity
  import RsapiClanMate

  /** The skills of the modern game, in the order of the rows of a player's table. */
  const SKILL_NAMES: seq<string> := [
    "Overall", "Attack", "Defence", "Strength",
    "Constitution", "Ranged", "Prayer", "Magic",
    "Cooking", "Woodcutting", "Fletching", "Fishing",
    "Firemaking", "Crafting", "Smithing", "Mining",
    "Herblore", "Agility", "Thieving", "Slayer",
    "Farming", "Runecrafting", "Hunter", "Construction",
    "Summoning", "Dungeoneering", "Divination"
  ]

  /** The skills of the oldschool game. */
  const OLDSCHOOL_SKILL_NAMES: seq<string> := [
    "Overall", "Attack", "Defence", "Strength",
    "Constitution", "Ranged", "Prayer", "Magic",
    "Cooking", "Woodcutting", "Fletching", "Fishing",
    "Firemaking", "Crafting", "Smithing", "Mining",
    "Herblore", "Agility", "Thieving", "Slayer",
    "Farming", "Runecrafting", "Hunter", "Construction"
  ]

  /** The activities of the modern game; their rows follow the skill rows. */
  const ACTIVITY_NAMES: seq<string> := [
    "Bounty Hunter", "B.H. Rogues", "Dominion Tower", "The Crucible",
    "Castle Wars games", "B.A. Attackers", "B.A. Defenders", "B.A. Collectors",
    "B.A. Healers", "Duel Tournament", "Mobilising Armies", "Conquest",
    "Fist of Guthix", "GG: Athletics", "GG: Resource Race", "WE2: Armadyl Lifetime Contribution",
    "WE2: Bandos Lifetime Contribution", "WE2: Armadyl PvP kills", "WE2: Bandos PvP kills", "Heist Guard Level",
    "Heist Robber Level", "CFP: 5 game average", "AF15: Cow Tipping", "AF15: Rats killed after the miniquest"
  ]

  /** The activities of the oldschool game. */
  const OLDSCHOOL_ACTIVITY_NAMES: seq<string> := [
    "Clues", "Bounty Hunter", "B.H. Rogues"
  ]

  // -------------------------------------------------------------------------
  // The name lists

  /** The oldschool skills are the first 24 modern skills, in the same order. */
  lemma OldschoolSkillsArePrefix()
    ensures OLDSCHOOL_SKILL_NAMES == SKILL_NAMES[..24]
  {
  }

  // Distinctness of the longer lists, a few indices at a time.
  lemma SkillChunk0() ensures DistinctFrom(SKILL_NAMES, 0, 2) { }
  lemma SkillChunk1() ensures DistinctFrom(SKILL_NAMES, 2, 4) { }
  lemma SkillChunk2() ensures DistinctFrom(SKILL_NAMES, 4, 6) { }
  lemma SkillChunk3() ensures DistinctFrom(SKILL_NAMES, 6, 8) { }
  lemma SkillChunk4() ensures DistinctFrom(SKILL_NAMES, 8, 11) { }
  lemma SkillChunk5() ensures DistinctFrom(SKILL_NAMES, 11, 14) { }
  lemma SkillChunk6() ensures DistinctFrom(SKILL_NAMES, 14, 17) { }
  lemma SkillChunk7() ensures DistinctFrom(SKILL_NAMES, 17, 23) { }
  lemma SkillChunk8() ensures DistinctFrom(SKILL_NAMES, 23, 27) { }
  lemma ActivityChunk0() ensures DistinctFrom(ACTIVITY_NAMES, 0, 2) { }
  lemma ActivityChunk1() ensures DistinctFrom(ACTIVITY_NAMES, 2, 4) { }
  lemma ActivityChunk2() ensures DistinctFrom(ACTIVITY_NAMES, 4, 6) { }
  lemma ActivityChunk3() ensures DistinctFrom(ACTIVITY_NAMES, 6, 8) { }
  lemma ActivityChunk4() ensures DistinctFrom(ACTIVITY_NAMES, 8, 11) { }
  lemma ActivityChunk5() ensures DistinctFrom(ACTIVITY_NAMES, 11, 14) { }
  lemma ActivityChunk6() ensures DistinctFrom(ACTIVITY_NAMES, 14, 17) { }
  lemma ActivityChunk7() ensures DistinctFrom(ACTIVITY_NAMES, 17, 23) { }
  lemma ActivityChunk8() ensures DistinctFrom(ACTIVITY_NAMES, 23, 24) { }

  /** No list repeats a name, so the maps built over them never see a duplicate key. */
  lemma NamesDistinct()
    ensures Distinct(SKILL_NAMES) && Distinct(OLDSCHOOL_SKILL_NAMES)
    ensures Distinct(ACTIVITY_NAMES) && Distinct(OLDSCHOOL_ACTIVITY_NAMES)
  {
    SkillChunk0();
    SkillChunk1();
    SkillChunk2();
    SkillChunk3();
    SkillChunk4();
    SkillChunk5();
    SkillChunk6();
    SkillChunk7();
    SkillChunk8();
    DistinctByChunks(SKILL_NAMES, [0, 2, 4, 6, 8, 11, 14, 17, 23, 27]);
    ActivityChunk0();
    ActivityChunk1();
    ActivityChunk2();
    ActivityChunk3();
    ActivityChunk4();
    ActivityChunk5();
    ActivityChunk6();
    ActivityChunk7();
    ActivityChunk8();
    DistinctByChunks(ACTIVITY_NAMES, [0, 2, 4, 6, 8, 11, 14, 17, 23, 24]);
    OldschoolSkillsArePrefix();
  }

  // -------------------------------------------------------------------------
  // Player tables

  /** A player as the service describes one: skill and activity rankings by name. */
  type HiscorePlayer = Player<RsapiSkill.Skill, RsapiHiscoreActivity.HiscoreActivity>

  /** `readSkills`: the argument check on the row count, then one skill per name from the first rows. */
  method ReadSkills(records: seq<Record>, skills: seq<string>) returns (r: Result<Entries<string, RsapiSkill.Skill>, Fault>)
    ensures |records| < |skills| ==> r == Err(IllegalArgument)
    ensures |records| >= |skills| ==> r == BuildBound(records, skills, 0, RsapiSkill.FromRecord)
  {
    if |records| < |skills| {
      return Err(IllegalArgument);
    }
    r := ReadEntries(records, skills, 0, RsapiSkill.FromRecord);
  }

  /** `readActivities`: the argument check on the row count, then one activity per name after the skill rows. */
  method ReadActivities(records: seq<Record>, skills: seq<string>, activities: seq<string>)
    returns (r: Result<Entries<string, RsapiHiscoreActivity.HiscoreActivity>, Fault>)
    ensures |records| < |skills| + |activities| ==> r == Err(IllegalArgument)
    ensures |records| >= |skills| + |activities| ==>
      r == BuildBound(records, activities, |skills|, RsapiHiscoreActivity.FromRecord)
  {
    if |records| < |skills| + |activities| {
      return Err(IllegalArgument);
    }
    r := ReadEntries(records, activities, |skills|, RsapiHiscoreActivity.FromRecord);
  }

  /**
   * What `playerInformation` answers for the rows the service returned: no
   * player unless there is exactly one row per skill and activity, no player
   * when a number does not parse, any other fault raised to the caller.
   */
  function PlayerOutcome(records: seq<Record>, schema: Schema): Result<Option<HiscorePlayer>, Fault>
  {
    if |records| != |schema.skillNames| + |schema.activityNames| then Ok(None)
    else Catching(Decode(records, schema, RsapiSkill.FromRecord, RsapiHiscoreActivity.FromRecord), IsNumberFormat)
  }

  /** `playerInformation`, from the rows fetched for the player onwards. */
  method PlayerInformation(records: seq<Record>, schema: Schema) returns (r: Result<Option<HiscorePlayer>, Fault>)
    ensures r == PlayerOutcome(records, schema)
  {
    if |records| != |schema.skillNames| + |schema.activityNames| {
      return Ok(None);
    }
    var skills := ReadSkills(records, schema.skillNames);
    if skills.Err? {
      return if IsNumberFormat(skills.error) then Ok(None) else Err(skills.error);
    }
    var activities := ReadActivities(records, schema.skillNames, schema.activityNames);
    if activities.Err? {
      return if IsNumberFormat(activities.error) then Ok(None) else Err(activities.error);
    }
    return Ok(Some(Player(skills.value, activities.value)));
  }

  /**
   * A player is found only when the table has exactly one row per name, and
   * then each name is bound to the decoding of its own row.
   */
  lemma PlayerFound(records: seq<Record>, schema: Schema)
    requires PlayerOutcome(records, schema).Ok? && PlayerOutcome(records, schema).value.Some?
    ensures var p := PlayerOutcome(records, schema).value.value;
      var m := |schema.skillNames|;
      |records| == m + |schema.activityNames| &&
      Keys(p.skills) == schema.skillNames && Keys(p.activities) == schema.activityNames &&
      (forall i :: 0 <= i < m ==> RsapiSkill.FromRecord(records[i]) == Ok(p.skills[i].1)) &&
      (forall i :: 0 <= i < |schema.activityNames| ==>
        RsapiHiscoreActivity.FromRecord(records[m + i]) == Ok(p.activities[i].1))
  {
    DecodeBinds(records, schema, RsapiSkill.FromRecord, RsapiHiscoreActivity.FromRecord);
  }

  /** The only faults that reach the caller: a row with too few cells, or a name listed twice. */
  lemma PlayerFaults(records: seq<Record>, schema: Schema)
    requires PlayerOutcome(records, schema).Err?
    ensures PlayerOutcome(records, schema).error in {IndexOutOfBounds, IllegalArgument}
  {
    DecodeFaults(records, schema, RsapiSkill.FromRecord, RsapiHiscoreActivity.FromRecord);
  }

  /**
   * A number that does not parse in any skill or activity row yields no
   * player, never a partial one, provided every row has its cells and no
   * name is listed twice.
   */
  lemma PlayerUnparsable(records: seq<Record>, schema: Schema, i: nat)
    requires |records| == |schema.skillNames| + |schema.activityNames|
    requires Distinct(schema.skillNames) && Distinct(schema.activityNames)
    requires forall j :: 0 <= j < |schema.skillNames| ==> |records[j]| >= 3
    requires forall j :: |schema.skillNames| <= j < |schema.skillNames| + |schema.activityNames| ==> |records[j]| >= 2
    requires (i < |schema.skillNames| && RsapiSkill.FromRecord(records[i]).Err?) ||
             (|schema.skillNames| <= i < |schema.skillNames| + |schema.activityNames| &&
              RsapiHiscoreActivity.FromRecord(records[i]).Err?)
    ensures PlayerOutcome(records, schema) == Ok(None)
  {
    DecodeRowFails(records, schema, RsapiSkill.FromRecord, RsapiHiscoreActivity.FromRecord, i);
    DecodeFaults(records, schema, RsapiSkill.FromRecord, RsapiHiscoreActivity.FromRecord);
  }

  /**
   * Only unparsable numbers are caught: a two-cell row where a skill row is
   * expected escapes as an index fault instead of yielding no player.
   */
  lemma PlayerMisalignedRaises(schema: Schema, rank: Int32, score: Int32, rest: seq<Record>)
    requires |schema.skillNames| > 0 && 1 + |rest| == |schema.skillNames| + |schema.activityNames|
    ensures PlayerOutcome([[DecimalString(rank), DecimalString(score)]] + rest, schema) == Err(IndexOutOfBounds)
  {
    IntDecimalRoundTrip(rank);
    IntDecimalRoundTrip(score);
    var records := [[DecimalString(rank), DecimalString(score)]] + rest;
    assert RowAt(records, 0, RsapiSkill.FromRecord) == Err(IndexOutOfBounds);
  }

  /** Round trip: rows rendered from rankings, one per name, decode to exactly those rankings. */
  lemma PlayerRoundTrip(schema: Schema, skills: seq<RsapiSkill.Skill>,
                        activities: seq<RsapiHiscoreActivity.HiscoreActivity>)
    requires |skills| == |schema.skillNames| && |activities| == |schema.activityNames|
    requires Distinct(schema.skillNames) && Distinct(schema.activityNames)
    ensures PlayerOutcome(Rendered(skills, RsapiSkill.Encode) + Rendered(activities, RsapiHiscoreActivity.Encode), schema)
         == Ok(Some(Player(Zip(schema.skillNames, skills), Zip(schema.activityNames, activities))))
  {
    forall s | s in skills ensures RsapiSkill.FromRecord(RsapiSkill.Encode(s)) == Ok(s) {
      RsapiSkill.FromRecordRoundTrip(s);
    }
    forall a | a in activities
      ensures RsapiHiscoreActivity.FromRecord(RsapiHiscoreActivity.Encode(a)) == Ok(a)
    {
      RsapiHiscoreActivity.FromRecordRoundTrip(a);
    }
    DecodeRendered(schema, skills, activities, RsapiSkill.FromRecord, RsapiHiscoreActivity.FromRecord,
                   RsapiSkill.Encode, RsapiHiscoreActivity.Encode);
  }

  // -------------------------------------------------------------------------
  // Clan tables

  /** `clanInformation`, from the rows fetched for the clan onwards. */
  method ClanInformation(records: seq<Record>) returns (r: Result<seq<RsapiClanMate.ClanMate>, Fault>)
    ensures r == Members(Body(records), RsapiClanMate.FromRecord)
  {
    r := ReadClan(records, RsapiClanMate.FromRecord);
  }

  /** Every clan mate returned passed the checks of the clan mate constructor and came from a row of four cells. */
  lemma ClanMatesValid(records: seq<Record>)
    requires Members(Body(records), RsapiClanMate.FromRecord).Ok?
    ensures var cs := Members(Body(records), RsapiClanMate.FromRecord).value;
      forall k :: 0 <= k < |cs| ==> (RsapiClanMate.Valid(cs[k]) &&
        exists j :: 1 <= j < |records| && |records[j]| == 4 && RsapiClanMate.FromRecord(records[j]) == Ok(cs[k]))
  {
    var rows := Body(records);
    var cs := Members(rows, RsapiClanMate.FromRecord).value;
    MembersFrom(rows, RsapiClanMate.FromRecord);
    forall k | 0 <= k < |cs|
      ensures RsapiClanMate.Valid(cs[k]) &&
        exists j :: 1 <= j < |records| && |records[j]| == 4 && RsapiClanMate.FromRecord(records[j]) == Ok(cs[k])
    {
      var j :| 0 <= j < |rows| && |rows[j]| == 4 && RsapiClanMate.FromRecord(rows[j]) == Ok(cs[k]);
      assert rows[j] == records[j + 1];
    }
  }

  /** Round trip: a listing of valid clan mates under any header row decodes to exactly those mates. */
  lemma ClanRoundTrip(header: Record, mates: seq<RsapiClanMate.ClanMate>)
    requires forall i :: 0 <= i < |mates| ==> RsapiClanMate.Valid(mates[i])
    ensures Members(Body([header] + Rendered(mates, RsapiClanMate.Encode)), RsapiClanMate.FromRecord) == Ok(mates)
  {
    forall i | 0 <= i < |mates|
      ensures |RsapiClanMate.Encode(mates[i])| == 4
      ensures RsapiClanMate.FromRecord(RsapiClanMate.Encode(mates[i])) == Ok(mates[i])
    {
      RsapiClanMate.FromRecordRoundTrip(mates[i]);
    }
    assert Body([header] + Rendered(mates, RsapiClanMate.Encode)) == Rendered(mates, RsapiClanMate.Encode);
    MembersRendered(mates, RsapiClanMate.FromRecord, RsapiClanMate.Encode);
  }

  /**
   * A clan mate with negative experience or kills is not skipped: the
   * constructor's argument check escapes the loop, which only catches
   * unparsable numbers, and the whole listing fails.
   */
  lemma ClanRejectsInvalid(header: Record, mate: RsapiClanMate.ClanMate)
    requires !RsapiClanMate.Valid(mate)
    ensures Members(Body([header, RsapiClanMate.Encode(mate)]), RsapiClanMate.FromRecord) == Err(IllegalArgument)
  {
    RsapiClanMate.FromRecordRoundTrip(mate);
    MembersOfRow(RsapiClanMate.Encode(mate), RsapiClanMate.FromRecord);
    assert Body([header, RsapiClanMate.Encode(mate)]) == [RsapiClanMate.Encode(mate)];
  }
}
