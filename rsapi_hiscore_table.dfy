/**
 * `HiscoreTable` of the `com.mikebull94.rsapi` revision: six tables,
 * each a service name and the two name lists its rows are read against.
 */
module RsapiHiscoreTable {
  import opened Wrappers
  import opened JavaLang
  import RowDecoder
  import RsapiHiscores

  datatype HiscoreTable =
    | DEFAULT
    | IRONMAN
    | HARDCORE_IRONMAN
    | OLDSCHOOL
    | OLDSCHOOL_IRONMAN
    | OLDSCHOOL_ULTIMATE_IRONMAN

  /** `values()`: the constants in declaration order. */
  const VALUES: seq<HiscoreTable> :=
    [DEFAULT, IRONMAN, HARDCORE_IRONMAN, OLDSCHOOL, OLDSCHOOL_IRONMAN, OLDSCHOOL_ULTIMATE_IRONMAN]

  /** `getName`: the path segment of the service the table is fetched from. */
  function Name(t: HiscoreTable): string
  {
    match t
    case DEFAULT => "hiscore"
    case IRONMAN => "hiscore_ironman"
    case HARDCORE_IRONMAN => "hiscore_hardcore_ironman"
    case OLDSCHOOL => "hiscore_oldschool"
    case OLDSCHOOL_IRONMAN => "hiscore_oldschool_ironman"
    case OLDSCHOOL_ULTIMATE_IRONMAN => "hiscore_oldschool_ultimate"
  }

  /** The three oldschool tables; the others are the modern game's. */
  predicate IsOldschool(t: HiscoreTable)
  {
    t.OLDSCHOOL? || t.OLDSCHOOL_IRONMAN? || t.OLDSCHOOL_ULTIMATE_IRONMAN?
  }

  /** `getSkillNames`. */
  function SkillNames(t: HiscoreTable): seq<string>
  {
    if IsOldschool(t) then RsapiHiscores.OLDSCHOOL_SKILL_NAMES else RsapiHiscores.SKILL_NAMES
  }

  /** `getActivityNames`. */
  function ActivityNames(t: HiscoreTable): seq<string>
  {
    if IsOldschool(t) then RsapiHiscores.OLDSCHOOL_ACTIVITY_NAMES else RsapiHiscores.ACTIVITY_NAMES
  }

  /** The table as the decoder reads it. */
  function Schema(t: HiscoreTable): RowDecoder.Schema
  {
    RowDecoder.Schema(Name(t), SkillNames(t), ActivityNames(t))
  }

  /** The loop of `from` over `tables`: the first table whose service name equals `name`. */
  function Search(tables: seq<HiscoreTable>, name: string): (r: Option<HiscoreTable>)
    ensures r.Some? ==> r.value in tables && Name(r.value) == name
    ensures r.None? <==> forall t :: t in tables ==> Name(t) != name
  {
    if |tables| == 0 then None
    else if Name(tables[0]) == name then Some(tables[0])
    else Search(tables[1..], name)
  }

  /** `from`: the table with the given service name; IllegalArgumentException when there is none. */
  function From(name: string): (r: Result<HiscoreTable, Fault>)
    ensures r.Ok? ==> Name(r.value) == name
    ensures r.Err? <==> forall t: HiscoreTable :: Name(t) != name
    ensures r.Err? ==> r.error == IllegalArgument
  {
    ValuesComplete();
    match Search(VALUES, name)
    case Some(t) => Ok(t)
    case None => Err(IllegalArgument)
  }

  /** `values()` lists every constant. */
  lemma ValuesComplete()
    ensures forall t: HiscoreTable :: t in VALUES
  {
    forall t: HiscoreTable ensures t in VALUES {
      match t
      case DEFAULT => assert VALUES[0] == t;
      case IRONMAN => assert VALUES[1] == t;
      case HARDCORE_IRONMAN => assert VALUES[2] == t;
      case OLDSCHOOL => assert VALUES[3] == t;
      case OLDSCHOOL_IRONMAN => assert VALUES[4] == t;
      case OLDSCHOOL_ULTIMATE_IRONMAN => assert VALUES[5] == t;
    }
  }

  /** Distinct tables have distinct service names (their lengths already differ). */
  lemma NameInjective(a: HiscoreTable, b: HiscoreTable)
    requires Name(a) == Name(b)
    ensures a == b
  {
    assert |Name(a)| == |Name(b)|;
  }

  /** Every table is found again by its own service name. */
  lemma FromName(t: HiscoreTable)
    ensures From(Name(t)) == Ok(t)
  {
    var r := From(Name(t));
    if r.Ok? {
      NameInjective(r.value, t);
    }
  }

  /** Every service name starts with "hiscore". */
  lemma ServiceNamePrefix(t: HiscoreTable)
    ensures "hiscore" <= Name(t)
  {
    assert Name(t)[..7] == "hiscore";
  }

  /**
   * `from` compares service names, so a name without the "hiscore" prefix,
   * such as a constant's own name "OLDSCHOOL", raises.
   */
  lemma FromNeedsServiceName(name: string)
    requires !("hiscore" <= name)
    ensures From(name) == Err(IllegalArgument)
  {
    forall t: HiscoreTable ensures Name(t) != name {
      ServiceNamePrefix(t);
    }
  }

  /** A table reads the oldschool lists exactly when its service name starts with "hiscore_oldschool". */
  lemma OldschoolByName(t: HiscoreTable)
    ensures SkillNames(t) == RsapiHiscores.OLDSCHOOL_SKILL_NAMES <==> "hiscore_oldschool" <= Name(t)
    ensures ActivityNames(t) == RsapiHiscores.OLDSCHOOL_ACTIVITY_NAMES <==> "hiscore_oldschool" <= Name(t)
    ensures |SkillNames(t)| + |ActivityNames(t)| == if IsOldschool(t) then 27 else 51
  {
    assert |RsapiHiscores.SKILL_NAMES| != |RsapiHiscores.OLDSCHOOL_SKILL_NAMES|;
    assert |RsapiHiscores.ACTIVITY_NAMES| != |RsapiHiscores.OLDSCHOOL_ACTIVITY_NAMES|;
    var prefix := "hiscore_oldschool";
    match t
    case DEFAULT => assert |Name(t)| < |prefix|;
    case IRONMAN => assert Name(t)[8] != prefix[8];
    case HARDCORE_IRONMAN => assert Name(t)[8] != prefix[8];
    case OLDSCHOOL => assert Name(t)[..|prefix|] == prefix;
    case OLDSCHOOL_IRONMAN => assert Name(t)[..|prefix|] == prefix;
    case OLDSCHOOL_ULTIMATE_IRONMAN => assert Name(t)[..|prefix|] == prefix;
  }

  /**
   * Round trip for every table: a player's rankings rendered as rows, one per
   * name in the table's order, are read back as exactly those rankings.
   */
  lemma PlayerRoundTrip(t: HiscoreTable, skills: seq<RsapiHiscores.RsapiSkill.Skill>,
                        activities: seq<RsapiHiscores.RsapiHiscoreActivity.HiscoreActivity>)
    requires |skills| == |SkillNames(t)| && |activities| == |ActivityNames(t)|
    ensures RsapiHiscores.PlayerOutcome(RowDecoder.Rendered(skills, RsapiHiscores.RsapiSkill.Encode) +
                                     RowDecoder.Rendered(activities, RsapiHiscores.RsapiHiscoreActivity.Encode), Schema(t))
         == Ok(Some(RowDecoder.Player(RsapiHiscores.ImmutableMaps.Zip(SkillNames(t), skills),
                                      RsapiHiscores.ImmutableMaps.Zip(ActivityNames(t), activities))))
  {
    RsapiHiscores.NamesDistinct();
    RsapiHiscores.PlayerRoundTrip(Schema(t), skills, activities);
  }
}
