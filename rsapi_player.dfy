/**
 * `Player` of the `com.mikebull94.rsapi` revision, and its `Builder`, which
 * collects skill and activity entries and can be built once.
 */
module RsapiPlayer {
  import opened Wrappers
  import opened JavaLang
  import opened ImmutableMaps
  import RowDecoder
  import RsapiSkill
  import RsapiHiscoreActivity

  /** A player's skill and activity rankings by name; the constructor stores both maps as given. */
  type Player = RowDecoder.Player<RsapiSkill.Skill, RsapiHiscoreActivity.HiscoreActivity>

  /**
   * `new Player(skills.build(), activities.build())`: each map builder rejects
   * a name put twice; the skill map is built first.
   */
  function Assemble(skills: Entries<string, RsapiSkill.Skill>,
                    activities: Entries<string, RsapiHiscoreActivity.HiscoreActivity>): (r: Result<Player, Fault>)
    ensures r.Ok? <==> Distinct(Keys(skills)) && Distinct(Keys(activities))
    ensures r.Ok? ==> r.value.skills == skills && r.value.activities == activities
    ensures r.Err? ==> r.error == IllegalArgument
  {
    var s :- Build(skills);
    var a :- Build(activities);
    Ok(RowDecoder.Player(s, a))
  }

  /** Putting the same skill name twice makes the build fail. */
  lemma AssembleRejectsRepeat(skills: Entries<string, RsapiSkill.Skill>, name: string,
                              first: RsapiSkill.Skill, second: RsapiSkill.Skill,
                              activities: Entries<string, RsapiHiscoreActivity.HiscoreActivity>)
    ensures Assemble(skills + [(name, first), (name, second)], activities) == Err(IllegalArgument)
  {
    var puts := skills + [(name, first), (name, second)];
    assert Keys(puts)[|skills|] == name == Keys(puts)[|skills| + 1];
  }

  /** `equals`: the skill maps and the activity maps compared as maps, whatever their entry order. */
  function Equals(a: Player, b: Player): (r: bool)
    ensures r <==> SameLookups(a.skills, b.skills) && SameLookups(a.activities, b.activities)
  {
    AsMapEqual(a.skills, b.skills);
    AsMapEqual(a.activities, b.activities);
    AsMap(a.skills) == AsMap(b.skills) && AsMap(a.activities) == AsMap(b.activities)
  }

  /** `equals` is an equivalence: reflexive, symmetric and transitive. */
  lemma {:induction false} EqualsIsEquivalence(a: Player, b: Player, c: Player)
    ensures Equals(a, a)
    ensures Equals(a, b) == Equals(b, a)
    ensures Equals(a, b) && Equals(b, c) ==> Equals(a, c)
  {
    assert Equals(a, a);
    assert Equals(a, b) == Equals(b, a);
    if Equals(a, b) && Equals(b, c) {
      forall name ensures Get(a.skills, name) == Get(c.skills, name) && Get(a.activities, name) == Get(c.activities, name) {
        assert Get(a.skills, name) == Get(b.skills, name) && Get(a.activities, name) == Get(b.activities, name);
      }
    }
  }

  /** `Player.Builder`: a built flag and the entries put into each map builder, in order. */
  class Builder {
    var built: bool
    var skills: Entries<string, RsapiSkill.Skill>
    var activities: Entries<string, RsapiHiscoreActivity.HiscoreActivity>

    /** `Player.builder()`. */
    constructor ()
      ensures !built && skills == [] && activities == []
    {
      built := false;
      skills := [];
      activities := [];
    }

    /** `skill(name, skill)`: IllegalStateException once built; otherwise the entry is appended. */
    method Skill(name: string, skill: RsapiSkill.Skill) returns (r: Result<(), Fault>)
      modifies this
      ensures built == old(built) && activities == old(activities)
      ensures old(built) ==> r == Err(IllegalState) && skills == old(skills)
      ensures !old(built) ==> r == Ok(()) && skills == old(skills) + [(name, skill)]
    {
      if built {
        return Err(IllegalState);
      }
      skills := skills + [(name, skill)];
      return Ok(());
    }

    /** `activity(name, activity)`: IllegalStateException once built; otherwise the entry is appended. */
    method Activity(name: string, activity: RsapiHiscoreActivity.HiscoreActivity) returns (r: Result<(), Fault>)
      modifies this
      ensures built == old(built) && skills == old(skills)
      ensures old(built) ==> r == Err(IllegalState) && activities == old(activities)
      ensures !old(built) ==> r == Ok(()) && activities == old(activities) + [(name, activity)]
    {
      if built {
        return Err(IllegalState);
      }
      activities := activities + [(name, activity)];
      return Ok(());
    }

    /**
     * `build()`: IllegalStateException once built. Otherwise the builder is
     * marked built before the maps are built, so it is spent even when the
     * build fails.
     */
    method Build() returns (r: Result<Player, Fault>)
      modifies this
      ensures built && skills == old(skills) && activities == old(activities)
      ensures old(built) ==> r == Err(IllegalState)
      ensures !old(built) ==> r == Assemble(old(skills), old(activities))
    {
      if built {
        return Err(IllegalState);
      }
      built := true;
      r := Assemble(skills, activities);
    }
  }
}
