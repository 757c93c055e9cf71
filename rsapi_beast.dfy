/**
 * `Beast` of the `com.mikebull94.rsapi` bestiary and its `Builder`: a
 * set-once builder whose every setter refuses to run after `build()`, refuses
 * a field that was already set, and checks its argument.
 */
module RsapiBeast {
  import opened Wrappers
  import opened JavaLang

  /**
   * A beast as the service describes it. `weakness` and `slayerCategory`
   * may be null in decoded data; a built beast always has a weakness, "None"
   * when none was set. The `double` experience is not part of this model.
   */
  datatype Beast = Beast(
    name: string,
    id: Int32,
    description: string,
    weakness: Option<string>,
    attackable: bool,
    aggressive: bool,
    poisonous: bool,
    lifePoints: Int32,
    combatLevel: Int32,
    defenceLevel: Int32,
    attackLevel: Int32,
    magicLevel: Int32,
    rangedLevel: Int32,
    requiredSlayerLevel: Int32,
    size: Int32,
    membersOnly: bool,
    slayerCategory: Option<string>,
    areas: seq<string>,
    animations: map<string, Int32>)

  /** `getWeakness`: empty when the weakness is null or the placeholder "None". */
  function GetWeakness(beast: Beast): (r: Option<string>)
    ensures r.None? <==> beast.weakness == None || beast.weakness == Some("None")
    ensures r.Some? ==> beast.weakness == Some(r.value)
  {
    if beast.weakness == Some("None") then None else beast.weakness
  }

  /** `getAnimation`: the id stored under `name`, or empty. */
  function GetAnimation(beast: Beast, name: string): (r: Option<Int32>)
    ensures r.Some? <==> name in beast.animations
    ensures r.Some? ==> r.value == beast.animations[name]
  {
    if name in beast.animations then Some(beast.animations[name]) else None
  }

  /** The values a builder holds, field by field. */
  datatype Settings = Settings(
    name: string,
    description: string,
    weakness: string,
    attackable: bool,
    aggressive: bool,
    poisonous: bool,
    lifePoints: Int32,
    combatLevel: Int32,
    defenceLevel: Int32,
    attackLevel: Int32,
    magicLevel: Int32,
    rangedLevel: Int32,
    requiredSlayerLevel: Int32,
    size: Int32,
    membersOnly: bool,
    slayerCategory: Option<string>,
    areas: set<string>,
    animations: map<string, Int32>)

  /** What a new builder holds. */
  const DEFAULTS := Settings("", "", "None", false, false, false, 0, 0, 0, 0, 0, 0, 0, 1, false, None, {}, map[])

  /** What the setters' checks keep true of a builder's values. */
  predicate Valid(s: Settings)
  {
    && s.weakness != ""
    && s.lifePoints >= 0 && s.combatLevel >= 0 && s.defenceLevel >= 0 && s.attackLevel >= 0
    && s.magicLevel >= 0 && s.rangedLevel >= 0 && s.requiredSlayerLevel >= 0
    && s.size >= 1
    && (s.slayerCategory.Some? ==> s.slayerCategory.value != "")
    && "" !in s.areas
    && "" !in s.animations
    && (forall a :: a in s.animations ==> s.animations[a] > 0)
  }

  /** `areas` lists the set `from`, each element once. */
  ghost predicate Lists(areas: seq<string>, from: set<string>)
  {
    Distinct(areas) && forall a :: a in areas <==> a in from
  }

  /** The beast `build()` constructs from a builder's values, with the areas in the order the set yields them. */
  function Assemble(id: Int32, s: Settings, areas: seq<string>): Beast
  {
    Beast(s.name, id, s.description, Some(s.weakness), s.attackable, s.aggressive, s.poisonous,
          s.lifePoints, s.combatLevel, s.defenceLevel, s.attackLevel, s.magicLevel, s.rangedLevel,
          s.requiredSlayerLevel, s.size, s.membersOnly, s.slayerCategory, areas, s.animations)
  }

  /** What every built beast satisfies. */
  predicate WellFormed(beast: Beast)
  {
    && beast.weakness.Some? && beast.weakness.value != ""
    && beast.lifePoints >= 0 && beast.combatLevel >= 0 && beast.defenceLevel >= 0 && beast.attackLevel >= 0
    && beast.magicLevel >= 0 && beast.rangedLevel >= 0 && beast.requiredSlayerLevel >= 0
    && beast.size >= 1
    && (beast.slayerCategory.Some? ==> beast.slayerCategory.value != "")
    && Distinct(beast.areas) && (forall i :: 0 <= i < |beast.areas| ==> beast.areas[i] != "")
    && (forall a :: a in beast.animations ==> a != "" && beast.animations[a] > 0)
  }

  /** A new builder's values pass every check. */
  lemma DefaultsValid()
    ensures Valid(DEFAULTS)
  {
  }

  /**
   * A beast built from checked values is well formed; its weakness is empty
   * exactly when no weakness was set, and its slayer category exactly when
   * none was set.
   */
  lemma BuiltBeastWellFormed(id: Int32, s: Settings, areas: seq<string>)
    requires Valid(s) && Lists(areas, s.areas)
    ensures WellFormed(Assemble(id, s, areas))
    ensures GetWeakness(Assemble(id, s, areas)).None? <==> s.weakness == "None"
    ensures Assemble(id, s, areas).slayerCategory.None? <==> s.slayerCategory.None?
  {
    forall i | 0 <= i < |areas| ensures areas[i] != "" {
      assert areas[i] in s.areas;
    }
  }

  /** `Beast.Builder`: the `built` flag, the beast id and each field the setters fill. */
  class Builder {
    var built: bool
    const id: Int32
    var name: string
    var description: string
    var weakness: string
    var attackable: bool
    var aggressive: bool
    var poisonous: bool
    var lifePoints: Int32
    var combatLevel: Int32
    var defenceLevel: Int32
    var attackLevel: Int32
    var magicLevel: Int32
    var rangedLevel: Int32
    var requiredSlayerLevel: Int32
    var size: Int32
    var membersOnly: bool
    var slayerCategory: Option<string>
    var areas: set<string>
    var animations: map<string, Int32>

    /** The builder's current values. */
    function Current(): Settings
      reads this
    {
      Settings(name, description, weakness, attackable, aggressive, poisonous, lifePoints, combatLevel,
               defenceLevel, attackLevel, magicLevel, rangedLevel, requiredSlayerLevel, size, membersOnly,
               slayerCategory, areas, animations)
    }

    /** `Beast.builder(id)`. */
    constructor (id: Int32)
      ensures !built && this.id == id && Current() == DEFAULTS
    {
      built := false;
      this.id := id;
      name := "";
      description := "";
      weakness := "None";
      attackable := false;
      aggressive := false;
      poisonous := false;
      lifePoints := 0;
      combatLevel := 0;
      defenceLevel := 0;
      attackLevel := 0;
      magicLevel := 0;
      rangedLevel := 0;
      requiredSlayerLevel := 0;
      size := 1;
      membersOnly := false;
      slayerCategory := None;
      areas := {};
      animations := map[];
    }

    /** `name`: once only, and not empty. */
    method Name(name: string) returns (r: Result<Builder, Fault>)
      modifies this
      ensures built == old(built) && (Valid(old(Current())) ==> Valid(Current()))
      ensures old(built) || old(this.name) != "" ==> r == Err(IllegalState) && Current() == old(Current())
      ensures !old(built) && old(this.name) == "" && name == "" ==> r == Err(IllegalArgument) && Current() == old(Current())
      ensures !old(built) && old(this.name) == "" && name != "" ==> r == Ok(this) && Current() == old(Current()).(name := name)
    {
      if built || this.name != "" {
        return Err(IllegalState);
      }
      if name == "" {
        return Err(IllegalArgument);
      }
      this.name := name;
      return Ok(this);
    }

    /** `description`: once only, and not empty. */
    method Description(description: string) returns (r: Result<Builder, Fault>)
      modifies this
      ensures built == old(built) && (Valid(old(Current())) ==> Valid(Current()))
      ensures old(built) || old(this.description) != "" ==> r == Err(IllegalState) && Current() == old(Current())
      ensures !old(built) && old(this.description) == "" && description == "" ==>
        r == Err(IllegalArgument) && Current() == old(Current())
      ensures !old(built) && old(this.description) == "" && description != "" ==>
        r == Ok(this) && Current() == old(Current()).(description := description)
    {
      if built || this.description != "" {
        return Err(IllegalState);
      }
      if description == "" {
        return Err(IllegalArgument);
      }
      this.description := description;
      return Ok(this);
    }

    /** `weakness`: once only (while it is still "None"), not empty and not "None". */
    method Weakness(weakness: string) returns (r: Result<Builder, Fault>)
      modifies this
      ensures built == old(built) && (Valid(old(Current())) ==> Valid(Current()))
      ensures old(built) || old(this.weakness) != "None" ==> r == Err(IllegalState) && Current() == old(Current())
      ensures !old(built) && old(this.weakness) == "None" && (weakness == "" || weakness == "None") ==>
        r == Err(IllegalArgument) && Current() == old(Current())
      ensures !old(built) && old(this.weakness) == "None" && weakness != "" && weakness != "None" ==>
        r == Ok(this) && Current() == old(Current()).(weakness := weakness)
    {
      if built || this.weakness != "None" {
        return Err(IllegalState);
      }
      if weakness == "" || weakness == "None" {
        return Err(IllegalArgument);
      }
      this.weakness := weakness;
      return Ok(this);
    }

    /** `attackable`: sets the flag, once only. */
    method Attackable() returns (r: Result<Builder, Fault>)
      modifies this
      ensures built == old(built) && (Valid(old(Current())) ==> Valid(Current()))
      ensures old(built) || old(attackable) ==> r == Err(IllegalState) && Current() == old(Current())
      ensures !old(built) && !old(attackable) ==> r == Ok(this) && Current() == old(Current()).(attackable := true)
    {
      if built || attackable {
        return Err(IllegalState);
      }
      attackable := true;
      return Ok(this);
    }

    /** `aggressive`: sets the flag, once only. */
    method Aggressive() returns (r: Result<Builder, Fault>)
      modifies this
      ensures built == old(built) && (Valid(old(Current())) ==> Valid(Current()))
      ensures old(built) || old(aggressive) ==> r == Err(IllegalState) && Current() == old(Current())
      ensures !old(built) && !old(aggressive) ==> r == Ok(this) && Current() == old(Current()).(aggressive := true)
    {
      if built || aggressive {
        return Err(IllegalState);
      }
      aggressive := true;
      return Ok(this);
    }

    /** `poisonous`: sets the flag, once only. */
    method Poisonous() returns (r: Result<Builder, Fault>)
      modifies this
      ensures built == old(built) && (Valid(old(Current())) ==> Valid(Current()))
      ensures old(built) || old(poisonous) ==> r == Err(IllegalState) && Current() == old(Current())
      ensures !old(built) && !old(poisonous) ==> r == Ok(this) && Current() == old(Current()).(poisonous := true)
    {
      if built || poisonous {
        return Err(IllegalState);
      }
      poisonous := true;
      return Ok(this);
    }

    /** `lifePoints`: once only (while still 0), and positive. */
    method LifePoints(lifePoints: Int32) returns (r: Result<Builder, Fault>)
      modifies this
      ensures built == old(built) && (Valid(old(Current())) ==> Valid(Current()))
      ensures old(built) || old(this.lifePoints) != 0 ==> r == Err(IllegalState) && Current() == old(Current())
      ensures !old(built) && old(this.lifePoints) == 0 && lifePoints <= 0 ==> r == Err(IllegalArgument) && Current() == old(Current())
      ensures !old(built) && old(this.lifePoints) == 0 && lifePoints > 0 ==>
        r == Ok(this) && Current() == old(Current()).(lifePoints := lifePoints)
    {
      if built || this.lifePoints != 0 {
        return Err(IllegalState);
      }
      if lifePoints <= 0 {
        return Err(IllegalArgument);
      }
      this.lifePoints := lifePoints;
      return Ok(this);
    }

    /** `combatLevel`: once only (while still 0), and positive. */
    method CombatLevel(combatLevel: Int32) returns (r: Result<Builder, Fault>)
      modifies this
      ensures built == old(built) && (Valid(old(Current())) ==> Valid(Current()))
      ensures old(built) || old(this.combatLevel) != 0 ==> r == Err(IllegalState) && Current() == old(Current())
      ensures !old(built) && old(this.combatLevel) == 0 && combatLevel <= 0 ==> r == Err(IllegalArgument) && Current() == old(Current())
      ensures !old(built) && old(this.combatLevel) == 0 && combatLevel > 0 ==>
        r == Ok(this) && Current() == old(Current()).(combatLevel := combatLevel)
    {
      if built || this.combatLevel != 0 {
        return Err(IllegalState);
      }
      if combatLevel <= 0 {
        return Err(IllegalArgument);
      }
      this.combatLevel := combatLevel;
      return Ok(this);
    }

    /** `defenceLevel`: once only (while still 0), and positive. */
    method DefenceLevel(defenceLevel: Int32) returns (r: Result<Builder, Fault>)
      modifies this
      ensures built == old(built) && (Valid(old(Current())) ==> Valid(Current()))
      ensures old(built) || old(this.defenceLevel) != 0 ==> r == Err(IllegalState) && Current() == old(Current())
      ensures !old(built) && old(this.defenceLevel) == 0 && defenceLevel <= 0 ==> r == Err(IllegalArgument) && Current() == old(Current())
      ensures !old(built) && old(this.defenceLevel) == 0 && defenceLevel > 0 ==>
        r == Ok(this) && Current() == old(Current()).(defenceLevel := defenceLevel)
    {
      if built || this.defenceLevel != 0 {
        return Err(IllegalState);
      }
      if defenceLevel <= 0 {
        return Err(IllegalArgument);
      }
      this.defenceLevel := defenceLevel;
      return Ok(this);
    }

    /** `attackLevel`: once only (while still 0), and positive. */
    method AttackLevel(attackLevel: Int32) returns (r: Result<Builder, Fault>)
      modifies this
      ensures built == old(built) && (Valid(old(Current())) ==> Valid(Current()))
      ensures old(built) || old(this.attackLevel) != 0 ==> r == Err(IllegalState) && Current() == old(Current())
      ensures !old(built) && old(this.attackLevel) == 0 && attackLevel <= 0 ==> r == Err(IllegalArgument) && Current() == old(Current())
      ensures !old(built) && old(this.attackLevel) == 0 && attackLevel > 0 ==>
        r == Ok(this) && Current() == old(Current()).(attackLevel := attackLevel)
    {
      if built || this.attackLevel != 0 {
        return Err(IllegalState);
      }
      if attackLevel <= 0 {
        return Err(IllegalArgument);
      }
      this.attackLevel := attackLevel;
      return Ok(this);
    }

    /** `magicLevel`: once only (while still 0), and positive. */
    method MagicLevel(magicLevel: Int32) returns (r: Result<Builder, Fault>)
      modifies this
      ensures built == old(built) && (Valid(old(Current())) ==> Valid(Current()))
      ensures old(built) || old(this.magicLevel) != 0 ==> r == Err(IllegalState) && Current() == old(Current())
      ensures !old(built) && old(this.magicLevel) == 0 && magicLevel <= 0 ==> r == Err(IllegalArgument) && Current() == old(Current())
      ensures !old(built) && old(this.magicLevel) == 0 && magicLevel > 0 ==>
        r == Ok(this) && Current() == old(Current()).(magicLevel := magicLevel)
    {
      if built || this.magicLevel != 0 {
        return Err(IllegalState);
      }
      if magicLevel <= 0 {
        return Err(IllegalArgument);
      }
      this.magicLevel := magicLevel;
      return Ok(this);
    }

    /** `rangedLevel`: once only (while still 0), and positive. */
    method RangedLevel(rangedLevel: Int32) returns (r: Result<Builder, Fault>)
      modifies this
      ensures built == old(built) && (Valid(old(Current())) ==> Valid(Current()))
      ensures old(built) || old(this.rangedLevel) != 0 ==> r == Err(IllegalState) && Current() == old(Current())
      ensures !old(built) && old(this.rangedLevel) == 0 && rangedLevel <= 0 ==> r == Err(IllegalArgument) && Current() == old(Current())
      ensures !old(built) && old(this.rangedLevel) == 0 && rangedLevel > 0 ==>
        r == Ok(this) && Current() == old(Current()).(rangedLevel := rangedLevel)
    {
      if built || this.rangedLevel != 0 {
        return Err(IllegalState);
      }
      if rangedLevel <= 0 {
        return Err(IllegalArgument);
      }
      this.rangedLevel := rangedLevel;
      return Ok(this);
    }

    /** `requiredSlayerLevel`: once only (while still 0), and positive. */
    method RequiredSlayerLevel(requiredSlayerLevel: Int32) returns (r: Result<Builder, Fault>)
      modifies this
      ensures built == old(built) && (Valid(old(Current())) ==> Valid(Current()))
      ensures old(built) || old(this.requiredSlayerLevel) != 0 ==> r == Err(IllegalState) && Current() == old(Current())
      ensures !old(built) && old(this.requiredSlayerLevel) == 0 && requiredSlayerLevel <= 0 ==>
        r == Err(IllegalArgument) && Current() == old(Current())
      ensures !old(built) && old(this.requiredSlayerLevel) == 0 && requiredSlayerLevel > 0 ==>
        r == Ok(this) && Current() == old(Current()).(requiredSlayerLevel := requiredSlayerLevel)
    {
      if built || this.requiredSlayerLevel != 0 {
        return Err(IllegalState);
      }
      if requiredSlayerLevel <= 0 {
        return Err(IllegalArgument);
      }
      this.requiredSlayerLevel := requiredSlayerLevel;
      return Ok(this);
    }

    /** `size`: once only (while still 1), and above 1. */
    method Size(size: Int32) returns (r: Result<Builder, Fault>)
      modifies this
      ensures built == old(built) && (Valid(old(Current())) ==> Valid(Current()))
      ensures old(built) || old(this.size) != 1 ==> r == Err(IllegalState) && Current() == old(Current())
      ensures !old(built) && old(this.size) == 1 && size <= 1 ==> r == Err(IllegalArgument) && Current() == old(Current())
      ensures !old(built) && old(this.size) == 1 && size > 1 ==> r == Ok(this) && Current() == old(Current()).(size := size)
    {
      if built || this.size != 1 {
        return Err(IllegalState);
      }
      if size <= 1 {
        return Err(IllegalArgument);
      }
      this.size := size;
      return Ok(this);
    }

    /** `membersOnly`: sets the flag, once only. */
    method MembersOnly() returns (r: Result<Builder, Fault>)
      modifies this
      ensures built == old(built) && (Valid(old(Current())) ==> Valid(Current()))
      ensures old(built) || old(membersOnly) ==> r == Err(IllegalState) && Current() == old(Current())
      ensures !old(built) && !old(membersOnly) ==> r == Ok(this) && Current() == old(Current()).(membersOnly := true)
    {
      if built || membersOnly {
        return Err(IllegalState);
      }
      membersOnly := true;
      return Ok(this);
    }

    /** `slayerCategory`: once only (while still null), and not empty. */
    method SlayerCategory(slayerCategory: string) returns (r: Result<Builder, Fault>)
      modifies this
      ensures built == old(built) && (Valid(old(Current())) ==> Valid(Current()))
      ensures old(built) || old(this.slayerCategory).Some? ==> r == Err(IllegalState) && Current() == old(Current())
      ensures !old(built) && old(this.slayerCategory).None? && slayerCategory == "" ==>
        r == Err(IllegalArgument) && Current() == old(Current())
      ensures !old(built) && old(this.slayerCategory).None? && slayerCategory != "" ==>
        r == Ok(this) && Current() == old(Current()).(slayerCategory := Some(slayerCategory))
    {
      if built || this.slayerCategory.Some? {
        return Err(IllegalState);
      }
      if slayerCategory == "" {
        return Err(IllegalArgument);
      }
      this.slayerCategory := Some(slayerCategory);
      return Ok(this);
    }

    /** `area`: adds a non-empty area name to the set, so naming an area twice keeps one copy. */
    method Area(area: string) returns (r: Result<Builder, Fault>)
      modifies this
      ensures built == old(built) && (Valid(old(Current())) ==> Valid(Current()))
      ensures old(built) ==> r == Err(IllegalState) && Current() == old(Current())
      ensures !old(built) && area == "" ==> r == Err(IllegalArgument) && Current() == old(Current())
      ensures !old(built) && area != "" ==> r == Ok(this) && Current() == old(Current()).(areas := old(areas) + {area})
    {
      if built {
        return Err(IllegalState);
      }
      if area == "" {
        return Err(IllegalArgument);
      }
      areas := areas + {area};
      return Ok(this);
    }

    /** `animation`: stores a positive id under a non-empty name, replacing any id stored there before. */
    method Animation(name: string, id: Int32) returns (r: Result<Builder, Fault>)
      modifies this
      ensures built == old(built) && (Valid(old(Current())) ==> Valid(Current()))
      ensures old(built) ==> r == Err(IllegalState) && Current() == old(Current())
      ensures !old(built) && (name == "" || id <= 0) ==> r == Err(IllegalArgument) && Current() == old(Current())
      ensures !old(built) && name != "" && id > 0 ==>
        r == Ok(this) && Current() == old(Current()).(animations := old(animations)[name := id])
    {
      if built {
        return Err(IllegalState);
      }
      if name == "" || id <= 0 {
        return Err(IllegalArgument);
      }
      animations := animations[name := id];
      return Ok(this);
    }

    /**
     * `build`: IllegalStateException once built. Otherwise the builder is
     * spent and the beast carries its values, with the area set listed once
     * each in whatever order the set yields them.
     */
    method Build() returns (r: Result<Beast, Fault>)
      modifies this
      ensures built && Current() == old(Current())
      ensures old(built) ==> r == Err(IllegalState)
      ensures !old(built) ==> r.Ok? && Lists(r.value.areas, areas) && r.value == Assemble(id, Current(), r.value.areas)
    {
      if built {
        return Err(IllegalState);
      }
      built := true;
      var list: seq<string> := [];
      var rest := areas;
      while rest != {}
        invariant rest <= areas && Distinct(list)
        invariant forall a :: a in list <==> a in areas && a !in rest
        decreases rest
      {
        var a :| a in rest;
        list := list + [a];
        rest := rest - {a};
      }
      return Ok(Assemble(id, Current(), list));
    }
  }
}
