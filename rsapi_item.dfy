/**
 * `Item` of the `com.mikebull94.rsapi` Grand Exchange and its set-once
 * `Builder`. Object references the builder leaves null are `None`.
 */
module RsapiItem {
  import opened Wrappers
  import opened JavaLang

  /** `PriceTrend`: a trend word and a price as text. */
  datatype PriceTrend = PriceTrend(trend: string, price: string)

  /** `PriceChange`: a trend word and a percentage change as text. */
  datatype PriceChange = PriceChange(trend: string, change: string)

  /** An item: the two price trends are always present, the three price changes may be null. */
  datatype Item = Item(
    icon: string,
    iconLarge: string,
    id: Int32,
    itemType: string,
    typeIcon: string,
    name: string,
    description: string,
    current: PriceTrend,
    today: PriceTrend,
    membersOnly: bool,
    day30: Option<PriceChange>,
    day90: Option<PriceChange>,
    day180: Option<PriceChange>)

  /** The values a builder holds, field by field. */
  datatype Settings = Settings(
    icon: string,
    iconLarge: string,
    itemType: string,
    typeIcon: string,
    name: string,
    description: string,
    current: Option<PriceTrend>,
    today: Option<PriceTrend>,
    membersOnly: bool,
    day30: Option<PriceChange>,
    day90: Option<PriceChange>,
    day180: Option<PriceChange>)

  /** What a new builder holds. */
  const DEFAULTS := Settings("", "", "", "", "", "", None, None, false, None, None, None)

  /**
   * The private `Item` constructor: IllegalArgumentException for a negative
   * id, then NullPointerException for a missing current or today's price.
   */
  function NewItem(id: Int32, s: Settings): (r: Result<Item, Fault>)
    ensures r.Ok? <==> id >= 0 && s.current.Some? && s.today.Some?
    ensures id < 0 ==> r == Err(IllegalArgument)
    ensures id >= 0 && (s.current.None? || s.today.None?) ==> r == Err(NullPointer)
    ensures r.Ok? ==> r.value.id == id && Some(r.value.current) == s.current && Some(r.value.today) == s.today
  {
    if id < 0 then Err(IllegalArgument)
    else if s.current.None? || s.today.None? then Err(NullPointer)
    else Ok(Item(s.icon, s.iconLarge, id, s.itemType, s.typeIcon, s.name, s.description, s.current.value,
                 s.today.value, s.membersOnly, s.day30, s.day90, s.day180))
  }

  /**
   * The price changes of a constructed item are what the builder held, so
   * `getDay30`, `getDay90` and `getDay180` are empty exactly when the
   * matching change was never set; the other fields carry over unchanged.
   */
  lemma ConstructedItemKeepsSettings(id: Int32, s: Settings)
    requires NewItem(id, s).Ok?
    ensures var item := NewItem(id, s).value;
      && item.day30 == s.day30 && item.day90 == s.day90 && item.day180 == s.day180
      && (item.day30.None? <==> s.day30.None?)
      && (item.day90.None? <==> s.day90.None?)
      && (item.day180.None? <==> s.day180.None?)
      && item.icon == s.icon && item.iconLarge == s.iconLarge && item.itemType == s.itemType
      && item.typeIcon == s.typeIcon && item.name == s.name && item.description == s.description
      && item.membersOnly == s.membersOnly
  {
  }

  /** Two builders' values that build items build equal items only when the values and ids agree. */
  lemma NewItemInjective(id1: Int32, s1: Settings, id2: Int32, s2: Settings)
    requires NewItem(id1, s1).Ok? && NewItem(id2, s2).Ok?
    ensures NewItem(id1, s1) == NewItem(id2, s2) <==> id1 == id2 && s1 == s2
  {
  }

  /** `equals`: all thirteen fields compared. */
  predicate Equals(a: Item, b: Item)
    ensures Equals(a, b) <==> a == b
  {
    && a.id == b.id && a.membersOnly == b.membersOnly
    && a.icon == b.icon && a.iconLarge == b.iconLarge && a.itemType == b.itemType && a.typeIcon == b.typeIcon
    && a.name == b.name && a.description == b.description && a.current == b.current && a.today == b.today
    && a.day30 == b.day30 && a.day90 == b.day90 && a.day180 == b.day180
  }

  /** `equals` is an equivalence: reflexive, symmetric and transitive. */
  lemma EqualsIsEquivalence(a: Item, b: Item, c: Item)
    ensures Equals(a, a)
    ensures Equals(a, b) == Equals(b, a)
    ensures Equals(a, b) && Equals(b, c) ==> Equals(a, c)
  {
  }

  /** `Item.Builder`: the `built` flag, the item id and the twelve fields the setters fill. */
  class Builder {
    var built: bool
    const id: Int32
    var icon: string
    var iconLarge: string
    var itemType: string
    var typeIcon: string
    var name: string
    var description: string
    var current: Option<PriceTrend>
    var today: Option<PriceTrend>
    var membersOnly: bool
    var day30: Option<PriceChange>
    var day90: Option<PriceChange>
    var day180: Option<PriceChange>

    /** The builder's current values. */
    function Current(): Settings
      reads this
    {
      Settings(icon, iconLarge, itemType, typeIcon, name, description, current, today, membersOnly,
               day30, day90, day180)
    }

    /** `Item.builder(id)`. */
    constructor (id: Int32)
      ensures !built && this.id == id && Current() == DEFAULTS
    {
      built := false;
      this.id := id;
      icon := "";
      iconLarge := "";
      itemType := "";
      typeIcon := "";
      name := "";
      description := "";
      current := None;
      today := None;
      membersOnly := false;
      day30 := None;
      day90 := None;
      day180 := None;
    }

    /** `icon`: once only, and not empty. */
    method Icon(icon: string) returns (r: Result<Builder, Fault>)
      modifies this
      ensures built == old(built)
      ensures old(built) || old(this.icon) != "" ==> r == Err(IllegalState) && Current() == old(Current())
      ensures !old(built) && old(this.icon) == "" && icon == "" ==> r == Err(IllegalArgument) && Current() == old(Current())
      ensures !old(built) && old(this.icon) == "" && icon != "" ==> r == Ok(this) && Current() == old(Current()).(icon := icon)
    {
      if built || this.icon != "" {
        return Err(IllegalState);
      }
      if icon == "" {
        return Err(IllegalArgument);
      }
      this.icon := icon;
      return Ok(this);
    }

    /** `largeIcon`: once only, and not empty. */
    method LargeIcon(iconLarge: string) returns (r: Result<Builder, Fault>)
      modifies this
      ensures built == old(built)
      ensures old(built) || old(this.iconLarge) != "" ==> r == Err(IllegalState) && Current() == old(Current())
      ensures !old(built) && old(this.iconLarge) == "" && iconLarge == "" ==>
        r == Err(IllegalArgument) && Current() == old(Current())
      ensures !old(built) && old(this.iconLarge) == "" && iconLarge != "" ==>
        r == Ok(this) && Current() == old(Current()).(iconLarge := iconLarge)
    {
      if built || this.iconLarge != "" {
        return Err(IllegalState);
      }
      if iconLarge == "" {
        return Err(IllegalArgument);
      }
      this.iconLarge := iconLarge;
      return Ok(this);
    }

    /** `type`: once only, and not empty. */
    method Type(itemType: string) returns (r: Result<Builder, Fault>)
      modifies this
      ensures built == old(built)
      ensures old(built) || old(this.itemType) != "" ==> r == Err(IllegalState) && Current() == old(Current())
      ensures !old(built) && old(this.itemType) == "" && itemType == "" ==>
        r == Err(IllegalArgument) && Current() == old(Current())
      ensures !old(built) && old(this.itemType) == "" && itemType != "" ==>
        r == Ok(this) && Current() == old(Current()).(itemType := itemType)
    {
      if built || this.itemType != "" {
        return Err(IllegalState);
      }
      if itemType == "" {
        return Err(IllegalArgument);
      }
      this.itemType := itemType;
      return Ok(this);
    }

    /** `typeIcon`: once only, and not empty. */
    method TypeIcon(typeIcon: string) returns (r: Result<Builder, Fault>)
      modifies this
      ensures built == old(built)
      ensures old(built) || old(this.typeIcon) != "" ==> r == Err(IllegalState) && Current() == old(Current())
      ensures !old(built) && old(this.typeIcon) == "" && typeIcon == "" ==>
        r == Err(IllegalArgument) && Current() == old(Current())
      ensures !old(built) && old(this.typeIcon) == "" && typeIcon != "" ==>
        r == Ok(this) && Current() == old(Current()).(typeIcon := typeIcon)
    {
      if built || this.typeIcon != "" {
        return Err(IllegalState);
      }
      if typeIcon == "" {
        return Err(IllegalArgument);
      }
      this.typeIcon := typeIcon;
      return Ok(this);
    }

    /** `name`: once only, and not empty. */
    method Name(name: string) returns (r: Result<Builder, Fault>)
      modifies this
      ensures built == old(built)
      ensures old(built) || old(this.name) != "" ==> r == Err(IllegalState) && Current() == old(Current())
      ensures !old(built) && old(this.name) == "" && name == "" ==> r == Err(IllegalArgument) && Current() == old(Current())
      ensures !old(built) && old(this.name) == "" && name != "" ==> r == Ok(this) && Current() == old(Current()).(name := name)
    {
      if built || this.name != "" {
        return Err(IllegalState);
      }
      if name == "" {
        return Err(IllegalArgument);
      }
      this.name := name;
      return Ok(this);
    }

    /** `description`: once only, and not empty. */
    method Description(description: string) returns (r: Result<Builder, Fault>)
      modifies this
      ensures built == old(built)
      ensures old(built) || old(this.description) != "" ==> r == Err(IllegalState) && Current() == old(Current())
      ensures !old(built) && old(this.description) == "" && description == "" ==>
        r == Err(IllegalArgument) && Current() == old(Current())
      ensures !old(built) && old(this.description) == "" && description != "" ==>
        r == Ok(this) && Current() == old(Current()).(description := description)
    {
      if built || this.description != "" {
        return Err(IllegalState);
      }
      if description == "" {
        return Err(IllegalArgument);
      }
      this.description := description;
      return Ok(this);
    }

    /** `currentPrice`: once only, and not null. */
    method CurrentPrice(current: Option<PriceTrend>) returns (r: Result<Builder, Fault>)
      modifies this
      ensures built == old(built)
      ensures old(built) || old(this.current).Some? ==> r == Err(IllegalState) && Current() == old(Current())
      ensures !old(built) && old(this.current).None? && current.None? ==> r == Err(NullPointer) && Current() == old(Current())
      ensures !old(built) && old(this.current).None? && current.Some? ==>
        r == Ok(this) && Current() == old(Current()).(current := current)
    {
      if built || this.current.Some? {
        return Err(IllegalState);
      }
      if current.None? {
        return Err(NullPointer);
      }
      this.current := current;
      return Ok(this);
    }

    /** `todaysPrice`: once only, and not null. */
    method TodaysPrice(today: Option<PriceTrend>) returns (r: Result<Builder, Fault>)
      modifies this
      ensures built == old(built)
      ensures old(built) || old(this.today).Some? ==> r == Err(IllegalState) && Current() == old(Current())
      ensures !old(built) && old(this.today).None? && today.None? ==> r == Err(NullPointer) && Current() == old(Current())
      ensures !old(built) && old(this.today).None? && today.Some? ==>
        r == Ok(this) && Current() == old(Current()).(today := today)
    {
      if built || this.today.Some? {
        return Err(IllegalState);
      }
      if today.None? {
        return Err(NullPointer);
      }
      this.today := today;
      return Ok(this);
    }

    /** `membersOnly`: sets the flag, once only. */
    method MembersOnly() returns (r: Result<Builder, Fault>)
      modifies this
      ensures built == old(built)
      ensures old(built) || old(membersOnly) ==> r == Err(IllegalState) && Current() == old(Current())
      ensures !old(built) && !old(membersOnly) ==> r == Ok(this) && Current() == old(Current()).(membersOnly := true)
    {
      if built || membersOnly {
        return Err(IllegalState);
      }
      membersOnly := true;
      return Ok(this);
    }

    /** `priceChange30Days`: once only, and not null. */
    method PriceChange30Days(day30: Option<PriceChange>) returns (r: Result<Builder, Fault>)
      modifies this
      ensures built == old(built)
      ensures old(built) || old(this.day30).Some? ==> r == Err(IllegalState) && Current() == old(Current())
      ensures !old(built) && old(this.day30).None? && day30.None? ==> r == Err(NullPointer) && Current() == old(Current())
      ensures !old(built) && old(this.day30).None? && day30.Some? ==>
        r == Ok(this) && Current() == old(Current()).(day30 := day30)
    {
      if built || this.day30.Some? {
        return Err(IllegalState);
      }
      if day30.None? {
        return Err(NullPointer);
      }
      this.day30 := day30;
      return Ok(this);
    }

    /** `priceChange90Days`: once only, and not null. */
    method PriceChange90Days(day90: Option<PriceChange>) returns (r: Result<Builder, Fault>)
      modifies this
      ensures built == old(built)
      ensures old(built) || old(this.day90).Some? ==> r == Err(IllegalState) && Current() == old(Current())
      ensures !old(built) && old(this.day90).None? && day90.None? ==> r == Err(NullPointer) && Current() == old(Current())
      ensures !old(built) && old(this.day90).None? && day90.Some? ==>
        r == Ok(this) && Current() == old(Current()).(day90 := day90)
    {
      if built || this.day90.Some? {
        return Err(IllegalState);
      }
      if day90.None? {
        return Err(NullPointer);
      }
      this.day90 := day90;
      return Ok(this);
    }

    /** `priceChange180Days`: once only, and not null. */
    method PriceChange180Days(day180: Option<PriceChange>) returns (r: Result<Builder, Fault>)
      modifies this
      ensures built == old(built)
      ensures old(built) || old(this.day180).Some? ==> r == Err(IllegalState) && Current() == old(Current())
      ensures !old(built) && old(this.day180).None? && day180.None? ==> r == Err(NullPointer) && Current() == old(Current())
      ensures !old(built) && old(this.day180).None? && day180.Some? ==>
        r == Ok(this) && Current() == old(Current()).(day180 := day180)
    {
      if built || this.day180.Some? {
        return Err(IllegalState);
      }
      if day180.None? {
        return Err(NullPointer);
      }
      this.day180 := day180;
      return Ok(this);
    }

    /**
     * `build`: IllegalStateException once built. Otherwise the builder is
     * spent before the constructor runs, so it stays spent even when the
     * constructor rejects a negative id or a missing price.
     */
    method Build() returns (r: Result<Item, Fault>)
      modifies this
      ensures built && Current() == old(Current())
      ensures old(built) ==> r == Err(IllegalState)
      ensures !old(built) ==> r == NewItem(id, Current())
    {
      if built {
        return Err(IllegalState);
      }
      built := true;
      return NewItem(id, Current());
    }
  }
}
