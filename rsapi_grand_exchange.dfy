/**
 * `GrandExchange` of the `com.mikebull94.rsapi` revision: the category list,
 * the checks on category ids and item-name prefixes, and the URLs the
 * category and price queries fetch.
 *
 * What the web service decodes from a URL is the parameter `fetch`; its
 * value type `T` stands for the `Category` or `CategoryPrices` record,
 * which this model does not look into.
 */
module RsapiGrandExchange {
  import opened Wrappers
  import opened JavaLang
  import RsapiBestiary

  const GRAND_EXCHANGE_URL := RsapiBestiary.WEB_SERVICES_URL + "/m=itemdb_rs/api"
  const CATEGORY_URL := GRAND_EXCHANGE_URL + "/catalogue/category.json"
  const ITEMS_URL := GRAND_EXCHANGE_URL + "/catalogue/items.json"

  /** `CATEGORIES`: a category's id is its position in this list. */
  const CATEGORIES: seq<string> := [
    "Miscellaneous", "Ammo", "Arrows", "Bolts", "Construction materials", "Construction projects",
    "Cooking ingredients", "Costumes", "Crafting materials", "Familiars", "Farming produce",
    "Fletching materials", "Food and drink", "Herblore materials", "Hunting equipment", "Hunting produce",
    "Jewellery", "Mage armour", "Mage weapons", "Melee armour - low level", "Melee armour - mid level",
    "Melee armour - high level", "Melee weapons - low level", "Melee weapons - mid level",
    "Melee weapons - high level", "Mining and smithing", "Potions", "Prayer armour", "Prayer materials",
    "Range armour", "Range weapons", "Runecrafting", "Runes, Spells and Teleports", "Seeds",
    "Summoning scrolls", "Tools and containers", "Woodcutting product", "Pocket items"]

  lemma CategoryChunk0() ensures DistinctFrom(CATEGORIES, 0, 1) { }
  lemma CategoryChunk1() ensures DistinctFrom(CATEGORIES, 1, 2) { }
  lemma CategoryChunk2() ensures DistinctFrom(CATEGORIES, 2, 4) { }
  lemma CategoryChunk3() ensures DistinctFrom(CATEGORIES, 4, 6) { }
  lemma CategoryChunk4() ensures DistinctFrom(CATEGORIES, 6, 8) { }
  lemma CategoryChunk5() ensures DistinctFrom(CATEGORIES, 8, 10) { }
  lemma CategoryChunk6() ensures DistinctFrom(CATEGORIES, 10, 12) { }
  lemma CategoryChunk7() ensures DistinctFrom(CATEGORIES, 12, 14) { }
  lemma CategoryChunk8() ensures DistinctFrom(CATEGORIES, 14, 16) { }
  lemma CategoryChunk9() ensures DistinctFrom(CATEGORIES, 16, 18) { }
  lemma CategoryChunk10() ensures DistinctFrom(CATEGORIES, 18, 20) { }
  lemma CategoryChunk11() ensures DistinctFrom(CATEGORIES, 20, 24) { }
  lemma CategoryChunk12() ensures DistinctFrom(CATEGORIES, 24, 30) { }
  lemma CategoryChunk13() ensures DistinctFrom(CATEGORIES, 30, 38) { }

  /** There are 38 categories and no name appears twice. */
  lemma CategoriesDistinct()
    ensures |CATEGORIES| == 38 && Distinct(CATEGORIES)
  {
    CategoryChunk0();
    CategoryChunk1();
    CategoryChunk2();
    CategoryChunk3();
    CategoryChunk4();
    CategoryChunk5();
    CategoryChunk6();
    CategoryChunk7();
    CategoryChunk8();
    CategoryChunk9();
    CategoryChunk10();
    CategoryChunk11();
    CategoryChunk12();
    CategoryChunk13();
    DistinctByChunks(CATEGORIES, [0, 1, 2, 4, 6, 8, 10, 12, 14, 16, 18, 20, 24, 30, 38]);
  }

  /** "Potions" is category 26 and "Ammo" category 1. */
  lemma KnownCategoryIds()
    ensures IndexOf(CATEGORIES, "Potions") == 26
    ensures IndexOf(CATEGORIES, "Ammo") == 1
  {
    assert CATEGORIES[26] == "Potions" && CATEGORIES[1] == "Ammo" && CATEGORIES[0] != "Ammo";
    assert forall j :: 0 <= j < 13 ==> CATEGORIES[j] != "Potions";
    assert forall j :: 13 <= j < 26 ==> CATEGORIES[j] != "Potions";
  }

  /** `checkElementIndex(categoryId, CATEGORIES.size())`, then the category URL. */
  function CategoryUrl(categoryId: int): (r: Result<string, Fault>)
    ensures r.Ok? <==> 0 <= categoryId < |CATEGORIES|
    ensures r.Err? ==> r.error == IndexOutOfBounds
    ensures r.Ok? ==> |CATEGORY_URL + "?"| <= |r.value| && r.value[..|CATEGORY_URL + "?"|] == CATEGORY_URL + "?"
  {
    if 0 <= categoryId < |CATEGORIES| then Ok(CATEGORY_URL + "?" + Param("category", DecimalString(categoryId)))
    else Err(IndexOutOfBounds)
  }

  /** `category(int)`: IndexOutOfBoundsException unless 0 <= id < 38; otherwise the fetched category. */
  function Category<T>(fetch: string -> Option<T>, categoryId: int): (r: Result<Option<T>, Fault>)
    ensures r.Ok? <==> 0 <= categoryId < 38
    ensures r.Err? ==> r.error == IndexOutOfBounds
    ensures r.Ok? ==> r.value == fetch(CategoryUrl(categoryId).value)
  {
    var url :- CategoryUrl(categoryId);
    Ok(fetch(url))
  }

  /** `category(String)`: the id is the name's position, -1 for an unknown name. */
  function CategoryNamed<T>(fetch: string -> Option<T>, categoryName: string): (r: Result<Option<T>, Fault>)
    ensures categoryName !in CATEGORIES ==> r == Err(IndexOutOfBounds)
  {
    Category(fetch, IndexOf(CATEGORIES, categoryName))
  }

  /** A listed name asks for the category with that name's id; "Potions" asks for category 26. */
  lemma CategoryNameResolves<T>(fetch: string -> Option<T>, i: int)
    requires 0 <= i < |CATEGORIES|
    ensures CategoryNamed(fetch, CATEGORIES[i]) == Category(fetch, i)
    ensures CategoryNamed(fetch, "Potions") == Category(fetch, 26)
  {
    CategoriesDistinct();
    IndexOfDistinct(CATEGORIES, i);
    KnownCategoryIds();
  }

  /** The `alpha` parameter: "%" and the parsed value when the prefix is an int numeral, else the prefix. */
  function Alpha(prefix: string): (r: string)
    ensures ParseInt(prefix).Err? ==> r == prefix
    ensures ParseInt(prefix).Ok? ==> |r| > 1 && r[0] == '%' && ParseInt(r[1..]) == ParseInt(prefix)
  {
    match ParseInt(prefix)
    case Ok(n) =>
      IntDecimalRoundTrip(n);
      assert ("%" + DecimalString(n))[1..] == DecimalString(n);
      "%" + DecimalString(n)
    case Err(_) => prefix
  }

  /**
   * A prefix written as an int's decimal comes out behind a '%'; a prefix
   * that does not start with a digit or a sign is kept as it is; and leading
   * zeros are dropped, so "007" becomes "%7".
   */
  lemma AlphaCases(n: Int32, prefix: string)
    ensures Alpha(DecimalString(n)) == "%" + DecimalString(n)
    ensures |prefix| > 0 && !IsDigit(prefix[0]) && prefix[0] != '-' && prefix[0] != '+' ==> Alpha(prefix) == prefix
    ensures Alpha("007") == "%7"
  {
    IntDecimalRoundTrip(n);
    assert ParseNumeral("007", true) == Some(7) by {
      assert "007"[..2] == "00" && "00"[..1] == "0" && "0"[..0] == [];
      assert ValueOf("007") == 7;
    }
    assert Digits(7) == "7";
  }

  /**
   * The items URL of `categoryPrices(int, String, int)`: the id is checked
   * first (IndexOutOfBoundsException), then the prefix must not be empty
   * (IllegalArgumentException).
   */
  function ItemsUrl(categoryId: int, prefix: string, page: Int32): (r: Result<string, Fault>)
    ensures !(0 <= categoryId < |CATEGORIES|) ==> r == Err(IndexOutOfBounds)
    ensures 0 <= categoryId < |CATEGORIES| && prefix == "" ==> r == Err(IllegalArgument)
    ensures r.Ok? <==> 0 <= categoryId < |CATEGORIES| && prefix != ""
    ensures r.Ok? ==> r.value == ITEMS_URL + "?" + ItemsQuery(DecimalString(categoryId), Alpha(prefix), DecimalString(page))
  {
    if !(0 <= categoryId < |CATEGORIES|) then Err(IndexOutOfBounds)
    else if prefix == "" then Err(IllegalArgument)
    else Ok(ITEMS_URL + "?" + ItemsQuery(DecimalString(categoryId), Alpha(prefix), DecimalString(page)))
  }

  /** The query string of the items URL, from the category id, alpha and page as sent. */
  function ItemsQuery(category: string, alpha: string, page: string): string
  {
    "category=" + category + "&alpha=" + alpha + "&page=" + page
  }

  /** One query parameter: its name, '=' and its value. */
  function Param(name: string, value: string): string
  {
    name + "=" + value
  }

  /** A decimal numeral holds neither of the query delimiters '&' and '='. */
  lemma DecimalHasNoDelimiter(n: int)
    ensures '&' !in DecimalString(n) && '=' !in DecimalString(n)
  {
    var d := Digits(if n < 0 then -n else n);
    assert forall i :: 0 <= i < |d| ==> IsDigit(d[i]);
  }

  /** The query of the category URL is "category=" and the id, which parses back. */
  lemma CategoryQueryReadBack(categoryId: int)
    requires 0 <= categoryId < |CATEGORIES|
    ensures var url := CategoryUrl(categoryId).value;
      Split(url[|CATEGORY_URL + "?"|..], '=') == ["category", DecimalString(categoryId)]
    ensures ParseInt(DecimalString(categoryId)) == Ok(categoryId)
  {
    var base := CATEGORY_URL + "?";
    assert CategoryUrl(categoryId).value[|base|..] == Param("category", DecimalString(categoryId));
    DecimalHasNoDelimiter(categoryId);
    NameValueSplit("category", DecimalString(categoryId));
    IntDecimalRoundTrip(categoryId);
  }

  /**
   * For a prefix without '&' or '=', the query of the items URL cuts at '&'
   * into the category, alpha and page parameters, in that order, each of
   * which cuts at '=' into its name and the value sent.
   */
  lemma ItemsQueryReadBack(categoryId: int, prefix: string, page: Int32)
    requires ItemsUrl(categoryId, prefix, page).Ok?
    requires '&' !in prefix && '=' !in prefix
    ensures var params := Split(ItemsUrl(categoryId, prefix, page).value[|ITEMS_URL + "?"|..], '&');
      params == [Param("category", DecimalString(categoryId)), Param("alpha", Alpha(prefix)), Param("page", DecimalString(page))] &&
      Split(params[0], '=') == ["category", DecimalString(categoryId)] &&
      Split(params[1], '=') == ["alpha", Alpha(prefix)] &&
      Split(params[2], '=') == ["page", DecimalString(page)]
  {
    var c, a, g := DecimalString(categoryId), Alpha(prefix), DecimalString(page);
    var base := ITEMS_URL + "?";
    assert ItemsUrl(categoryId, prefix, page).value[|base|..] == ItemsQuery(c, a, g);
    DecimalHasNoDelimiter(categoryId);
    DecimalHasNoDelimiter(page);
    AlphaHasNoDelimiter(prefix);
    ItemsQuerySplits(c, a, g);
  }

  /** A query of delimiter-free values cuts back into its three parameters and their values. */
  lemma ItemsQuerySplits(c: string, a: string, g: string)
    requires '&' !in c && '=' !in c && '&' !in a && '=' !in a && '&' !in g && '=' !in g
    ensures var params := Split(ItemsQuery(c, a, g), '&');
      params == [Param("category", c), Param("alpha", a), Param("page", g)] &&
      Split(params[0], '=') == ["category", c] &&
      Split(params[1], '=') == ["alpha", a] &&
      Split(params[2], '=') == ["page", g]
  {
    var params := [Param("category", c), Param("alpha", a), Param("page", g)];
    ItemsQueryJoined(c, a, g);
    assert '&' !in params[0] && '&' !in params[1] && '&' !in params[2];
    SplitJoined(params, '&');
    NameValueSplit("category", c);
    NameValueSplit("alpha", a);
    NameValueSplit("page", g);
  }

  /** The query is its three parameters joined with '&'. */
  lemma ItemsQueryJoined(c: string, a: string, g: string)
    ensures ItemsQuery(c, a, g) == Joined([Param("category", c), Param("alpha", a), Param("page", g)], '&')
  {
    var p0, p1, p2 := Param("category", c), Param("alpha", a), Param("page", g);
    assert [p0, p1, p2][1..] == [p1, p2] && [p1, p2][1..] == [p2];
    assert Joined([p1, p2], '&') == p1 + "&" + p2;
    assert Joined([p0, p1, p2], '&') == p0 + "&" + (p1 + "&" + p2);
    assert p0 == "category=" + c by {
      assert "category" + "=" == "category=";
    }
    assert "&" + p1 == "&alpha=" + a by {
      assert "&" + "alpha" + "=" == "&alpha=";
    }
    assert "&" + p2 == "&page=" + g by {
      assert "&" + "page" + "=" == "&page=";
    }
  }

  /** The alpha value of a prefix without '&' or '=' has neither. */
  lemma AlphaHasNoDelimiter(prefix: string)
    requires '&' !in prefix && '=' !in prefix
    ensures '&' !in Alpha(prefix) && '=' !in Alpha(prefix)
  {
    if ParseInt(prefix).Ok? {
      DecimalHasNoDelimiter(ParseInt(prefix).value);
    }
  }

  /** "name=value" cuts at '=' into the name and the value when neither holds '='. */
  lemma NameValueSplit(name: string, value: string)
    requires '=' !in name && '=' !in value
    ensures Split(Param(name, value), '=') == [name, value]
  {
    SplitJoined([name, value], '=');
    assert Joined([name, value], '=') == name + "=" + value;
  }

  /** `categoryPrices(int, String, int)`. */
  function CategoryPrices<T>(fetch: string -> Option<T>, categoryId: int, prefix: string, page: Int32): (r: Result<Option<T>, Fault>)
    ensures r.Ok? <==> ItemsUrl(categoryId, prefix, page).Ok?
    ensures r.Err? ==> r == Err(ItemsUrl(categoryId, prefix, page).error)
    ensures r.Ok? ==> r.value == fetch(ItemsUrl(categoryId, prefix, page).value)
  {
    var url :- ItemsUrl(categoryId, prefix, page);
    Ok(fetch(url))
  }

  /**
   * `categoryPrices(String, String, int)`: the prefix is checked before the
   * name is resolved, so an empty prefix is an IllegalArgumentException
   * even for an unknown name.
   */
  function CategoryPricesNamed<T>(fetch: string -> Option<T>, categoryName: string, prefix: string, page: Int32): (r: Result<Option<T>, Fault>)
    ensures prefix == "" ==> r == Err(IllegalArgument)
    ensures prefix != "" && categoryName !in CATEGORIES ==> r == Err(IndexOutOfBounds)
    ensures prefix != "" ==> r == CategoryPrices(fetch, IndexOf(CATEGORIES, categoryName), prefix, page)
  {
    if prefix == "" then Err(IllegalArgument)
    else CategoryPrices(fetch, IndexOf(CATEGORIES, categoryName), prefix, page)
  }

  /**
   * The two overloads report an empty prefix with a bad category
   * differently: by id it is the index that fails, by name the prefix.
   */
  lemma EmptyPrefixOrder<T>(fetch: string -> Option<T>, categoryName: string)
    ensures CategoryPrices(fetch, -1, "", 1) == Err(IndexOutOfBounds)
    ensures CategoryPricesNamed(fetch, categoryName, "", 1) == Err(IllegalArgument)
  {
  }

  /** The values sent for category 1, alpha "a" and page 1. */
  lemma AmmoValues()
    ensures Alpha("a") == "a" && DecimalString(1) == "1"
  {
    assert "a"[0] == 'a' && !IsDigit('a');
    assert Digits(1) == [DigitChar(1)];
  }

  /** The items URL for category 1, prefix "a" and page 1. */
  lemma AmmoUrl()
    ensures ItemsUrl(1, "a", 1) == Ok(ITEMS_URL + "?category=1&alpha=a&page=1")
  {
    AmmoValues();
    var query := ItemsQuery("1", "a", "1");
    assert ItemsUrl(1, "a", 1) == Ok(ITEMS_URL + "?" + query);
    AmmoQuery();
    assert ITEMS_URL + "?" + query == ITEMS_URL + ("?" + query);
  }

  /** The query for category 1, alpha "a" and page 1. */
  lemma AmmoQuery()
    ensures "?" + ItemsQuery("1", "a", "1") == "?category=1&alpha=a&page=1"
  {
  }

  /** ("Ammo", "a", 1) fetches category 1 with alpha "a" on page 1. */
  lemma AmmoPrices<T>(fetch: string -> Option<T>)
    ensures CategoryPricesNamed(fetch, "Ammo", "a", 1) == Ok(fetch(ITEMS_URL + "?category=1&alpha=a&page=1"))
  {
    KnownCategoryIds();
    assert CategoryPricesNamed(fetch, "Ammo", "a", 1) == CategoryPrices(fetch, 1, "a", 1);
    AmmoUrl();
  }
}
