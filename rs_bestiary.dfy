/**
 * `Bestiary` of the `com.github.michaelbull.rs` revision. It runs the same
 * queries as the `com.mikebull94.rsapi` one but builds each URL with
 * `String.format` from a format string. Its client, search results and
 * `resultsToImmutableMap` are those of the other revision.
 */
module RsBestiary {
  import opened Wrappers
  import opened JavaLang
  import opened ImmutableMaps
  import RsapiBestiary

  type Client = RsapiBestiary.Client

  const BESTIARY_URL := RsapiBestiary.WEB_SERVICES_URL + "/m=itemdb_rs/bestiary"
  const BEAST_SEARCH_URL_FORMAT := BESTIARY_URL + "/beastSearch.json?term=%s"
  const BESTIARY_NAMES_URL_FORMAT := BESTIARY_URL + "/bestiaryNames.json?letter=%c"
  const AREA_BEASTS_URL_FORMAT := BESTIARY_URL + "/areaBeasts.json?identifier=%s"
  const SLAYER_CATEGORY_NAMES_URL := BESTIARY_URL + "/slayerCatNames.json"
  const SLAYER_BEASTS_URL_FORMAT := BESTIARY_URL + "/slayerBeasts.json?identifier=%d"
  const WEAKNESS_NAMES_URL := BESTIARY_URL + "/weaknessNames.json"
  const WEAKNESS_BEASTS_URL_FORMAT := BESTIARY_URL + "/weaknessBeasts.json?identifier=%d"
  const LEVEL_GROUP_URL_FORMAT := BESTIARY_URL + "/levelGroup.json?identifier=%d-%d"

  /** The service address holds no '%', so every format string is text up to its specifiers. */
  lemma BaseHasNoPercent()
    ensures '%' !in BESTIARY_URL && BESTIARY_URL == RsapiBestiary.BESTIARY_URL
  {
    assert '%' !in RsapiBestiary.WEB_SERVICES_URL;
    assert '%' !in "/m=itemdb_rs/bestiary";
  }

  /** A format string made of the service address, a '%'-free path and one specifier prints the path and the argument. */
  lemma FormatAfterBase(path: string, conversion: char, arg: FormatArg)
    requires '%' !in path && conversion in "dsc" && Convert(conversion, arg).Ok?
    ensures Format(BESTIARY_URL + path + ['%', conversion], [arg]) == Ok(RsapiBestiary.BESTIARY_URL + path + Convert(conversion, arg).value)
  {
    BaseHasNoPercent();
    assert '%' !in BESTIARY_URL + path;
    FormatOne(BESTIARY_URL + path, conversion, arg);
  }

  /** The URL `searchByTerms` fetches. */
  function SearchUrl(terms: seq<string>): Result<string, Fault>
  {
    Format(BEAST_SEARCH_URL_FORMAT, [StrArg(Joined(terms, '+'))])
  }

  /** Both revisions search for the same terms at the same URL. */
  lemma SearchUrlAgrees(terms: seq<string>)
    ensures SearchUrl(terms) == Ok(RsapiBestiary.SearchUrl(terms))
  {
    var path := "/beastSearch.json?term=";
    assert '%' !in path;
    assert BEAST_SEARCH_URL_FORMAT == BESTIARY_URL + path + ['%', 's'];
    assert RsapiBestiary.BEAST_SEARCH_URL + "?term=" == RsapiBestiary.BESTIARY_URL + path;
    FormatAfterBase(path, 's', StrArg(Joined(terms, '+')));
  }

  /** `searchByTerms`: joins the terms with a `StringJoiner("+")`, formats the URL, then queries the search. */
  method SearchByTerms(client: Client, terms: seq<string>) returns (r: Result<Entries<Int32, string>, Fault>)
    ensures r == RsapiBestiary.Query(client, RsapiBestiary.SearchUrl(terms))
  {
    var joined := "";
    for i := 0 to |terms|
      invariant joined == Joined(terms[..i], '+')
    {
      JoinedSnoc(terms[..i], '+', terms[i]);
      assert terms[..i + 1] == terms[..i] + [terms[i]];
      if i == 0 {
        joined := terms[i];
      } else {
        joined := joined + "+" + terms[i];
      }
    }
    assert terms[..|terms|] == terms;
    SearchUrlAgrees(terms);
    var url := Format(BEAST_SEARCH_URL_FORMAT, [StrArg(joined)]);
    assert url == Ok(RsapiBestiary.SearchUrl(terms));
    r := RsapiBestiary.ResultsToImmutableMap(client.searchResults(url.value));
    assert r == RsapiBestiary.LabelMap(client.searchResults(RsapiBestiary.SearchUrl(terms)));
  }

  /** `searchByFirstLetter`. */
  function SearchByFirstLetter(client: Client, letter: char): Result<Entries<Int32, string>, Fault>
  {
    var url :- Format(BESTIARY_NAMES_URL_FORMAT, [CharArg(letter)]);
    RsapiBestiary.Query(client, url)
  }

  /** Both revisions look up the same first letter at the same URL. */
  lemma SearchByFirstLetterAgrees(client: Client, letter: char)
    ensures SearchByFirstLetter(client, letter) == RsapiBestiary.SearchByFirstLetter(client, letter)
  {
    var path := "/bestiaryNames.json?letter=";
    assert '%' !in path;
    assert BESTIARY_NAMES_URL_FORMAT == BESTIARY_URL + path + ['%', 'c'];
    assert RsapiBestiary.BESTIARY_NAMES_URL + "?letter=" == RsapiBestiary.BESTIARY_URL + path;
    FormatAfterBase(path, 'c', CharArg(letter));
  }

  /** `beastsInArea`: the spaces of the area name become '+' before it is formatted into the URL. */
  function BeastsInArea(client: Client, area: string): Result<Entries<Int32, string>, Fault>
  {
    var url :- Format(AREA_BEASTS_URL_FORMAT, [StrArg(RsapiBestiary.AreaIdentifier(area))]);
    RsapiBestiary.Query(client, url)
  }

  /** Both revisions look up the same area at the same URL. */
  lemma BeastsInAreaAgrees(client: Client, area: string)
    ensures BeastsInArea(client, area) == RsapiBestiary.BeastsInArea(client, area)
  {
    var path := "/areaBeasts.json?identifier=";
    assert '%' !in path;
    assert AREA_BEASTS_URL_FORMAT == BESTIARY_URL + path + ['%', 's'];
    assert RsapiBestiary.AREA_BEASTS_URL + "?identifier=" == RsapiBestiary.BESTIARY_URL + path;
    FormatAfterBase(path, 's', StrArg(RsapiBestiary.AreaIdentifier(area)));
  }

  /** `slayerCategories`: the fetched table, or the empty map when nothing was fetched. */
  function SlayerCategories(client: Client): map<string, Int32>
  {
    client.nameIds(SLAYER_CATEGORY_NAMES_URL).GetOr(map[])
  }

  /** `beastsInSlayerCategory(int)`. */
  function BeastsInSlayerCategory(client: Client, categoryId: Int32): Result<Entries<Int32, string>, Fault>
  {
    var url :- Format(SLAYER_BEASTS_URL_FORMAT, [IntArg(categoryId)]);
    RsapiBestiary.Query(client, url)
  }

  /** Both revisions read the same category table and search a category id at the same URL. */
  lemma SlayerCategoryAgrees(client: Client, categoryId: Int32)
    ensures SlayerCategories(client) == RsapiBestiary.SlayerCategories(client)
    ensures BeastsInSlayerCategory(client, categoryId) == RsapiBestiary.BeastsInSlayerCategory(client, categoryId)
  {
    BaseHasNoPercent();
    var path := "/slayerBeasts.json?identifier=";
    assert '%' !in path;
    assert SLAYER_BEASTS_URL_FORMAT == BESTIARY_URL + path + ['%', 'd'];
    assert RsapiBestiary.SLAYER_BEASTS_URL + "?identifier=" == RsapiBestiary.BESTIARY_URL + path;
    FormatAfterBase(path, 'd', IntArg(categoryId));
  }

  /**
   * `beastsInSlayerCategory(String)`: a name missing from the category table
   * gives the empty map, with no search made; a known name searches by its id.
   */
  function BeastsInSlayerCategoryNamed(client: Client, categoryName: string): (r: Result<Entries<Int32, string>, Fault>)
    ensures categoryName !in SlayerCategories(client) ==> r == Ok([])
    ensures categoryName in SlayerCategories(client) ==>
      r == BeastsInSlayerCategory(client, SlayerCategories(client)[categoryName])
  {
    var categories := SlayerCategories(client);
    if categoryName in categories then BeastsInSlayerCategory(client, categories[categoryName]) else Ok([])
  }

  /** `weaknesses`: the fetched table, or the empty map when nothing was fetched. */
  function Weaknesses(client: Client): map<string, Int32>
  {
    client.nameIds(WEAKNESS_NAMES_URL).GetOr(map[])
  }

  /** `beastsWeakTo(int)`. */
  function BeastsWeakTo(client: Client, weaknessId: Int32): Result<Entries<Int32, string>, Fault>
  {
    var url :- Format(WEAKNESS_BEASTS_URL_FORMAT, [IntArg(weaknessId)]);
    RsapiBestiary.Query(client, url)
  }

  /** Both revisions read the same weakness table and search a weakness id at the same URL. */
  lemma WeaknessAgrees(client: Client, weaknessId: Int32)
    ensures Weaknesses(client) == RsapiBestiary.Weaknesses(client)
    ensures BeastsWeakTo(client, weaknessId) == RsapiBestiary.BeastsWeakTo(client, weaknessId)
  {
    BaseHasNoPercent();
    var path := "/weaknessBeasts.json?identifier=";
    assert '%' !in path;
    assert WEAKNESS_BEASTS_URL_FORMAT == BESTIARY_URL + path + ['%', 'd'];
    assert RsapiBestiary.WEAKNESS_BEASTS_URL + "?identifier=" == RsapiBestiary.BESTIARY_URL + path;
    FormatAfterBase(path, 'd', IntArg(weaknessId));
  }

  /**
   * `beastsWeakTo(String)`: a name missing from the weakness table gives the
   * empty map, with no search made; a known name searches by its id.
   */
  function BeastsWeakToNamed(client: Client, weaknessName: string): (r: Result<Entries<Int32, string>, Fault>)
    ensures weaknessName !in Weaknesses(client) ==> r == Ok([])
    ensures weaknessName in Weaknesses(client) ==> r == BeastsWeakTo(client, Weaknesses(client)[weaknessName])
  {
    var weaknesses := Weaknesses(client);
    if weaknessName in weaknesses then BeastsWeakTo(client, weaknesses[weaknessName]) else Ok([])
  }

  /** Looking a beast up by category or weakness name gives the same map in both revisions. */
  lemma NamedLookupsAgree(client: Client, categoryName: string, weaknessName: string)
    ensures BeastsInSlayerCategoryNamed(client, categoryName) == RsapiBestiary.BeastsInSlayerCategoryNamed(client, categoryName)
    ensures BeastsWeakToNamed(client, weaknessName) == RsapiBestiary.BeastsWeakToNamed(client, weaknessName)
  {
    var categories := SlayerCategories(client);
    if categoryName in categories {
      SlayerCategoryAgrees(client, categories[categoryName]);
    } else {
      SlayerCategoryAgrees(client, 0);
    }
    var weaknesses := Weaknesses(client);
    if weaknessName in weaknesses {
      WeaknessAgrees(client, weaknesses[weaknessName]);
    } else {
      WeaknessAgrees(client, 0);
    }
  }

  /** `beastsInLevelGroup`: the upper bound must be strictly higher than the lower one. */
  function BeastsInLevelGroup(client: Client, lowerBound: Int32, upperBound: Int32): (r: Result<Entries<Int32, string>, Fault>)
    ensures upperBound <= lowerBound ==> r == Err(IllegalArgument)
  {
    if upperBound <= lowerBound then Err(IllegalArgument)
    else
      var url :- Format(LEVEL_GROUP_URL_FORMAT, [IntArg(lowerBound), IntArg(upperBound)]);
      RsapiBestiary.Query(client, url)
  }

  /** Both revisions reject the same level ranges and search an accepted one at the same URL, "lower-upper". */
  lemma BeastsInLevelGroupAgrees(client: Client, lowerBound: Int32, upperBound: Int32)
    ensures BeastsInLevelGroup(client, lowerBound, upperBound) == RsapiBestiary.BeastsInLevelGroup(client, lowerBound, upperBound)
  {
    if upperBound > lowerBound {
      BaseHasNoPercent();
      var path := "/levelGroup.json?identifier=";
      assert '%' !in path;
      var lit := BESTIARY_URL + path;
      assert '%' !in lit;
      var tail := "%d-%d";
      assert LEVEL_GROUP_URL_FORMAT == lit + tail;
      var args := [IntArg(lowerBound), IntArg(upperBound)];
      var lower, upper := DecimalString(lowerBound), DecimalString(upperBound);
      FormatOne("-", 'd', IntArg(upperBound));
      assert tail[0] == '%' && tail[1] == 'd' && 'd' in "dsc";
      assert tail[2..] == "-" + ['%', 'd'];
      assert Format(tail[2..], args[1..]) == Ok("-" + upper);
      assert Convert('d', args[0]) == Ok(lower);
      assert lower + ("-" + upper) == RsapiBestiary.LevelGroupIdentifier(lowerBound, upperBound);
      assert Format(tail, args) == Ok(RsapiBestiary.LevelGroupIdentifier(lowerBound, upperBound));
      FormatLiteral(lit, tail, args);
      assert RsapiBestiary.LEVEL_GROUP_URL + "?identifier=" == RsapiBestiary.BESTIARY_URL + path;
    }
  }
}
