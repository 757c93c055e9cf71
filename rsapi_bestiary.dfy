/**
 * `Bestiary` of the `com.mikebull94.rsapi` revision: the queries that turn
 * a fetched array of search results into a map from beast id to beast name,
 * and the URLs they fetch.
 *
 * The web service is the `Client`: what it answers for a URL is a parameter
 * of the model. `None` stands for the empty `Optional` the client returns
 * when nothing could be decoded, which the source turns into a null array.
 */
module RsapiBestiary {
  import opened Wrappers
  import opened JavaLang
  import opened ImmutableMaps

  /** `SearchResult`: a beast id (`value`) and its `label`, the beast name, which Gson may leave null. */
  datatype SearchResult = SearchResult(value: Int32, name: Option<string>)

  /**
   * The web-services client: the search results decoded from a URL, and the
   * name-to-id tables decoded from a URL.
   */
  datatype Client = Client(searchResults: string -> Option<seq<SearchResult>>,
                           nameIds: string -> Option<map<string, Int32>>)

  const WEB_SERVICES_URL := "http://services.runescape.com"
  const BESTIARY_URL := WEB_SERVICES_URL + "/m=itemdb_rs/bestiary"
  const BEAST_SEARCH_URL := BESTIARY_URL + "/beastSearch.json"
  const BESTIARY_NAMES_URL := BESTIARY_URL + "/bestiaryNames.json"
  const AREA_BEASTS_URL := BESTIARY_URL + "/areaBeasts.json"
  const SLAYER_CATEGORY_NAMES_URL := BESTIARY_URL + "/slayerCatNames.json"
  const SLAYER_BEASTS_URL := BESTIARY_URL + "/slayerBeasts.json"
  const WEAKNESS_NAMES_URL := BESTIARY_URL + "/weaknessNames.json"
  const WEAKNESS_BEASTS_URL := BESTIARY_URL + "/weaknessBeasts.json"
  const LEVEL_GROUP_URL := BESTIARY_URL + "/levelGroup.json"

  /** The `value -> label` puts of the labelled results, in array order. */
  function Labelled(results: seq<SearchResult>): (e: Entries<Int32, string>)
    ensures |e| <= |results|
    ensures forall p :: p in e ==> exists i :: 0 <= i < |results| && results[i] == SearchResult(p.0, Some(p.1))
    ensures forall i :: 0 <= i < |results| && results[i].name.Some? ==> (results[i].value, results[i].name.value) in e
  {
    if |results| == 0 then []
    else
      var last := results[|results| - 1];
      Labelled(results[..|results| - 1]) + (if last.name.Some? then [(last.value, last.name.value)] else [])
  }

  /** The puts follow the array: the results of a concatenation put those of each part in turn. */
  lemma {:induction false} LabelledConcat(a: seq<SearchResult>, b: seq<SearchResult>)
    ensures Labelled(a + b) == Labelled(a) + Labelled(b)
    decreases |b|
  {
    if |b| > 0 {
      assert (a + b)[..|a + b| - 1] == a + b[..|b| - 1];
      LabelledConcat(a, b[..|b| - 1]);
    } else {
      assert a + b == a;
    }
  }

  /**
   * What `resultsToImmutableMap` returns: the empty map for a null array,
   * otherwise the map built from the labelled results, which fails when
   * two of them carry the same id.
   */
  function LabelMap(fetched: Option<seq<SearchResult>>): (r: Result<Entries<Int32, string>, Fault>)
    ensures fetched.None? ==> r == Ok([])
    ensures fetched.Some? ==> (r.Ok? <==> Distinct(Keys(Labelled(fetched.value))))
    ensures r.Ok? ==> Distinct(Keys(r.value))
    ensures r.Err? ==> r.error == IllegalArgument
  {
    match fetched
    case None => Ok([])
    case Some(results) => Build(Labelled(results))
  }

  /** `resultsToImmutableMap`: puts every labelled result into a map builder, then builds it. */
  method ResultsToImmutableMap(fetched: Option<seq<SearchResult>>) returns (r: Result<Entries<Int32, string>, Fault>)
    ensures r == LabelMap(fetched)
  {
    if fetched.None? {
      return Ok([]);
    }
    var results := fetched.value;
    var puts: Entries<Int32, string> := [];
    for i := 0 to |results|
      invariant puts == Labelled(results[..i])
    {
      assert results[..i + 1][..i] == results[..i];
      var result := results[i];
      if result.name.Some? {
        puts := puts + [(result.value, result.name.value)];
      }
    }
    assert results[..|results|] == results;
    r := Build(puts);
  }

  /**
   * What a query of `url` gives: the empty map when nothing was fetched;
   * otherwise the labelled results when no id repeats among them, and
   * IllegalArgumentException when one does.
   */
  ghost predicate Answered(client: Client, url: string, r: Result<Entries<Int32, string>, Fault>)
  {
    match client.searchResults(url)
    case None => r == Ok([])
    case Some(results) =>
      if Distinct(Keys(Labelled(results))) then r == Ok(Labelled(results)) else r == Err(IllegalArgument)
  }

  /** The search results fetched from `url`, as a map. */
  function Query(client: Client, url: string): (r: Result<Entries<Int32, string>, Fault>)
    ensures client.searchResults(url).None? ==> r == Ok([])
    ensures client.searchResults(url).Some? ==> (r.Ok? <==> Distinct(Keys(Labelled(client.searchResults(url).value))))
    ensures client.searchResults(url).Some? && r.Ok? ==> r.value == Labelled(client.searchResults(url).value)
    ensures r.Ok? ==> Distinct(Keys(r.value))
    ensures r.Err? ==> r.error == IllegalArgument
  {
    LabelMap(client.searchResults(url))
  }

  /** The URL `searchByTerms` fetches: the terms joined with '+'. */
  function SearchUrl(terms: seq<string>): string
  {
    BEAST_SEARCH_URL + "?term=" + Joined(terms, '+')
  }

  /** Terms without a '+' can be read back from the query by cutting it at every '+'. */
  lemma SearchTermsReadBack(terms: seq<string>)
    requires |terms| > 0
    requires forall k :: 0 <= k < |terms| ==> '+' !in terms[k]
    ensures |BEAST_SEARCH_URL + "?term="| <= |SearchUrl(terms)|
    ensures Split(SearchUrl(terms)[|BEAST_SEARCH_URL + "?term="|..], '+') == terms
  {
    var prefix := BEAST_SEARCH_URL + "?term=";
    assert SearchUrl(terms)[|prefix|..] == Joined(terms, '+');
    SplitJoined(terms, '+');
  }

  /** `searchByTerms`: joins the terms with a `StringJoiner("+")`, then queries the search. */
  method SearchByTerms(client: Client, terms: seq<string>) returns (r: Result<Entries<Int32, string>, Fault>)
    ensures r == Query(client, SearchUrl(terms))
  {
    var joined := "";
    for i := 0 to |terms|
      invariant joined == Joined(terms[..i], '+')
    {
      JoinedSnoc(terms[..i], '+', terms[i]);
      assert terms[..i + 1] == terms[..i] + [terms[i]];
      if i == 0 {
        joined := terms[i];
      } else {
        joined := joined + "+" + terms[i];
      }
    }
    assert terms[..|terms|] == terms;
    assert BEAST_SEARCH_URL + "?term=" + joined == SearchUrl(terms);
    r := ResultsToImmutableMap(client.searchResults(BEAST_SEARCH_URL + "?term=" + joined));
    assert r == LabelMap(client.searchResults(SearchUrl(terms)));
  }

  /** `searchByFirstLetter`. */
  function SearchByFirstLetter(client: Client, letter: char): (r: Result<Entries<Int32, string>, Fault>)
    ensures client.searchResults(BESTIARY_NAMES_URL + "?letter=" + [letter]).None? ==> r == Ok([])
    ensures Answered(client, BESTIARY_NAMES_URL + "?letter=" + [letter], r)
    ensures r.Ok? ==> Distinct(Keys(r.value))
    ensures r.Err? ==> r.error == IllegalArgument
  {
    Query(client, BESTIARY_NAMES_URL + "?letter=" + [letter])
  }

  /** The area identifier `beastsInArea` sends: the area name with every space replaced by '+'. */
  function AreaIdentifier(area: string): (r: string)
    ensures |r| == |area| && ' ' !in r
  {
    Replace(area, ' ', '+')
  }

  /** The identifier holds no space, and an area name without a '+' is recovered by turning '+' back into spaces. */
  lemma AreaIdentifierReadBack(area: string)
    ensures ' ' !in AreaIdentifier(area)
    ensures '+' !in area ==> Replace(AreaIdentifier(area), '+', ' ') == area
  {
    var id := AreaIdentifier(area);
    assert forall i :: 0 <= i < |id| ==> id[i] != ' ';
  }

  /** `beastsInArea`. */
  function BeastsInArea(client: Client, area: string): (r: Result<Entries<Int32, string>, Fault>)
    ensures client.searchResults(AREA_BEASTS_URL + "?identifier=" + AreaIdentifier(area)).None? ==> r == Ok([])
    ensures Answered(client, AREA_BEASTS_URL + "?identifier=" + AreaIdentifier(area), r)
    ensures r.Ok? ==> Distinct(Keys(r.value))
    ensures r.Err? ==> r.error == IllegalArgument
  {
    Query(client, AREA_BEASTS_URL + "?identifier=" + AreaIdentifier(area))
  }

  /** `slayerCategories`: the fetched table, or the empty map when nothing was fetched. */
  function SlayerCategories(client: Client): (r: map<string, Int32>)
    ensures client.nameIds(SLAYER_CATEGORY_NAMES_URL).None? ==> r == map[]
    ensures client.nameIds(SLAYER_CATEGORY_NAMES_URL).Some? ==> r == client.nameIds(SLAYER_CATEGORY_NAMES_URL).value
  {
    client.nameIds(SLAYER_CATEGORY_NAMES_URL).GetOr(map[])
  }

  /** `beastsInSlayerCategory(int)`. */
  function BeastsInSlayerCategory(client: Client, categoryId: Int32): (r: Result<Entries<Int32, string>, Fault>)
    ensures client.searchResults(SLAYER_BEASTS_URL + "?identifier=" + DecimalString(categoryId)).None? ==> r == Ok([])
    ensures Answered(client, SLAYER_BEASTS_URL + "?identifier=" + DecimalString(categoryId), r)
    ensures r.Ok? ==> Distinct(Keys(r.value))
    ensures r.Err? ==> r.error == IllegalArgument
  {
    Query(client, SLAYER_BEASTS_URL + "?identifier=" + DecimalString(categoryId))
  }

  /**
   * `beastsInSlayerCategory(String)`: a name missing from the category table
   * gives the empty map, with no search made; a known name searches by its id.
   */
  function BeastsInSlayerCategoryNamed(client: Client, categoryName: string): (r: Result<Entries<Int32, string>, Fault>)
    ensures categoryName !in SlayerCategories(client) ==> r == Ok([])
    ensures categoryName in SlayerCategories(client) ==>
      r == BeastsInSlayerCategory(client, SlayerCategories(client)[categoryName])
  {
    var categories := SlayerCategories(client);
    if categoryName in categories then BeastsInSlayerCategory(client, categories[categoryName]) else Ok([])
  }

  /** `weaknesses`: the fetched table, or the empty map when nothing was fetched. */
  function Weaknesses(client: Client): (r: map<string, Int32>)
    ensures client.nameIds(WEAKNESS_NAMES_URL).None? ==> r == map[]
    ensures client.nameIds(WEAKNESS_NAMES_URL).Some? ==> r == client.nameIds(WEAKNESS_NAMES_URL).value
  {
    client.nameIds(WEAKNESS_NAMES_URL).GetOr(map[])
  }

  /** `beastsWeakTo(int)`. */
  function BeastsWeakTo(client: Client, weaknessId: Int32): (r: Result<Entries<Int32, string>, Fault>)
    ensures client.searchResults(WEAKNESS_BEASTS_URL + "?identifier=" + DecimalString(weaknessId)).None? ==> r == Ok([])
    ensures Answered(client, WEAKNESS_BEASTS_URL + "?identifier=" + DecimalString(weaknessId), r)
    ensures r.Ok? ==> Distinct(Keys(r.value))
    ensures r.Err? ==> r.error == IllegalArgument
  {
    Query(client, WEAKNESS_BEASTS_URL + "?identifier=" + DecimalString(weaknessId))
  }

  /**
   * `beastsWeakTo(String)`: a name missing from the weakness table gives the
   * empty map, with no search made; a known name searches by its id.
   */
  function BeastsWeakToNamed(client: Client, weaknessName: string): (r: Result<Entries<Int32, string>, Fault>)
    ensures weaknessName !in Weaknesses(client) ==> r == Ok([])
    ensures weaknessName in Weaknesses(client) ==> r == BeastsWeakTo(client, Weaknesses(client)[weaknessName])
  {
    var weaknesses := Weaknesses(client);
    if weaknessName in weaknesses then BeastsWeakTo(client, weaknesses[weaknessName]) else Ok([])
  }

  /** The level-group identifier: "lower-upper". */
  function LevelGroupIdentifier(lowerBound: Int32, upperBound: Int32): string
  {
    DecimalString(lowerBound) + "-" + DecimalString(upperBound)
  }

  /** For a non-negative range, cutting the identifier at '-' and parsing each half gives the bounds back. */
  lemma LevelGroupIdentifierReadBack(lowerBound: Int32, upperBound: Int32)
    requires 0 <= lowerBound < upperBound
    ensures Split(LevelGroupIdentifier(lowerBound, upperBound), '-') == [DecimalString(lowerBound), DecimalString(upperBound)]
    ensures ParseInt(DecimalString(lowerBound)) == Ok(lowerBound as int)
    ensures ParseInt(DecimalString(upperBound)) == Ok(upperBound as int)
  {
    var parts := [DecimalString(lowerBound), DecimalString(upperBound)];
    assert Joined(parts[1..], '-') == parts[1];
    assert Joined(parts, '-') == LevelGroupIdentifier(lowerBound, upperBound);
    forall k | 0 <= k < 2 ensures '-' !in parts[k] {
      assert AllDigits(parts[k]);
    }
    SplitJoined(parts, '-');
    IntDecimalRoundTrip(lowerBound);
    IntDecimalRoundTrip(upperBound);
  }

  /** `beastsInLevelGroup`: the upper bound must be strictly higher than the lower one. */
  function BeastsInLevelGroup(client: Client, lowerBound: Int32, upperBound: Int32): (r: Result<Entries<Int32, string>, Fault>)
    ensures upperBound <= lowerBound ==> r == Err(IllegalArgument)
    ensures upperBound > lowerBound ==>
      r == Query(client, LEVEL_GROUP_URL + "?identifier=" + LevelGroupIdentifier(lowerBound, upperBound))
  {
    if upperBound > lowerBound then Query(client, LEVEL_GROUP_URL + "?identifier=" + LevelGroupIdentifier(lowerBound, upperBound))
    else Err(IllegalArgument)
  }
}
