/**
 * `Search` of the `com.mikebull94.rsapi` bestiary: a list of deferred
 * filters, each a bestiary query, whose results are intersected by id when
 * the search is run.
 */
module RsapiSearch {
  import opened Wrappers
  import opened JavaLang
  import opened ImmutableMaps
  import opened RsapiBestiary

  /** A filter added to a search: which bestiary query it runs, with its arguments. */
  datatype Filter =
    | NameTerms(terms: seq<string>)
    | NameFirstLetter(letter: char)
    | Area(areaName: string)
    | SlayerCategoryId(categoryId: Int32)
    | SlayerCategoryName(categoryName: string)
    | WeaknessId(weaknessId: Int32)
    | WeaknessName(weaknessName: string)
    | LevelGroup(lowerBound: Int32, upperBound: Int32)

  /** What running a filter's query returns. */
  function Apply(client: Client, filter: Filter): (r: Result<Entries<Int32, string>, Fault>)
    ensures r.Ok? ==> Distinct(Keys(r.value))
  {
    match filter
    case NameTerms(terms) => Query(client, SearchUrl(terms))
    case NameFirstLetter(letter) => SearchByFirstLetter(client, letter)
    case Area(areaName) => BeastsInArea(client, areaName)
    case SlayerCategoryId(categoryId) => BeastsInSlayerCategory(client, categoryId)
    case SlayerCategoryName(categoryName) => BeastsInSlayerCategoryNamed(client, categoryName)
    case WeaknessId(weaknessId) => BeastsWeakTo(client, weaknessId)
    case WeaknessName(weaknessName) => BeastsWeakToNamed(client, weaknessName)
    case LevelGroup(lowerBound, upperBound) => BeastsInLevelGroup(client, lowerBound, upperBound)
  }

  /** The maps the filters' queries return, in filter order. */
  function Answers(client: Client, filters: seq<Filter>): (answers: seq<Result<Entries<Int32, string>, Fault>>)
    ensures |answers| == |filters|
    ensures forall j :: 0 <= j < |filters| ==> answers[j] == Apply(client, filters[j])
    ensures forall j :: 0 <= j < |filters| && answers[j].Ok? ==> Distinct(Keys(answers[j].value))
  {
    seq(|filters|, j requires 0 <= j < |filters| => Apply(client, filters[j]))
  }

  /**
   * Takes `answers[from..]` in order, keeping the entries of `acc` whose id
   * each of them also holds; the first failed query ends the search.
   */
  function Narrow(acc: Entries<Int32, string>, answers: seq<Result<Entries<Int32, string>, Fault>>, from: nat)
    : Result<Entries<Int32, string>, Fault>
    requires from <= |answers|
    decreases |answers| - from
  {
    if from == |answers| then Ok(acc)
    else
      var next :- answers[from];
      Narrow(FilterKeys(acc, Keys(next)), answers, from + 1)
  }

  /** IllegalStateException without answers, else the first answer narrowed by the rest. */
  function Combine(answers: seq<Result<Entries<Int32, string>, Fault>>): (r: Result<Entries<Int32, string>, Fault>)
    ensures |answers| == 0 ==> r == Err(IllegalState)
  {
    if |answers| == 0 then Err(IllegalState)
    else
      var first :- answers[0];
      Narrow(first, answers, 1)
  }

  /** What `results()` returns: the filters' answers combined. */
  function Outcome(client: Client, filters: seq<Filter>): Result<Entries<Int32, string>, Fault>
  {
    Combine(Answers(client, filters))
  }

  /** Runs one filter; the name-terms query is the one whose URL is built by a loop. */
  method Run(client: Client, filter: Filter) returns (r: Result<Entries<Int32, string>, Fault>)
    ensures r == Apply(client, filter)
  {
    if filter.NameTerms? {
      r := SearchByTerms(client, filter.terms);
    } else {
      r := Apply(client, filter);
    }
  }

  /** A successful narrowing met no failed query. */
  lemma NarrowRunsAll(acc: Entries<Int32, string>, answers: seq<Result<Entries<Int32, string>, Fault>>, from: nat)
    requires from <= |answers| && Narrow(acc, answers, from).Ok?
    ensures forall j :: from <= j < |answers| ==> answers[j].Ok?
  {
    forall j | from <= j < |answers| ensures answers[j].Ok? {
      NarrowRunsThrough(acc, answers, from, j);
    }
  }

  /** Query j of a successful narrowing succeeded. */
  lemma {:induction false} NarrowRunsThrough(acc: Entries<Int32, string>, answers: seq<Result<Entries<Int32, string>, Fault>>,
                                             from: nat, j: nat)
    requires from <= j < |answers| && Narrow(acc, answers, from).Ok?
    ensures answers[j].Ok?
    decreases j - from
  {
    assert answers[from].Ok?;
    if from < j {
      NarrowRunsThrough(FilterKeys(acc, Keys(answers[from].value)), answers, from + 1, j);
    }
  }

  /** A successful narrowing keeps an id of `acc` exactly when every remaining answer holds it. */
  lemma {:induction false} NarrowKeys(acc: Entries<Int32, string>, answers: seq<Result<Entries<Int32, string>, Fault>>,
                                      from: nat, k: Int32)
    requires from <= |answers| && Narrow(acc, answers, from).Ok?
    requires forall j :: from <= j < |answers| ==> answers[j].Ok?
    ensures k in Keys(Narrow(acc, answers, from).value) <==>
      k in Keys(acc) && forall j :: from <= j < |answers| ==> k in Keys(answers[j].value)
    decreases |answers| - from
  {
    if from < |answers| {
      var held := Keys(answers[from].value);
      var next := FilterKeys(acc, held);
      assert Narrow(acc, answers, from) == Narrow(next, answers, from + 1);
      NarrowKeys(next, answers, from + 1, k);
      assert k in Keys(next) <==> k in Keys(acc) && k in held;
      HeldFromStep(answers, from, k);
    }
  }

  /** Every answer from `from` on holds k exactly when answer `from` does and every later one does. */
  lemma HeldFromStep(answers: seq<Result<Entries<Int32, string>, Fault>>, from: nat, k: Int32)
    requires from < |answers| && forall j :: from <= j < |answers| ==> answers[j].Ok?
    ensures (forall j :: from <= j < |answers| ==> k in Keys(answers[j].value)) <==>
      k in Keys(answers[from].value) && forall j :: from + 1 <= j < |answers| ==> k in Keys(answers[j].value)
  {
  }

  /** A successful narrowing keeps entries of `acc`, and keeps its ids free of repeats. */
  lemma {:induction false} NarrowSubset(acc: Entries<Int32, string>, answers: seq<Result<Entries<Int32, string>, Fault>>, from: nat)
    requires from <= |answers| && Narrow(acc, answers, from).Ok?
    ensures forall p :: p in Narrow(acc, answers, from).value ==> p in acc
    ensures Distinct(Keys(acc)) ==> Distinct(Keys(Narrow(acc, answers, from).value))
    decreases |answers| - from
  {
    if from < |answers| {
      var next := answers[from].value;
      NarrowSubset(FilterKeys(acc, Keys(next)), answers, from + 1);
      if Distinct(Keys(acc)) {
        FilterKeysDistinct(acc, Keys(next));
      }
    }
  }

  /** Every answer from `from` on succeeded and holds the id k. */
  predicate HeldByAll(answers: seq<Result<Entries<Int32, string>, Fault>>, from: nat, k: Int32)
  {
    forall j :: from <= j < |answers| ==> answers[j].Ok? && k in Keys(answers[j].value)
  }

  /** The entries of `e`, in their order, whose id every answer from `from` on holds. */
  function KeepHeld(e: Entries<Int32, string>, answers: seq<Result<Entries<Int32, string>, Fault>>, from: nat)
    : Entries<Int32, string>
  {
    if |e| == 0 then []
    else (if HeldByAll(answers, from, e[0].0) then [e[0]] else []) + KeepHeld(e[1..], answers, from)
  }

  /** Past the last answer nothing is dropped. */
  lemma {:induction false} KeepHeldAll(e: Entries<Int32, string>, answers: seq<Result<Entries<Int32, string>, Fault>>)
    ensures KeepHeld(e, answers, |answers|) == e
  {
    if |e| > 0 {
      KeepHeldAll(e[1..], answers);
      assert [e[0]] + e[1..] == e;
    }
  }

  /** Filtering by one successful answer, then keeping what the later ones hold, keeps what all of them hold. */
  lemma {:induction false} KeepHeldFiltered(e: Entries<Int32, string>, answers: seq<Result<Entries<Int32, string>, Fault>>,
                                            from: nat)
    requires from < |answers| && answers[from].Ok?
    ensures KeepHeld(FilterKeys(e, Keys(answers[from].value)), answers, from + 1) == KeepHeld(e, answers, from)
    decreases |e|
  {
    if |e| > 0 {
      var held := Keys(answers[from].value);
      var rest := FilterKeys(e[1..], held);
      KeepHeldFiltered(e[1..], answers, from);
      HeldByAllStep(answers, from, e[0].0);
      FilterKeysHead(e, held);
      if e[0].0 in held {
        KeepHeldCons(e[0], rest, answers, from + 1);
      }
    }
  }

  /** Answer `from` and every later one hold k exactly when answer `from` does and the later ones do. */
  lemma HeldByAllStep(answers: seq<Result<Entries<Int32, string>, Fault>>, from: nat, k: Int32)
    requires from < |answers| && answers[from].Ok?
    ensures HeldByAll(answers, from, k) <==> k in Keys(answers[from].value) && HeldByAll(answers, from + 1, k)
  {
  }

  /** Keeping works entry by entry, from the front. */
  lemma KeepHeldCons(p: (Int32, string), rest: Entries<Int32, string>,
                     answers: seq<Result<Entries<Int32, string>, Fault>>, from: nat)
    ensures KeepHeld([p] + rest, answers, from) ==
      (if HeldByAll(answers, from, p.0) then [p] else []) + KeepHeld(rest, answers, from)
  {
    assert ([p] + rest)[0] == p && ([p] + rest)[1..] == rest;
  }

  /** A successful narrowing is `acc` cut down to the ids every remaining answer holds, in the order of `acc`. */
  lemma {:induction false} NarrowOrder(acc: Entries<Int32, string>, answers: seq<Result<Entries<Int32, string>, Fault>>, from: nat)
    requires from <= |answers| && Narrow(acc, answers, from).Ok?
    ensures Narrow(acc, answers, from).value == KeepHeld(acc, answers, from)
    decreases |answers| - from
  {
    if from == |answers| {
      KeepHeldAll(acc, answers);
    } else {
      assert answers[from].Ok?;
      var next := FilterKeys(acc, Keys(answers[from].value));
      assert Narrow(acc, answers, from) == Narrow(next, answers, from + 1);
      NarrowOrder(next, answers, from + 1);
      KeepHeldFiltered(acc, answers, from);
    }
  }

  /** A successful search met no failed query. */
  lemma CombineRunsAll(answers: seq<Result<Entries<Int32, string>, Fault>>)
    requires Combine(answers).Ok?
    ensures |answers| > 0
    ensures forall j :: 0 <= j < |answers| ==> answers[j].Ok?
  {
    NarrowRunsAll(answers[0].value, answers, 1);
  }

  /** An id is in a successful search's result exactly when every answer holds it. */
  lemma CombineKeys(answers: seq<Result<Entries<Int32, string>, Fault>>, k: Int32)
    requires Combine(answers).Ok?
    ensures forall j :: 0 <= j < |answers| ==> answers[j].Ok?
    ensures k in Keys(Combine(answers).value) <==> forall j :: 0 <= j < |answers| ==> k in Keys(answers[j].value)
  {
    CombineRunsAll(answers);
    NarrowKeys(answers[0].value, answers, 1, k);
  }

  /**
   * Each id of a successful search keeps the name the first answer gave it,
   * no id repeats, and the entries come in the first answer's order.
   */
  lemma CombineLabels(answers: seq<Result<Entries<Int32, string>, Fault>>)
    requires Combine(answers).Ok?
    requires answers[0].Ok? ==> Distinct(Keys(answers[0].value))
    ensures |answers| > 0 && answers[0].Ok?
    ensures forall p :: p in Combine(answers).value ==> p in answers[0].value
    ensures Distinct(Keys(Combine(answers).value))
    ensures Combine(answers).value == KeepHeld(answers[0].value, answers, 1)
  {
    NarrowSubset(answers[0].value, answers, 1);
    NarrowOrder(answers[0].value, answers, 1);
  }

  /** A search with one filter returns that filter's map. */
  lemma OutcomeOfOne(client: Client, filter: Filter)
    ensures Outcome(client, [filter]) == Apply(client, filter)
  {
  }

  /** An answer that holds nothing makes a successful search find nothing. */
  lemma CombineWithEmptyAnswer(answers: seq<Result<Entries<Int32, string>, Fault>>, j: int)
    requires 0 <= j < |answers| && answers[j] == Ok([])
    ensures Combine(answers).Ok? ==> Combine(answers).value == []
  {
    if Combine(answers).Ok? {
      var r := Combine(answers).value;
      if |r| > 0 {
        CombineKeys(answers, Keys(r)[0]);
        assert false;
      }
    }
  }

  /** An empty first answer does not stop the search: the next filter still runs, and its failure is the outcome. */
  lemma CombineRunsPastEmpty(answers: seq<Result<Entries<Int32, string>, Fault>>)
    requires |answers| >= 2 && answers[0] == Ok([]) && answers[1].Err?
    ensures Combine(answers) == Err(answers[1].error)
  {
  }

  /** `Search`: the bestiary it queries and the filters added so far, in order. */
  class Search {
    const client: Client
    var filters: seq<Filter>

    /** `bestiary.search()`. */
    constructor (client: Client)
      ensures this.client == client && filters == []
    {
      this.client := client;
      filters := [];
    }

    /** `filterByNameTerms`. */
    method FilterByNameTerms(terms: seq<string>) returns (s: Search)
      modifies this
      ensures s == this && filters == old(filters) + [NameTerms(terms)]
    {
      filters := filters + [NameTerms(terms)];
      return this;
    }

    /** `filterByNameFirstLetter`. */
    method FilterByNameFirstLetter(letter: char) returns (s: Search)
      modifies this
      ensures s == this && filters == old(filters) + [NameFirstLetter(letter)]
    {
      filters := filters + [NameFirstLetter(letter)];
      return this;
    }

    /** `filterByArea`. */
    method FilterByArea(areaName: string) returns (s: Search)
      modifies this
      ensures s == this && filters == old(filters) + [Area(areaName)]
    {
      filters := filters + [Area(areaName)];
      return this;
    }

    /** `filterBySlayerCategory(int)`. */
    method FilterBySlayerCategoryId(categoryId: Int32) returns (s: Search)
      modifies this
      ensures s == this && filters == old(filters) + [SlayerCategoryId(categoryId)]
    {
      filters := filters + [SlayerCategoryId(categoryId)];
      return this;
    }

    /** `filterBySlayerCategory(String)`. */
    method FilterBySlayerCategoryName(categoryName: string) returns (s: Search)
      modifies this
      ensures s == this && filters == old(filters) + [SlayerCategoryName(categoryName)]
    {
      filters := filters + [SlayerCategoryName(categoryName)];
      return this;
    }

    /** `filterByWeakness(int)`. */
    method FilterByWeaknessId(weaknessId: Int32) returns (s: Search)
      modifies this
      ensures s == this && filters == old(filters) + [WeaknessId(weaknessId)]
    {
      filters := filters + [WeaknessId(weaknessId)];
      return this;
    }

    /** `filterByWeakness(String)`. */
    method FilterByWeaknessName(weaknessName: string) returns (s: Search)
      modifies this
      ensures s == this && filters == old(filters) + [WeaknessName(weaknessName)]
    {
      filters := filters + [WeaknessName(weaknessName)];
      return this;
    }

    /**
     * `filterByLevel`: the bounds are checked when the filter is added, so a
     * range whose upper bound is not above its lower one is never queried.
     */
    method FilterByLevel(lowerBound: Int32, upperBound: Int32) returns (r: Result<Search, Fault>)
      modifies this
      ensures upperBound > lowerBound ==> r == Ok(this) && filters == old(filters) + [LevelGroup(lowerBound, upperBound)]
      ensures upperBound <= lowerBound ==> r == Err(IllegalArgument) && filters == old(filters)
    {
      if upperBound <= lowerBound {
        return Err(IllegalArgument);
      }
      filters := filters + [LevelGroup(lowerBound, upperBound)];
      return Ok(this);
    }

    /**
     * `results()`: runs the first filter, then each later one in order,
     * keeping only the ids it also returns. The filters stay in place, so a
     * second call runs them all again.
     */
    method Results() returns (r: Result<Entries<Int32, string>, Fault>)
      ensures r == Outcome(client, filters)
    {
      if |filters| == 0 {
        return Err(IllegalState);
      }
      ghost var answers := Answers(client, filters);
      var first := Run(client, filters[0]);
      assert first == answers[0];
      if first.Err? {
        return Err(first.error);
      }
      var results := first.value;
      var i := 1;
      while i < |filters|
        invariant 1 <= i <= |filters|
        invariant Narrow(results, answers, i) == Combine(answers)
      {
        var next := Run(client, filters[i]);
        assert next == answers[i];
        if next.Err? {
          return Err(next.error);
        }
        results := FilterKeys(results, Keys(next.value));
        i := i + 1;
      }
      r := Ok(results);
    }
  }
}
