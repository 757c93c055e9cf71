/**
 * `GraphingData` of the `com.mikebull94.rsapi` Grand Exchange: the daily and
 * average price of an item, keyed by "datecodes", the decimal string of the
 * UTC start of a day in epoch milliseconds.
 *
 * A `LocalDate` is its epoch day, an `int`; the datecode maps are
 * `Entries` in iteration order, and a `Map<LocalDate, Integer>` given to
 * `fromLocalDates` is a list of entries without a repeated date.
 */
module RsapiGraphingData {
  import opened Wrappers
  import opened JavaLang
  import opened ImmutableMaps

  const MILLIS_PER_DAY: int := 86_400_000

  /** The epoch day of the UTC date holding an instant: the floor of millis over a day's length. */
  function DayOf(epochMilli: int): int
  {
    epochMilli / MILLIS_PER_DAY
  }

  /** The date holds the instant: it starts at or before it and ends after it. */
  lemma DayOfContains(epochMilli: int)
    ensures DayOf(epochMilli) * MILLIS_PER_DAY <= epochMilli < DayOf(epochMilli) * MILLIS_PER_DAY + MILLIS_PER_DAY
  {
  }

  /**
   * `localDateToEpochMilli`: the start of the day in UTC. `toEpochMilli`
   * raises ArithmeticException when the result leaves the `long` range.
   */
  function EpochMilli(day: int): (r: Result<int, Fault>)
    ensures r.Ok? <==> IsLong(day * MILLIS_PER_DAY)
    ensures r.Err? ==> r.error == Arithmetic
    ensures r.Ok? ==> DayOf(r.value) == day && r.value % MILLIS_PER_DAY == 0
  {
    if IsLong(day * MILLIS_PER_DAY) then Ok(day * MILLIS_PER_DAY) else Err(Arithmetic)
  }

  /** The datecode of a day, whether or not it fits a `long`. */
  function Code(day: int): string
  {
    DecimalString(day * MILLIS_PER_DAY)
  }

  /** Different days have different datecodes. */
  lemma CodeInjective(a: int, b: int)
    requires Code(a) == Code(b)
    ensures a == b
  {
    DecimalStringInjective(a * MILLIS_PER_DAY, b * MILLIS_PER_DAY);
  }

  /** `String.valueOf(localDateToEpochMilli(day))`. */
  function Datecode(day: int): (r: Result<string, Fault>)
    ensures r.Ok? <==> IsLong(day * MILLIS_PER_DAY)
    ensures r.Err? ==> r.error == Arithmetic
    ensures r.Ok? ==> r.value == Code(day)
  {
    var epochMilli :- EpochMilli(day);
    Ok(DecimalString(epochMilli))
  }

  /** `codes` pairs the datecode of each date in `prices` with its price, in order. */
  ghost predicate CodedFrom(prices: Entries<int, Int32>, codes: Entries<string, Int32>)
  {
    |codes| == |prices| && forall i :: 0 <= i < |prices| ==> codes[i] == (Code(prices[i].0), prices[i].1)
  }

  /** The puts of one loop of `fromLocalDates`: every date turned into its datecode. */
  function Datecoded(prices: Entries<int, Int32>): (r: Result<Entries<string, Int32>, Fault>)
    ensures r.Ok? <==> forall i :: 0 <= i < |prices| ==> IsLong(prices[i].0 * MILLIS_PER_DAY)
    ensures r.Err? ==> r.error == Arithmetic
    ensures r.Ok? ==> CodedFrom(prices, r.value)
  {
    if |prices| == 0 then Ok([])
    else
      var n := |prices| - 1;
      LongDaysSnoc(prices, prices[..n]);
      var init :- Datecoded(prices[..n]);
      var code :- Datecode(prices[n].0);
      CodedFromSnoc(prices, init);
      Ok(init + [(code, prices[n].1)])
  }

  /** Every date of a non-empty list fits a `long` just when those before the last and the last one do. */
  lemma LongDaysSnoc(prices: Entries<int, Int32>, init: Entries<int, Int32>)
    requires |prices| > 0 && init == prices[..|prices| - 1]
    ensures (forall i :: 0 <= i < |prices| ==> IsLong(prices[i].0 * MILLIS_PER_DAY)) <==>
            (forall i :: 0 <= i < |init| ==> IsLong(init[i].0 * MILLIS_PER_DAY)) &&
            IsLong(prices[|prices| - 1].0 * MILLIS_PER_DAY)
  {
    assert forall i :: 0 <= i < |prices| - 1 ==> init[i] == prices[i];
  }

  /** Coding the last date extends the coding of those before it. */
  lemma CodedFromSnoc(prices: Entries<int, Int32>, init: Entries<string, Int32>)
    requires |prices| > 0 && CodedFrom(prices[..|prices| - 1], init)
    ensures CodedFrom(prices, init + [(Code(prices[|prices| - 1].0), prices[|prices| - 1].1)])
  {
    var n := |prices| - 1;
    var codes := init + [(Code(prices[n].0), prices[n].1)];
    forall i | 0 <= i < |prices|
      ensures codes[i] == (Code(prices[i].0), prices[i].1)
    {
      if i < n {
        assert prices[..n][i] == prices[i];
      }
    }
  }

  /** A graphing data record: the two datecode maps. */
  datatype GraphingData = GraphingData(daily: Entries<string, Int32>, average: Entries<string, Int32>)

  /**
   * What `fromLocalDates` returns: both loops run before either map is
   * built, so an out-of-range date in either map comes first; then each
   * map is built.
   */
  function LocalDates(daily: Entries<int, Int32>, average: Entries<int, Int32>): (r: Result<GraphingData, Fault>)
    ensures r.Err? ==> r.error == Arithmetic || r.error == IllegalArgument
    ensures r.Ok? ==> CodedFrom(daily, r.value.daily) && CodedFrom(average, r.value.average)
    ensures r.Ok? ==> Distinct(Keys(r.value.daily)) && Distinct(Keys(r.value.average))
  {
    var dailyPuts :- Datecoded(daily);
    var averagePuts :- Datecoded(average);
    var dailyMap :- Build(dailyPuts);
    var averageMap :- Build(averagePuts);
    Ok(GraphingData(dailyMap, averageMap))
  }

  /** One loop of `fromLocalDates`: each date's datecode is put with its price. */
  method DatecodeLoop(prices: Entries<int, Int32>) returns (r: Result<Entries<string, Int32>, Fault>)
    ensures r == Datecoded(prices)
  {
    var puts: Entries<string, Int32> := [];
    for i := 0 to |prices|
      invariant Datecoded(prices[..i]) == Ok(puts)
    {
      assert prices[..i + 1][..i] == prices[..i];
      var code := Datecode(prices[i].0);
      if code.Err? {
        assert !IsLong(prices[i].0 * MILLIS_PER_DAY);
        return Err(Arithmetic);
      }
      puts := puts + [(code.value, prices[i].1)];
    }
    assert prices[..|prices|] == prices;
    return Ok(puts);
  }

  /** `fromLocalDates`. */
  method FromLocalDates(daily: Entries<int, Int32>, average: Entries<int, Int32>) returns (r: Result<GraphingData, Fault>)
    ensures r == LocalDates(daily, average)
  {
    var dailyPuts := DatecodeLoop(daily);
    if dailyPuts.Err? {
      return Err(dailyPuts.error);
    }
    var averagePuts := DatecodeLoop(average);
    if averagePuts.Err? {
      return Err(averagePuts.error);
    }
    var dailyMap := Build(dailyPuts.value);
    if dailyMap.Err? {
      return Err(dailyMap.error);
    }
    var averageMap := Build(averagePuts.value);
    if averageMap.Err? {
      return Err(averageMap.error);
    }
    return Ok(GraphingData(dailyMap.value, averageMap.value));
  }

  /** Datecodes of different dates never collide, so the datecode keys repeat exactly when the dates do. */
  lemma CodedDistinct(prices: Entries<int, Int32>, codes: Entries<string, Int32>)
    requires CodedFrom(prices, codes)
    ensures Distinct(Keys(codes)) <==> Distinct(Keys(prices))
  {
    if Distinct(Keys(prices)) {
      forall i, j | 0 <= i < j < |codes| ensures Keys(codes)[i] != Keys(codes)[j] {
        assert prices[i].0 != prices[j].0 by {
          assert Keys(prices)[i] != Keys(prices)[j];
        }
        if Keys(codes)[i] == Keys(codes)[j] {
          CodeInjective(prices[i].0, prices[j].0);
          assert false;
        }
      }
    }
    if Distinct(Keys(codes)) {
      forall i, j | 0 <= i < j < |prices| ensures Keys(prices)[i] != Keys(prices)[j] {
        assert Keys(codes)[i] != Keys(codes)[j];
      }
    }
  }

  /** `fromLocalDates` fails only on a date whose start of day leaves the `long` range. */
  lemma LocalDatesSucceed(daily: Entries<int, Int32>, average: Entries<int, Int32>)
    requires Distinct(Keys(daily)) && Distinct(Keys(average))
    ensures LocalDates(daily, average).Ok? <==>
      (forall i :: 0 <= i < |daily| ==> IsLong(daily[i].0 * MILLIS_PER_DAY)) &&
      (forall i :: 0 <= i < |average| ==> IsLong(average[i].0 * MILLIS_PER_DAY))
  {
    var d, a := Datecoded(daily), Datecoded(average);
    if d.Ok? && a.Ok? {
      CodedDistinct(daily, d.value);
      CodedDistinct(average, a.value);
    }
  }

  /** The price stored under a date's datecode; ArithmeticException for a date beyond the `long` range. */
  function PriceOn(prices: Entries<string, Int32>, day: int): (r: Result<Option<Int32>, Fault>)
    ensures r.Ok? <==> IsLong(day * MILLIS_PER_DAY)
    ensures r.Err? ==> r.error == Arithmetic
    ensures r.Ok? && r.value.Some? ==> (Code(day), r.value.value) in prices
    ensures r.Ok? && r.value.None? ==> Code(day) !in Keys(prices)
  {
    var code :- Datecode(day);
    Ok(Get(prices, code))
  }

  /** `getDailyPrice`. */
  function GetDailyPrice(data: GraphingData, day: int): (r: Result<Option<Int32>, Fault>)
    ensures r.Ok? <==> IsLong(day * MILLIS_PER_DAY)
    ensures r.Err? ==> r.error == Arithmetic
    ensures r.Ok? && r.value.Some? ==> (Code(day), r.value.value) in data.daily
    ensures r.Ok? && r.value.None? ==> Code(day) !in Keys(data.daily)
  {
    PriceOn(data.daily, day)
  }

  /** `getAveragePrice`. */
  function GetAveragePrice(data: GraphingData, day: int): (r: Result<Option<Int32>, Fault>)
    ensures r.Ok? <==> IsLong(day * MILLIS_PER_DAY)
    ensures r.Err? ==> r.error == Arithmetic
    ensures r.Ok? && r.value.Some? ==> (Code(day), r.value.value) in data.average
    ensures r.Ok? && r.value.None? ==> Code(day) !in Keys(data.average)
  {
    PriceOn(data.average, day)
  }

  /** Looking up a date's datecode in coded entries finds what looking up the date finds in the original. */
  lemma {:induction false} GetCoded(prices: Entries<int, Int32>, codes: Entries<string, Int32>, day: int)
    requires CodedFrom(prices, codes)
    ensures Get(codes, Code(day)) == Get(prices, day)
    decreases |prices|
  {
    if |prices| > 0 {
      if prices[0].0 != day {
        if codes[0].0 == Code(day) {
          CodeInjective(prices[0].0, day);
        }
      }
      assert CodedFrom(prices[1..], codes[1..]);
      GetCoded(prices[1..], codes[1..], day);
    }
  }

  /**
   * Round trip: on data made by `fromLocalDates`, `getDailyPrice(d)` and
   * `getAveragePrice(d)` return the price the input maps held for `d`, or
   * empty; each consults only its own map.
   */
  lemma LookupRoundTrip(daily: Entries<int, Int32>, average: Entries<int, Int32>, day: int)
    requires LocalDates(daily, average).Ok? && IsLong(day * MILLIS_PER_DAY)
    ensures GetDailyPrice(LocalDates(daily, average).value, day) == Ok(Get(daily, day))
    ensures GetAveragePrice(LocalDates(daily, average).value, day) == Ok(Get(average, day))
  {
    var data := LocalDates(daily, average).value;
    GetCoded(daily, data.daily, day);
    GetCoded(average, data.average, day);
  }

  /** Each point lookup reads its own map only. */
  lemma LookupsIndependent(data: GraphingData, other: Entries<string, Int32>, day: int)
    ensures GetDailyPrice(data.(average := other), day) == GetDailyPrice(data, day)
    ensures GetAveragePrice(data.(daily := other), day) == GetAveragePrice(data, day)
  {
  }

  /** The dates of `getPrices` before the map is built: each datecode parsed as a `long` and taken to its UTC date. */
  function ByDate(prices: Entries<string, Int32>): (r: Result<Entries<int, Int32>, Fault>)
    ensures r.Ok? <==> forall i :: 0 <= i < |prices| ==> ParseLong(prices[i].0).Ok?
    ensures r.Err? ==> r.error == NumberFormat
    ensures r.Ok? ==> |r.value| == |prices|
    ensures r.Ok? ==> forall i :: 0 <= i < |prices| ==> r.value[i] == (DayOf(ParseLong(prices[i].0).value), prices[i].1)
  {
    if |prices| == 0 then Ok([])
    else
      var init :- ByDate(prices[..|prices| - 1]);
      var last := prices[|prices| - 1];
      var epochMilli :- ParseLong(last.0);
      Ok(init + [(DayOf(epochMilli), last.1)])
  }

  /**
   * What `getPrices` returns: NumberFormatException for a key that is not a
   * `long`, IllegalArgumentException when two keys fall on the same date.
   */
  function PricesByDate(prices: Entries<string, Int32>): Result<Entries<int, Int32>, Fault>
  {
    var dated :- ByDate(prices);
    Build(dated)
  }

  /** `getPrices`: parses each key, takes it to its date and puts it into a map builder. */
  method GetPrices(prices: Entries<string, Int32>) returns (r: Result<Entries<int, Int32>, Fault>)
    ensures r == PricesByDate(prices)
  {
    var puts: Entries<int, Int32> := [];
    for i := 0 to |prices|
      invariant ByDate(prices[..i]) == Ok(puts)
    {
      assert prices[..i + 1][..i] == prices[..i];
      var epochMilli := ParseLong(prices[i].0);
      if epochMilli.Err? {
        return Err(NumberFormat);
      }
      puts := puts + [(DayOf(epochMilli.value), prices[i].1)];
    }
    assert prices[..|prices|] == prices;
    r := Build(puts);
  }

  /** `getDailyPrices`. */
  method GetDailyPrices(data: GraphingData) returns (r: Result<Entries<int, Int32>, Fault>)
    ensures r == PricesByDate(data.daily)
  {
    r := GetPrices(data.daily);
  }

  /** `getAveragePrices`. */
  method GetAveragePrices(data: GraphingData) returns (r: Result<Entries<int, Int32>, Fault>)
    ensures r == PricesByDate(data.average)
  {
    r := GetPrices(data.average);
  }

  /** Reading datecodes back gives the dates they were made from. */
  lemma ByDateOfCoded(prices: Entries<int, Int32>, codes: Entries<string, Int32>)
    requires CodedFrom(prices, codes)
    requires forall i :: 0 <= i < |prices| ==> IsLong(prices[i].0 * MILLIS_PER_DAY)
    ensures ByDate(codes) == Ok(prices)
  {
    forall i | 0 <= i < |prices| ensures ParseLong(codes[i].0) == Ok(prices[i].0 * MILLIS_PER_DAY) {
      LongDecimalRoundTrip(prices[i].0 * MILLIS_PER_DAY);
    }
    var dated := ByDate(codes);
    assert dated.Ok?;
    forall i | 0 <= i < |prices| ensures dated.value[i] == prices[i] {
      assert DayOf(prices[i].0 * MILLIS_PER_DAY) == prices[i].0;
    }
    assert dated.value == prices;
  }

  /** Round trip: on data made by `fromLocalDates`, `getDailyPrices` and `getAveragePrices` give back the input maps. */
  lemma PricesRoundTrip(daily: Entries<int, Int32>, average: Entries<int, Int32>)
    requires LocalDates(daily, average).Ok?
    ensures PricesByDate(LocalDates(daily, average).value.daily) == Ok(daily)
    ensures PricesByDate(LocalDates(daily, average).value.average) == Ok(average)
  {
    var d, a := Datecoded(daily).value, Datecoded(average).value;
    CodedDistinct(daily, d);
    CodedDistinct(average, a);
    ByDateOfCoded(daily, d);
    ByDateOfCoded(average, a);
  }

  /** A price found by date is also listed under that date by `getPrices`. */
  lemma PointLookupListed(prices: Entries<string, Int32>, day: int, price: Int32)
    requires PricesByDate(prices).Ok? && PriceOn(prices, day) == Ok(Some(price))
    ensures (day, price) in PricesByDate(prices).value
  {
    var code := Code(day);
    assert (code, price) in prices;
    var i :| 0 <= i < |prices| && prices[i] == (code, price);
    LongDecimalRoundTrip(day * MILLIS_PER_DAY);
    assert ByDate(prices).value[i] == (day, price);
  }

  /**
   * The converse fails: a datecode that is not at midnight is listed under
   * its date by `getPrices`, yet the point lookup of that date is empty,
   * because it asks for the midnight datecode only.
   */
  lemma NonMidnightDatecode(epochMilli: int, price: Int32)
    requires 0 <= epochMilli <= LONG_MAX && epochMilli % MILLIS_PER_DAY != 0
    ensures PricesByDate([(DecimalString(epochMilli), price)]) == Ok([(DayOf(epochMilli), price)])
    ensures PriceOn([(DecimalString(epochMilli), price)], DayOf(epochMilli)) == Ok(None)
  {
    LongDecimalRoundTrip(epochMilli);
    var day := DayOf(epochMilli);
    var dated := ByDate([(DecimalString(epochMilli), price)]);
    assert dated.value[0] == (day, price);
    assert dated.value == [(day, price)];
    if Code(day) == DecimalString(epochMilli) {
      DecimalStringInjective(day * MILLIS_PER_DAY, epochMilli);
      assert false;
    }
  }

  /** Two datecodes on the same date make `getPrices` fail with IllegalArgumentException. */
  lemma SameDateDatecodes(m1: int, m2: int, p1: Int32, p2: Int32)
    requires IsLong(m1) && IsLong(m2) && DayOf(m1) == DayOf(m2)
    ensures PricesByDate([(DecimalString(m1), p1), (DecimalString(m2), p2)]) == Err(IllegalArgument)
  {
    LongDecimalRoundTrip(m1);
    LongDecimalRoundTrip(m2);
    var dated := ByDate([(DecimalString(m1), p1), (DecimalString(m2), p2)]);
    assert Keys(dated.value)[0] == Keys(dated.value)[1];
  }

  /** `equals`: the raw datecode maps are equal as maps. */
  predicate Equals(a: GraphingData, b: GraphingData)
    ensures Equals(a, b) <==> SameLookups(a.daily, b.daily) && SameLookups(a.average, b.average)
  {
    AsMapEqual(a.daily, b.daily);
    AsMapEqual(a.average, b.average);
    AsMap(a.daily) == AsMap(b.daily) && AsMap(a.average) == AsMap(b.average)
  }

  /**
   * Equal data look up the same price for every datecode, and hence for
   * every date; and data that agree on every datecode are equal.
   */
  lemma EqualsByLookup(a: GraphingData, b: GraphingData, day: int)
    ensures Equals(a, b) <==> SameLookups(a.daily, b.daily) && SameLookups(a.average, b.average)
    ensures Equals(a, b) ==> GetDailyPrice(a, day) == GetDailyPrice(b, day) && GetAveragePrice(a, day) == GetAveragePrice(b, day)
  {
    AsMapEqual(a.daily, b.daily);
    AsMapEqual(a.average, b.average);
    if Equals(a, b) {
      MapDeterminesLookup(a.daily, b.daily, Code(day));
      MapDeterminesLookup(a.average, b.average, Code(day));
    }
  }
}
