/**
 * `GraphingData` of the `com.runescape.api` Grand Exchange module: the same
 * two datecode maps as the `com.mikebull94.rsapi` record, with a public
 * constructor and `Optional<Integer>` point lookups.
 */
module ApiGraphingData {
  import opened Wrappers
  import opened JavaLang
  import opened ImmutableMaps
  import Rsapi = RsapiGraphingData

  /** The constructor stores both maps as given. */
  type GraphingData = Rsapi.GraphingData

  /**
   * `getDailyValue`: the price stored under the exact datecode of the date,
   * else empty; ArithmeticException for a date beyond the `long` range.
   */
  function GetDailyValue(data: GraphingData, day: int): (r: Result<Option<Int32>, Fault>)
    ensures r.Ok? <==> IsLong(day * Rsapi.MILLIS_PER_DAY)
    ensures r.Err? ==> r.error == Arithmetic
    ensures r.Ok? && r.value.Some? ==> (Rsapi.Code(day), r.value.value) in data.daily
    ensures r.Ok? && r.value.None? ==> Rsapi.Code(day) !in Keys(data.daily)
  {
    Rsapi.PriceOn(data.daily, day)
  }

  /** `getAverageValue`: the same lookup in the average map. */
  function GetAverageValue(data: GraphingData, day: int): (r: Result<Option<Int32>, Fault>)
    ensures r.Ok? <==> IsLong(day * Rsapi.MILLIS_PER_DAY)
    ensures r.Err? ==> r.error == Arithmetic
    ensures r.Ok? && r.value.Some? ==> (Rsapi.Code(day), r.value.value) in data.average
    ensures r.Ok? && r.value.None? ==> Rsapi.Code(day) !in Keys(data.average)
  {
    Rsapi.PriceOn(data.average, day)
  }

  /** `getDailyPrices`: every datecode parsed and taken to its UTC date, through the shared `getPrices` loop. */
  method GetDailyPrices(data: GraphingData) returns (r: Result<Entries<int, Int32>, Fault>)
    ensures r == Rsapi.PricesByDate(data.daily)
  {
    r := Rsapi.GetPrices(data.daily);
  }

  /** `getAveragePrices`. */
  method GetAveragePrices(data: GraphingData) returns (r: Result<Entries<int, Int32>, Fault>)
    ensures r == Rsapi.PricesByDate(data.average)
  {
    r := Rsapi.GetPrices(data.average);
  }

  /** A value found by date is listed under that date by `getDailyPrices` and `getAveragePrices`. */
  lemma ValuesListed(data: GraphingData, day: int, daily: Int32, average: Int32)
    ensures GetDailyValue(data, day) == Ok(Some(daily)) && Rsapi.PricesByDate(data.daily).Ok? ==>
      (day, daily) in Rsapi.PricesByDate(data.daily).value
    ensures GetAverageValue(data, day) == Ok(Some(average)) && Rsapi.PricesByDate(data.average).Ok? ==>
      (day, average) in Rsapi.PricesByDate(data.average).value
  {
    if GetDailyValue(data, day) == Ok(Some(daily)) && Rsapi.PricesByDate(data.daily).Ok? {
      Rsapi.PointLookupListed(data.daily, day, daily);
    }
    if GetAverageValue(data, day) == Ok(Some(average)) && Rsapi.PricesByDate(data.average).Ok? {
      Rsapi.PointLookupListed(data.average, day, average);
    }
  }
}
