/**
 * The time-series endpoint of backend/Basic/views.py
 * (`Time_series_Airthemitic.post`): the same growth rate as
 * `get_total_p7`, then either one target year for a list of villages or a
 * range of years for an id-to-population object.
 */
module TimeSeries {
  import opened Wrappers
  import opened Text
  import opened Population

  /** The endpoint's base year. */
  const BaseYear: int := 2011

  /**
   * `villages_props` as the request carries it: a list of `{id, population}`
   * records, or an object from village id to population.
   */
  datatype VillagesProps = VillageList(villages: seq<Village>) | VillageDict(populations: map<string, int>)

  /** The intended entry of every village of an object, when no projection divides by zero. */
  function DictEntries(populations: map<string, int>, rate: int, total: int, start: int, count: nat)
    : map<string, map<string, int>>
    requires !RangeFails(total, start, count)
  {
    map id | id in populations :: RangeEntry(populations[id], rate, BaseYear, total, start, count).value
  }

  lemma DictEntriesUpdate(populations: map<string, int>, id: string, value: int, rate: int, total: int,
                          start: int, count: nat)
    requires !RangeFails(total, start, count)
    ensures DictEntries(populations[id := value], rate, total, start, count)
         == DictEntries(populations, rate, total, start, count)[id := RangeEntry(value, rate, BaseYear, total, start, count).value]
  {
  }

  /** The range dictionary over an id-to-population object: one intended entry per id. */
  function RangeOutputOfDict(populations: map<string, int>, rate: int, total: int, start: int, end: int)
    : Result<map<string, map<string, int>>, PyError>
  {
    var count := YearCount(start, end);
    if RangeFails(total, start, count) then
      if populations == map[] then Ok(map[]) else Err(ZeroDivisionError)
    else
      Ok(DictEntries(populations, rate, total, start, count))
  }

  /**
   * The response of the endpoint.  `None` stands for a falsy `year`,
   * `start_year` or `end_year`.  A truthy `year` takes precedence; it
   * iterates the villages as a list, and iterating a non-empty object
   * instead yields its keys, which cannot be indexed by `'id'`.  The range
   * calls `.items()`, which a list does not have.
   */
  function Response(year: Option<int>, startYear: Option<int>, endYear: Option<int>, villages: VillagesProps,
                    subdistrict: seq<CensusRow>): (r: Result<map<string, map<string, int>>, PyError>)
    ensures r.Err? ==> r.error != UnboundLocalError
    ensures r.Err? && r.error == AttributeError ==> year.None? && villages.VillageList?
    ensures r.Err? && r.error == TypeError ==> year.Some? && villages.VillageDict?
  {
    var (rate, total) := GetTotalP7(subdistrict);
    if year.Some? then
      match villages
      case VillageList(vs) =>
        SingleYearOutputContents(vs, rate, year.value, BaseYear, total);
        SingleYearOutput(vs, rate, year.value, BaseYear, total)
      case VillageDict(m) => if m == map[] then Ok(map[]) else Err(TypeError)
    else if startYear.Some? && endYear.Some? then
      match villages
      case VillageList(_) => Err(AttributeError)
      case VillageDict(m) => RangeOutputOfDict(m, rate, total, startYear.value, endYear.value)
    else Ok(map[])
  }

  /** `post`, with the request's fields as parameters. */
  method Post(year: Option<int>, startYear: Option<int>, endYear: Option<int>, villages: VillagesProps,
              subdistrict: seq<CensusRow>)
    returns (response: Result<map<string, map<string, int>>, PyError>)
    ensures response == Response(year, startYear, endYear, villages, subdistrict)
  {
    var (annualGrowthRate, totalP7) := GetTotalP7(subdistrict);
    var outputYear: map<string, map<string, int>> := map[];
    if year.Some? {
      match villages {
        case VillageList(vs) =>
          response := FillSingleYear(vs, annualGrowthRate, year.value, BaseYear, totalP7);
          return;
        case VillageDict(m) =>
          if m != map[] {
            return Err(TypeError);
          }
      }
    } else if startYear.Some? && endYear.Some? {
      match villages {
        case VillageList(_) =>
          return Err(AttributeError);
        case VillageDict(m) =>
          var count := YearCount(startYear.value, endYear.value);
          var remaining := m.Keys;
          while remaining != {}
            invariant remaining <= m.Keys
            invariant outputYear.Keys == m.Keys - remaining
            invariant forall id :: id in outputYear ==>
              RangeEntry(m[id], annualGrowthRate, BaseYear, totalP7, startYear.value, count) == Ok(outputYear[id])
            decreases |remaining|
          {
            var villageId :| villageId in remaining;
            var entry := VillageRangeEntry(m[villageId], annualGrowthRate, BaseYear, totalP7,
                                           startYear.value, endYear.value);
            if entry.Err? {
              return Err(entry.error);
            }
            outputYear := outputYear[villageId := entry.value];
            remaining := remaining - {villageId};
          }
          if !RangeFails(totalP7, startYear.value, count) {
            assert outputYear == DictEntries(m, annualGrowthRate, totalP7, startYear.value, count);
          }
      }
    }
    return Ok(outputYear);
  }

  /** A truthy `year` decides the response whatever the range fields hold. */
  lemma SingleYearTakesPrecedence(year: int, s1: Option<int>, e1: Option<int>, s2: Option<int>, e2: Option<int>,
                                  villages: VillagesProps, subdistrict: seq<CensusRow>)
    ensures Response(Some(year), s1, e1, villages, subdistrict) == Response(Some(year), s2, e2, villages, subdistrict)
  {
  }

  /** With no year and an incomplete range the response is empty. */
  lemma NothingRequested(startYear: Option<int>, endYear: Option<int>, villages: VillagesProps,
                         subdistrict: seq<CensusRow>)
    requires startYear.None? || endYear.None?
    ensures Response(None, startYear, endYear, villages, subdistrict) == Ok(map[])
  {
  }

  /**
   * For a target year the endpoint answers what service.py's
   * `population_single_year` computes with base year 2011.
   */
  lemma SingleYearAgreesWithService(year: int, startYear: Option<int>, endYear: Option<int>, vs: seq<Village>,
                                    subdistrict: seq<CensusRow>)
    ensures Response(Some(year), startYear, endYear, VillageList(vs), subdistrict)
         == SingleYearOutput(vs, GetTotalP7(subdistrict).0, year, BaseYear, GetTotalP7(subdistrict).1)
  {
  }

  /**
   * Over a range, every village id keeps its census value under "2011"
   * and gets each other year's projection; the only error is the division
   * by a zero total.
   */
  lemma RangeResponseContents(startYear: int, endYear: int, m: map<string, int>, subdistrict: seq<CensusRow>)
    ensures var r := Response(None, Some(startYear), Some(endYear), VillageDict(m), subdistrict);
      var (rate, total) := GetTotalP7(subdistrict);
      && (r.Err? <==> m != map[] && RangeFails(total, startYear, YearCount(startYear, endYear)))
      && (r.Err? ==> r.error == ZeroDivisionError)
      && (r.Ok? ==> r.value.Keys == m.Keys)
      && (r.Ok? ==> forall id :: id in m ==>
            && BaseKey in r.value[id]
            && r.value[id][BaseKey] == m[id]
            && forall y :: startYear <= y <= endYear && y != 2011 ==>
                 IntToString(y) in r.value[id]
                 && r.value[id][IntToString(y)] == Project(m[id], rate, y, BaseYear, total).value)
  {
    var (rate, total) := GetTotalP7(subdistrict);
    var count := YearCount(startYear, endYear);
    if !RangeFails(total, startYear, count) {
      forall id | id in m {
        RangeEntryContents(m[id], rate, BaseYear, total, startYear, count);
      }
    }
  }

  /** The object a list of villages becomes when later ids overwrite earlier ones. */
  function AsDict(vs: seq<Village>): (m: map<string, int>)
    ensures m.Keys == Ids(vs)
    decreases |vs|
  {
    if vs == [] then map[]
    else
      IdsSnoc(vs);
      AsDict(vs[..|vs| - 1])[vs[|vs| - 1].id := vs[|vs| - 1].population]
  }

  /**
   * The range of views.py over an object gives the same dictionary as the
   * corrected range of service.py over a list with those ids and populations.
   */
  lemma {:induction false} RangeAgreesWithCorrectedService(vs: seq<Village>, rate: int, total: int, start: int, end: int)
    ensures RangeOutputOfDict(AsDict(vs), rate, total, start, end) == RangeOutput(vs, rate, BaseYear, total, start, end)
    decreases |vs|
  {
    RangeOutputFails(vs, rate, BaseYear, total, start, end);
    var count := YearCount(start, end);
    if !RangeFails(total, start, count) {
      if vs == [] {
        assert DictEntries(map[], rate, total, start, count) == map[];
      } else {
        var n := |vs| - 1;
        RangeAgreesWithCorrectedService(vs[..n], rate, total, start, end);
        RangeOutputFails(vs[..n], rate, BaseYear, total, start, end);
        DictEntriesUpdate(AsDict(vs[..n]), vs[n].id, vs[n].population, rate, total, start, count);
        var prev := RangeOutput(vs[..n], rate, BaseYear, total, start, end);
        assert RangeOutput(vs, rate, BaseYear, total, start, end)
            == Ok(prev.value[vs[n].id := RangeEntry(vs[n].population, rate, BaseYear, total, start, count).value]);
      }
    } else if vs != [] {
      assert vs[0].id in Ids(vs);
    }
  }
}
