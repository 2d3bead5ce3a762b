/**
 * Village population projection (backend/Basic/service.py): the annual
 * growth rate of a set of subdistricts from the census columns 1951..2011,
 * and the per-village projections keyed by year strings.
 *
 * Numbers are exact: Python's true division and float arithmetic are
 * modelled in `real`, `math.floor` as `.Floor` and `int()` as truncation
 * toward zero.  The errors Python raises on the way are `Err` results.
 */
module Population {
  import opened Wrappers
  import opened Text

  /** The errors the projection code can raise. */
  datatype PyError = ZeroDivisionError | UnboundLocalError | TypeError | AttributeError

  /** A row of the census table: one subdistrict's population in each census year. */
  datatype CensusRow = CensusRow(
    subdistrictCode: int,
    p1951: int, p1961: int, p1971: int, p1981: int, p1991: int, p2001: int, p2011: int)

  /** A village of the request: its id and its 2011 population. */
  datatype Village = Village(id: string, population: int)

  /** The key under which every village keeps its census value. */
  const BaseKey: string := "2011"

  /** Census column `d` of a row: 0 is 1951, ..., 6 is 2011. */
  function Census(row: CensusRow, d: nat): int
    requires d < 7
  {
    if d == 0 then row.p1951
    else if d == 1 then row.p1961
    else if d == 2 then row.p1971
    else if d == 3 then row.p1981
    else if d == 4 then row.p1991
    else if d == 5 then row.p2001
    else row.p2011
  }

  /** `[x['population_…'] for x in rows]`. */
  function Column(rows: seq<CensusRow>, d: nat): seq<int>
    requires d < 7
  {
    seq(|rows|, i requires 0 <= i < |rows| => Census(rows[i], d))
  }

  /** Python's `sum`, adding from the left. */
  function Sum(xs: seq<int>): int {
    if xs == [] then 0 else Sum(xs[..|xs| - 1]) + xs[|xs| - 1]
  }

  /** The total of census column `d` over the rows. */
  function Total(rows: seq<CensusRow>, d: nat): int
    requires d < 7
  {
    Sum(Column(rows, d))
  }

  /** Totals add up over the subdistricts: the total of two groups of rows is the sum of their totals. */
  lemma {:induction false} TotalAppend(rows1: seq<CensusRow>, rows2: seq<CensusRow>, d: nat)
    requires d < 7
    ensures Total(rows1 + rows2, d) == Total(rows1, d) + Total(rows2, d)
    decreases |rows2|
  {
    if rows2 == [] {
      assert rows1 + rows2 == rows1;
    } else {
      var init := rows2[..|rows2| - 1];
      TotalAppend(rows1, init, d);
      assert Column(rows1 + rows2, d)[..|rows1 + rows2| - 1] == Column(rows1 + init, d);
      assert Column(rows2, d)[..|rows2| - 1] == Column(init, d);
    }
  }

  /** The six changes between consecutive censuses. */
  function DecadalChanges(rows: seq<CensusRow>): seq<int> {
    [Total(rows, 1) - Total(rows, 0),
     Total(rows, 2) - Total(rows, 1),
     Total(rows, 3) - Total(rows, 2),
     Total(rows, 4) - Total(rows, 3),
     Total(rows, 5) - Total(rows, 4),
     Total(rows, 6) - Total(rows, 5)]
  }

  /** The changes telescope to the change over sixty years. */
  lemma ChangesTelescope(rows: seq<CensusRow>)
    ensures Sum(DecadalChanges(rows)) == Total(rows, 6) - Total(rows, 0)
  {
    var d := DecadalChanges(rows);
    assert Sum(d[..1]) == d[0] by { assert d[..1][..0] == []; }
    assert Sum(d[..2]) == Sum(d[..1]) + d[1] by { assert d[..2][..1] == d[..1]; }
    assert Sum(d[..3]) == Sum(d[..2]) + d[2] by { assert d[..3][..2] == d[..2]; }
    assert Sum(d[..4]) == Sum(d[..3]) + d[3] by { assert d[..4][..3] == d[..3]; }
    assert Sum(d[..5]) == Sum(d[..4]) + d[4] by { assert d[..5][..4] == d[..4]; }
    assert Sum(d) == Sum(d[..5]) + d[5];
  }

  /** The floor of a true division by a positive integer is Python's (and Dafny's) integer division. */
  lemma FloorOfQuotient(x: int, k: int)
    requires k > 0
    ensures (x as real / k as real).Floor == x / k
  {
    var q, r := x / k, x % k;
    assert x == k * q + r && 0 <= r < k;
    assert x as real / k as real == q as real + r as real / k as real;
    assert 0.0 <= r as real / k as real < 1.0;
  }

  /**
   * `get_total_p7`: the annual growth rate `floor(mean(changes) / 10)` and
   * the 2011 total.  The rate is a sixtieth of the change from 1951 to
   * 2011, rounded down.
   */
  function GetTotalP7(rows: seq<CensusRow>): (result: (int, int))
    ensures result.1 == Total(rows, 6)
    ensures result.0 == (Total(rows, 6) - Total(rows, 0)) / 60
  {
    var changes := DecadalChanges(rows);
    var mean := Sum(changes) as real / |changes| as real;
    var rate := (mean / 10.0).Floor;
    ChangesTelescope(rows);
    assert mean / 10.0 == Sum(changes) as real / 60.0;
    FloorOfQuotient(Sum(changes), 60);
    (rate, Total(rows, 6))
  }

  /** Python's `int()` of a float: truncation toward zero. */
  function Trunc(x: real): (n: int)
    ensures 0.0 <= x ==> n as real <= x < n as real + 1.0
    ensures x < 0.0 ==> n as real - 1.0 < x <= n as real
  {
    if x >= 0.0 then x.Floor else -((-x).Floor)
  }

  lemma TruncOfInteger(n: int)
    ensures Trunc(n as real) == n
  {
  }

  lemma TruncMonotone(x: real, y: real)
    requires x <= y
    ensures Trunc(x) <= Trunc(y)
  {
  }

  /**
   * `int(value + ((rate * (year - base)) * (value / total_p7)))`: the
   * village's 2011 population plus its share of the subdistricts' growth
   * since the base year.  The division raises when `total_p7` is zero.
   */
  function Project(value: int, rate: int, year: int, base: int, total: int): (r: Result<int, PyError>)
    ensures r.Err? <==> total == 0
    ensures r.Err? ==> r.error == ZeroDivisionError
  {
    if total == 0 then Err(ZeroDivisionError)
    else Ok(Trunc(Projected(value, rate, year, base, total)))
  }

  /** The projection before `int()`: the census value plus the village's share of the growth. */
  function Projected(value: int, rate: int, year: int, base: int, total: int): real
    requires total != 0
  {
    value as real + (rate * (year - base)) as real * (value as real / total as real)
  }

  /** At the base year the projection is the census value itself. */
  lemma ProjectBaseYear(value: int, rate: int, base: int, total: int)
    requires total != 0
    ensures Project(value, rate, base, base, total) == Ok(value)
  {
    assert (rate * (base - base)) as real == 0.0;
    assert Projected(value, rate, base, base, total) == value as real;
    TruncOfInteger(value);
  }

  lemma MultiplyNonNegative(a: real, b: real, c: real)
    requires a <= b && 0.0 <= c
    ensures a * c <= b * c
  {
  }

  /** With a non-negative rate and share, a later year never projects fewer people. */
  lemma ProjectMonotoneInYear(value: int, rate: int, base: int, total: int, y1: int, y2: int)
    requires total > 0 && value >= 0 && rate >= 0 && y1 <= y2
    ensures Project(value, rate, y1, base, total).value <= Project(value, rate, y2, base, total).value
  {
    ProjectedMonotone(value, rate, base, total, y1, y2);
    TruncMonotone(Projected(value, rate, y1, base, total), Projected(value, rate, y2, base, total));
  }

  lemma ProjectedMonotone(value: int, rate: int, base: int, total: int, y1: int, y2: int)
    requires total > 0 && value >= 0 && rate >= 0 && y1 <= y2
    ensures Projected(value, rate, y1, base, total) <= Projected(value, rate, y2, base, total)
  {
    var share := value as real / total as real;
    ShareNonNegative(value, total);
    GrowthMonotone(rate, y1 - base, y2 - base);
    MultiplyNonNegative((rate * (y1 - base)) as real, (rate * (y2 - base)) as real, share);
  }

  lemma ShareNonNegative(value: int, total: int)
    requires value >= 0 && total > 0
    ensures value as real / total as real >= 0.0
  {
  }

  lemma GrowthMonotone(rate: int, a: int, b: int)
    requires rate >= 0 && a <= b
    ensures rate * a <= rate * b
  {
    assert rate * b - rate * a == rate * (b - a);
  }

  /** The key of a year is `"2011"` exactly for 2011. */
  lemma YearKey(year: int)
    ensures IntToString(year) == BaseKey <==> year == 2011
  {
    assert IntToString(2011) == BaseKey by {
      assert NatToString(2011) == NatToString(201) + [DecimalDigit(1)];
      assert NatToString(201) == NatToString(20) + [DecimalDigit(1)];
      assert NatToString(20) == NatToString(2) + [DecimalDigit(0)];
    }
    IntToStringInjective(year, 2011);
  }

  // ---------------------------------------------------------------------
  // The per-village dictionary
  // ---------------------------------------------------------------------

  /** The ids of the villages. */
  function Ids(villages: seq<Village>): set<string> {
    set i | 0 <= i < |villages| :: villages[i].id
  }

  /** No village after position `i` has the same id: village `i` is the one that stays. */
  predicate LastWithId(villages: seq<Village>, i: int)
    requires 0 <= i < |villages|
  {
    forall j :: i < j < |villages| ==> villages[j].id != villages[i].id
  }

  /**
   * The dictionary a loop `output_year[village_id] = entry(value)` fills,
   * village by village; the first entry that raises ends the loop.
   */
  function VillageOutput(villages: seq<Village>, entry: int -> Result<map<string, int>, PyError>)
    : Result<map<string, map<string, int>>, PyError>
    decreases |villages|
  {
    if villages == [] then Ok(map[])
    else
      var prev := VillageOutput(villages[..|villages| - 1], entry);
      var v := villages[|villages| - 1];
      var e := entry(v.population);
      if prev.Err? then prev
      else if e.Err? then Err(e.error)
      else Ok(prev.value[v.id := e.value])
  }

  lemma IdsSnoc(villages: seq<Village>)
    requires villages != []
    ensures Ids(villages) == Ids(villages[..|villages| - 1]) + {villages[|villages| - 1].id}
  {
    var n := |villages| - 1;
    forall id | id in Ids(villages) ensures id in Ids(villages[..n]) + {villages[n].id} {
      var i :| 0 <= i < |villages| && villages[i].id == id;
      if i < n {
        assert villages[..n][i].id == id;
      }
    }
  }

  /** The loop raises exactly when the entry of some village raises, and then with that village's error. */
  lemma {:induction false} VillageOutputFails(villages: seq<Village>, entry: int -> Result<map<string, int>, PyError>)
    ensures VillageOutput(villages, entry).Err? <==>
      exists i :: 0 <= i < |villages| && entry(villages[i].population).Err?
    ensures VillageOutput(villages, entry).Err? ==>
      exists i :: 0 <= i < |villages| && entry(villages[i].population) == Err(VillageOutput(villages, entry).error)
    decreases |villages|
  {
    if villages != [] {
      var n := |villages| - 1;
      VillageOutputFails(villages[..n], entry);
      assert forall i :: 0 <= i < n ==> villages[..n][i] == villages[i];
    }
  }

  /** Otherwise it has one entry per village id. */
  lemma {:induction false} VillageOutputKeys(villages: seq<Village>, entry: int -> Result<map<string, int>, PyError>)
    requires VillageOutput(villages, entry).Ok?
    ensures VillageOutput(villages, entry).value.Keys == Ids(villages)
    decreases |villages|
  {
    if villages != [] {
      VillageOutputKeys(villages[..|villages| - 1], entry);
      IdsSnoc(villages);
    }
  }

  /** The entry of an id is the one of the last village with that id: later duplicates replace earlier ones. */
  lemma {:induction false} VillageOutputValues(villages: seq<Village>, entry: int -> Result<map<string, int>, PyError>)
    requires VillageOutput(villages, entry).Ok?
    ensures forall i :: 0 <= i < |villages| && LastWithId(villages, i) ==>
      && villages[i].id in VillageOutput(villages, entry).value
      && entry(villages[i].population).Ok?
      && VillageOutput(villages, entry).value[villages[i].id] == entry(villages[i].population).value
    decreases |villages|
  {
    if villages != [] {
      var n := |villages| - 1;
      var init := villages[..n];
      VillageOutputValues(init, entry);
      var out := VillageOutput(villages, entry).value;
      forall i | 0 <= i < |villages| && LastWithId(villages, i)
        ensures villages[i].id in out && entry(villages[i].population).Ok?
        ensures out[villages[i].id] == entry(villages[i].population).value
      {
        if i < n {
          assert villages[n].id != villages[i].id;
          assert init[i] == villages[i];
          assert LastWithId(init, i);
        }
      }
    }
  }

  // ---------------------------------------------------------------------
  // population_single_year
  // ---------------------------------------------------------------------

  /** The entry `{"2011": value, str(target): projection}` of one village. */
  function SingleYearEntry(value: int, rate: int, target: int, base: int, total: int): (r: Result<map<string, int>, PyError>)
    ensures r.Err? <==> total == 0
    ensures r.Err? ==> r.error == ZeroDivisionError
    ensures r.Ok? ==> r.value.Keys == {BaseKey, IntToString(target)}
    ensures r.Ok? ==> r.value[IntToString(target)] == Project(value, rate, target, base, total).value
    ensures r.Ok? && target != 2011 ==> r.value[BaseKey] == value
  {
    var p := Project(value, rate, target, base, total);
    if p.Err? then Err(p.error)
    else
      YearKey(target);
      Ok(map[BaseKey := value][IntToString(target) := p.value])
  }

  /** The dictionary the loop of `population_single_year` fills. */
  function SingleYearOutput(villages: seq<Village>, rate: int, target: int, base: int, total: int)
    : Result<map<string, map<string, int>>, PyError>
  {
    VillageOutput(villages, value => SingleYearEntry(value, rate, target, base, total))
  }

  /**
   * The output raises division by zero exactly when there are villages and
   * the 2011 total is zero; otherwise every village id maps to the entry
   * of the last village with that id.
   */
  lemma SingleYearOutputContents(villages: seq<Village>, rate: int, target: int, base: int, total: int)
    ensures var out := SingleYearOutput(villages, rate, target, base, total);
      && (out.Err? <==> total == 0 && |villages| > 0)
      && (out.Err? ==> out.error == ZeroDivisionError)
      && (out.Ok? ==> out.value.Keys == Ids(villages))
      && (out.Ok? ==> forall i :: 0 <= i < |villages| && LastWithId(villages, i) ==>
            out.value[villages[i].id] == SingleYearEntry(villages[i].population, rate, target, base, total).value)
  {
    var entry := value => SingleYearEntry(value, rate, target, base, total);
    VillageOutputFails(villages, entry);
    if total == 0 && |villages| > 0 {
      assert entry(villages[0].population).Err?;
    }
    if VillageOutput(villages, entry).Ok? {
      VillageOutputKeys(villages, entry);
      VillageOutputValues(villages, entry);
    }
  }

  /** When the target is the base year, every village keeps its census value under the target's key. */
  lemma SingleYearAtBaseYear(villages: seq<Village>, rate: int, base: int, total: int)
    requires total != 0
    ensures var out := SingleYearOutput(villages, rate, base, base, total);
      out.Ok? && forall i :: 0 <= i < |villages| && LastWithId(villages, i) ==>
        && villages[i].id in out.value
        && IntToString(base) in out.value[villages[i].id]
        && out.value[villages[i].id][IntToString(base)] == villages[i].population
  {
    SingleYearOutputContents(villages, rate, base, base, total);
    VillageOutputValues(villages, value => SingleYearEntry(value, rate, base, base, total));
    forall i | 0 <= i < |villages|
      ensures Project(villages[i].population, rate, base, base, total) == Ok(villages[i].population)
    {
      ProjectBaseYear(villages[i].population, rate, base, total);
    }
  }

  /** The loop of `population_single_year` over the villages, once the growth rate is known. */
  method FillSingleYear(villages: seq<Village>, rate: int, targetYear: int, baseYear: int, totalP7: int)
    returns (output: Result<map<string, map<string, int>>, PyError>)
    ensures output == SingleYearOutput(villages, rate, targetYear, baseYear, totalP7)
  {
    var outputYear: map<string, map<string, int>> := map[];
    for i := 0 to |villages|
      invariant SingleYearOutput(villages[..i], rate, targetYear, baseYear, totalP7) == Ok(outputYear)
    {
      var villageId, value := villages[i].id, villages[i].population;
      var projected := Project(value, rate, targetYear, baseYear, totalP7);
      if projected.Err? {
        SingleYearOutputContents(villages, rate, targetYear, baseYear, totalP7);
        return Err(projected.error);
      }
      outputYear := outputYear[villageId := map[BaseKey := value][IntToString(targetYear) := projected.value]];
      assert villages[..i + 1][..i] == villages[..i];
    }
    assert villages[..|villages|] == villages;
    return Ok(outputYear);
  }

  /**
   * `population_single_year(base_year, single_year, villages, subdistrict)`:
   * `None` stands for any falsy `single_year`, which leaves the output empty.
   */
  method PopulationSingleYear(baseYear: int, singleYear: Option<int>, villages: seq<Village>,
                              subdistrict: seq<CensusRow>)
    returns (output: Result<map<string, map<string, int>>, PyError>)
    ensures singleYear.None? ==> output == Ok(map[])
    ensures singleYear.Some? ==>
      output == SingleYearOutput(villages, GetTotalP7(subdistrict).0, singleYear.value, baseYear,
                                 GetTotalP7(subdistrict).1)
  {
    var (annualGrowthRate, totalP7) := GetTotalP7(subdistrict);
    if singleYear.None? {
      return Ok(map[]);
    }
    output := FillSingleYear(villages, annualGrowthRate, singleYear.value, baseYear, totalP7);
  }

  // ---------------------------------------------------------------------
  // population_range
  // ---------------------------------------------------------------------

  /** The number of years in `range(start, end + 1)`. */
  function YearCount(start: int, end: int): nat {
    if end >= start then end - start + 1 else 0
  }

  /** The keys of the years `start .. start + count - 1`. */
  function YearKeys(start: int, count: nat): set<string> {
    set y | start <= y < start + count :: IntToString(y)
  }

  lemma YearKeysSnoc(start: int, count: nat)
    requires count > 0
    ensures YearKeys(start, count) == YearKeys(start, count - 1) + {IntToString(start + count - 1)}
  {
    forall k | k in YearKeys(start, count)
      ensures k in YearKeys(start, count - 1) + {IntToString(start + count - 1)}
    {
      var y :| start <= y < start + count && IntToString(y) == k;
      if y < start + count - 1 {
        assert IntToString(y) in YearKeys(start, count - 1);
      }
    }
  }

  /**
   * A range of `count` years from `start` needs a projection, and so divides
   * by a zero total, unless it is empty or just 2011.
   */
  predicate RangeFails(total: int, start: int, count: nat) {
    total == 0 && count > 0 && !(count == 1 && start == 2011)
  }

  /**
   * The intended entry of one village over the years `start .. start + count - 1`:
   * "2011" keeps the census value and every other year gets its projection.
   * This is what the range loop of views.py computes.
   */
  function RangeEntry(value: int, rate: int, base: int, total: int, start: int, count: nat)
    : (r: Result<map<string, int>, PyError>)
    ensures r.Err? <==> RangeFails(total, start, count)
    ensures r.Err? ==> r.error == ZeroDivisionError
    decreases count
  {
    if count == 0 then Ok(map[BaseKey := value])
    else
      var prev := RangeEntry(value, rate, base, total, start, count - 1);
      var year := start + count - 1;
      if prev.Err? || year == 2011 then prev
      else
        var p := Project(value, rate, year, base, total);
        if p.Err? then Err(p.error) else Ok(prev.value[IntToString(year) := p.value])
  }

  /**
   * The intended entry has the key "2011", holding the census value, and
   * one key per year of the range, holding that year's projection.
   */
  lemma {:induction false} RangeEntryContents(value: int, rate: int, base: int, total: int, start: int, count: nat)
    requires !RangeFails(total, start, count)
    ensures var e := RangeEntry(value, rate, base, total, start, count).value;
      && e.Keys == {BaseKey} + YearKeys(start, count)
      && e[BaseKey] == value
      && forall y :: start <= y < start + count && y != 2011 ==>
           IntToString(y) in e && e[IntToString(y)] == Project(value, rate, y, base, total).value
    decreases count
  {
    if count > 0 {
      var year := start + count - 1;
      var prev := RangeEntry(value, rate, base, total, start, count - 1);
      RangeEntryContents(value, rate, base, total, start, count - 1);
      YearKeysSnoc(start, count);
      YearKey(year);
      forall y | start <= y < year
        ensures IntToString(y) != IntToString(year)
      {
        IntToStringInjective(y, year);
      }
      if year == 2011 {
        assert RangeEntry(value, rate, base, total, start, count) == prev;
      } else {
        var p := Project(value, rate, year, base, total);
        assert RangeEntry(value, rate, base, total, start, count) == Ok(prev.value[IntToString(year) := p.value]);
      }
    }
  }

  /** The intended dictionary of a range over a list of villages. */
  function RangeOutput(villages: seq<Village>, rate: int, base: int, total: int, start: int, end: int)
    : Result<map<string, map<string, int>>, PyError>
  {
    VillageOutput(villages, value => RangeEntry(value, rate, base, total, start, YearCount(start, end)))
  }

  /** It raises exactly when there are villages and a year to project with a zero total. */
  lemma RangeOutputFails(villages: seq<Village>, rate: int, base: int, total: int, start: int, end: int)
    ensures RangeOutput(villages, rate, base, total, start, end).Err? <==>
      |villages| > 0 && RangeFails(total, start, YearCount(start, end))
    ensures RangeOutput(villages, rate, base, total, start, end).Err? ==>
      RangeOutput(villages, rate, base, total, start, end).error == ZeroDivisionError
  {
    var entry := value => RangeEntry(value, rate, base, total, start, YearCount(start, end));
    VillageOutputFails(villages, entry);
    if |villages| > 0 && RangeFails(total, start, YearCount(start, end)) {
      assert entry(villages[0].population).Err?;
    }
  }

  /**
   * Otherwise every village id maps to the entry of the last village with
   * that id: its census value under "2011" and each other year's projection.
   */
  lemma RangeOutputContents(villages: seq<Village>, rate: int, base: int, total: int, start: int, end: int)
    requires RangeOutput(villages, rate, base, total, start, end).Ok?
    ensures var out := RangeOutput(villages, rate, base, total, start, end).value;
      && out.Keys == Ids(villages)
      && forall i :: 0 <= i < |villages| && LastWithId(villages, i) ==>
           && villages[i].id in out
           && out[villages[i].id].Keys == {BaseKey} + YearKeys(start, YearCount(start, end))
           && out[villages[i].id][BaseKey] == villages[i].population
           && forall y :: start <= y <= end && y != 2011 ==>
                IntToString(y) in out[villages[i].id]
                && out[villages[i].id][IntToString(y)] == Project(villages[i].population, rate, y, base, total).value
  {
    var entry := value => RangeEntry(value, rate, base, total, start, YearCount(start, end));
    VillageOutputKeys(villages, entry);
    VillageOutputValues(villages, entry);
    forall i | 0 <= i < |villages| && LastWithId(villages, i) {
      RangeEntryContents(villages[i].population, rate, base, total, start, YearCount(start, end));
    }
  }

  /** The entry of one village over the years of a range, as the intended loop builds it. */
  method VillageRangeEntry(value: int, rate: int, baseYear: int, totalP7: int, startYear: int, endYear: int)
    returns (entry: Result<map<string, int>, PyError>)
    ensures entry == RangeEntry(value, rate, baseYear, totalP7, startYear, YearCount(startYear, endYear))
  {
    var e := map[BaseKey := value];
    var year := startYear;
    while year <= endYear
      invariant startYear <= year && year - startYear <= YearCount(startYear, endYear)
      invariant RangeEntry(value, rate, baseYear, totalP7, startYear, year - startYear) == Ok(e)
      decreases endYear - year
    {
      if year != 2011 {
        var projectedPop := Project(value, rate, year, baseYear, totalP7);
        if projectedPop.Err? {
          return Err(projectedPop.error);
        }
        e := e[IntToString(year) := projectedPop.value];
      }
      year := year + 1;
    }
    return Ok(e);
  }

  /**
   * `population_range` with the assignment of line 78 inside the `if`:
   * the intended behaviour, which the rest of the model uses.
   */
  method PopulationRange(baseYear: int, startYear: int, endYear: int, villages: seq<Village>,
                         subdistrict: seq<CensusRow>)
    returns (output: Result<map<string, map<string, int>>, PyError>)
    ensures output == RangeOutput(villages, GetTotalP7(subdistrict).0, baseYear, GetTotalP7(subdistrict).1,
                                  startYear, endYear)
  {
    var (annualGrowthRate, totalP7) := GetTotalP7(subdistrict);
    var outputYear: map<string, map<string, int>> := map[];
    for i := 0 to |villages|
      invariant RangeOutput(villages[..i], annualGrowthRate, baseYear, totalP7, startYear, endYear) == Ok(outputYear)
    {
      var villageId, value := villages[i].id, villages[i].population;
      var entry := VillageRangeEntry(value, annualGrowthRate, baseYear, totalP7, startYear, endYear);
      if entry.Err? {
        RangeOutputFails(villages, annualGrowthRate, baseYear, totalP7, startYear, endYear);
        return Err(entry.error);
      }
      outputYear := outputYear[villageId := entry.value];
      assert villages[..i + 1][..i] == villages[..i];
    }
    assert villages[..|villages|] == villages;
    return Ok(outputYear);
  }

  // As written, service.py assigns `output_year[village_id][str(year)] =
  // projected_pop` after the `if year != 2011` (line 78), so for 2011 it
  // stores whatever `projected_pop` last held.

  /** One village's entry and the value `projected_pop` holds after it. */
  datatype Carried = Carried(entry: map<string, int>, projected: Option<int>)

  /**
   * The entry service.py builds for one village over `count` years from
   * `start`, given the `projected_pop` left by the previous village
   * (`None`: not yet bound).
   */
  function RowAsWritten(value: int, rate: int, base: int, total: int, start: int, count: nat, carried: Option<int>)
    : Result<Carried, PyError>
    decreases count
  {
    if count == 0 then Ok(Carried(map[BaseKey := value], carried))
    else
      var prev := RowAsWritten(value, rate, base, total, start, count - 1, carried);
      var year := start + count - 1;
      if prev.Err? then prev
      else if year != 2011 then
        var p := Project(value, rate, year, base, total);
        if p.Err? then Err(p.error)
        else Ok(Carried(prev.value.entry[IntToString(year) := p.value], Some(p.value)))
      else if prev.value.projected.None? then Err(UnboundLocalError)
      else Ok(Carried(prev.value.entry[IntToString(year) := prev.value.projected.value], prev.value.projected))
  }

  /** The dictionary and the carried `projected_pop` after the villages, as service.py fills them. */
  datatype RangeState = RangeState(output: map<string, map<string, int>>, projected: Option<int>)

  function RangeAsWritten(villages: seq<Village>, rate: int, base: int, total: int, start: int, end: int)
    : Result<RangeState, PyError>
    decreases |villages|
  {
    if villages == [] then Ok(RangeState(map[], None))
    else
      var prev := RangeAsWritten(villages[..|villages| - 1], rate, base, total, start, end);
      var v := villages[|villages| - 1];
      if prev.Err? then prev
      else
        var row := RowAsWritten(v.population, rate, base, total, start, YearCount(start, end), prev.value.projected);
        if row.Err? then Err(row.error)
        else Ok(RangeState(prev.value.output[v.id := row.value.entry], row.value.projected))
  }

  lemma {:induction false} RowErrSticks(value: int, rate: int, base: int, total: int, start: int,
                                        k: nat, count: nat, carried: Option<int>)
    requires k <= count && RowAsWritten(value, rate, base, total, start, k, carried).Err?
    ensures RowAsWritten(value, rate, base, total, start, count, carried)
         == RowAsWritten(value, rate, base, total, start, k, carried)
    decreases count
  {
    if k < count {
      RowErrSticks(value, rate, base, total, start, k, count - 1, carried);
    }
  }

  lemma {:induction false} RangeErrSticks(villages: seq<Village>, k: nat, rate: int, base: int, total: int,
                                          start: int, end: int)
    requires k <= |villages| && RangeAsWritten(villages[..k], rate, base, total, start, end).Err?
    ensures RangeAsWritten(villages, rate, base, total, start, end)
         == RangeAsWritten(villages[..k], rate, base, total, start, end)
    decreases |villages|
  {
    if k < |villages| {
      var n := |villages| - 1;
      assert villages[..n][..k] == villages[..k];
      RangeErrSticks(villages[..n], k, rate, base, total, start, end);
    } else {
      assert villages[..k] == villages;
    }
  }

  /**
   * The year loop of service.py for one village: starts the entry with
   * "2011" and stores `projected_pop` under every year of the range,
   * carrying it in from the previous village and out to the next.
   */
  method VillageRowAsWritten(value: int, rate: int, baseYear: int, totalP7: int, startYear: int, endYear: int,
                             carried: Option<int>)
    returns (row: Result<Carried, PyError>)
    ensures row == RowAsWritten(value, rate, baseYear, totalP7, startYear, YearCount(startYear, endYear), carried)
  {
    var entry := map[BaseKey := value];
    var projectedPop := carried;
    var year := startYear;
    while year <= endYear
      invariant startYear <= year && year - startYear <= YearCount(startYear, endYear)
      invariant RowAsWritten(value, rate, baseYear, totalP7, startYear, year - startYear, carried)
             == Ok(Carried(entry, projectedPop))
      decreases endYear - year
    {
      if year != 2011 {
        var p := Project(value, rate, year, baseYear, totalP7);
        if p.Err? {
          RowErrSticks(value, rate, baseYear, totalP7, startYear, year - startYear + 1,
                       YearCount(startYear, endYear), carried);
          return Err(p.error);
        }
        projectedPop := Some(p.value);
      }
      if projectedPop.None? {
        RowErrSticks(value, rate, baseYear, totalP7, startYear, year - startYear + 1,
                     YearCount(startYear, endYear), carried);
        return Err(UnboundLocalError);
      }
      entry := entry[IntToString(year) := projectedPop.value];
      year := year + 1;
    }
    return Ok(Carried(entry, projectedPop));
  }

  /** `population_range(base_year, start_year, end_year, villages, subdistrict)` as written. */
  method PopulationRangeAsWritten(baseYear: int, startYear: int, endYear: int, villages: seq<Village>,
                                  subdistrict: seq<CensusRow>)
    returns (output: Result<map<string, map<string, int>>, PyError>)
    ensures var spec := RangeAsWritten(villages, GetTotalP7(subdistrict).0, baseYear, GetTotalP7(subdistrict).1,
                                       startYear, endYear);
      && (output.Err? <==> spec.Err?)
      && (output.Err? ==> output.error == spec.error)
      && (output.Ok? ==> output.value == spec.value.output)
  {
    var (annualGrowthRate, totalP7) := GetTotalP7(subdistrict);
    var outputYear: map<string, map<string, int>> := map[];
    var projectedPop: Option<int> := None;
    for i := 0 to |villages|
      invariant RangeAsWritten(villages[..i], annualGrowthRate, baseYear, totalP7, startYear, endYear)
             == Ok(RangeState(outputYear, projectedPop))
    {
      assert villages[..i + 1][..i] == villages[..i];
      var villageId, value := villages[i].id, villages[i].population;
      var row := VillageRowAsWritten(value, annualGrowthRate, baseYear, totalP7, startYear, endYear, projectedPop);
      if row.Err? {
        RangeErrSticks(villages, i + 1, annualGrowthRate, baseYear, totalP7, startYear, endYear);
        return Err(row.error);
      }
      outputYear := outputYear[villageId := row.value.entry];
      projectedPop := row.value.projected;
    }
    assert villages[..|villages|] == villages;
    return Ok(outputYear);
  }

  /** Without a carried value, a range starting at 2011 hits the unbound variable at once. */
  lemma {:induction false} RowAsWrittenUnbound(value: int, rate: int, base: int, total: int, count: nat)
    requires count > 0
    ensures RowAsWritten(value, rate, base, total, 2011, count, None) == Err(UnboundLocalError)
    decreases count
  {
    if count > 1 {
      RowAsWrittenUnbound(value, rate, base, total, count - 1);
    }
  }

  /** As written, a non-empty range starting at 2011 raises for any non-empty list of villages. */
  lemma {:induction false} RangeAsWrittenUnbound(villages: seq<Village>, rate: int, base: int, total: int, end: int)
    requires |villages| > 0 && 2011 <= end
    ensures RangeAsWritten(villages, rate, base, total, 2011, end) == Err(UnboundLocalError)
    decreases |villages|
  {
    var n := |villages| - 1;
    if n == 0 {
      RowAsWrittenUnbound(villages[0].population, rate, base, total, YearCount(2011, end));
    } else {
      RangeAsWrittenUnbound(villages[..n], rate, base, total, end);
    }
  }

  /** With a non-zero total, the rows before 2011 succeed and carry the last projection. */
  lemma {:induction false} RowAsWrittenBefore2011(value: int, rate: int, base: int, total: int, start: int,
                                                  count: nat, carried: Option<int>)
    requires total != 0 && count > 0 && start + count - 1 < 2011
    ensures RowAsWritten(value, rate, base, total, start, count, carried).Ok?
    ensures RowAsWritten(value, rate, base, total, start, count, carried).value.projected
         == Some(Project(value, rate, start + count - 1, base, total).value)
    decreases count
  {
    if count > 1 {
      RowAsWrittenBefore2011(value, rate, base, total, start, count - 1, carried);
    }
  }

  /**
   * As written, when a range runs through 2011 without starting there,
   * key "2011" holds the projection for 2010 instead of the census value.
   */
  lemma {:induction false} RowAsWrittenStaleBaseKey(value: int, rate: int, base: int, total: int, start: int,
                                                    count: nat, carried: Option<int>)
    requires total != 0 && start < 2011 < start + count
    ensures RowAsWritten(value, rate, base, total, start, count, carried).Ok?
    ensures var e := RowAsWritten(value, rate, base, total, start, count, carried).value.entry;
      BaseKey in e && e[BaseKey] == Project(value, rate, 2010, base, total).value
    decreases count
  {
    if start + count - 1 == 2011 {
      RowAsWrittenBefore2011(value, rate, base, total, start, count - 1, carried);
      YearKey(2011);
    } else {
      RowAsWrittenStaleBaseKey(value, rate, base, total, start, count - 1, carried);
      YearKey(start + count - 1);
    }
  }

  /** As written and as intended agree on a village when 2011 is outside the range. */
  lemma {:induction false} RowAsWrittenWithout2011(value: int, rate: int, base: int, total: int, start: int,
                                                   count: nat, carried: Option<int>)
    requires !(start <= 2011 < start + count)
    ensures var w := RowAsWritten(value, rate, base, total, start, count, carried);
      var r := RangeEntry(value, rate, base, total, start, count);
      && (w.Err? <==> r.Err?)
      && (w.Ok? ==> w.value.entry == r.value)
    decreases count
  {
    if count > 0 {
      RowAsWrittenWithout2011(value, rate, base, total, start, count - 1, carried);
    }
  }

  /** ... and so on the whole dictionary. */
  lemma {:induction false} RangeAsWrittenWithout2011(villages: seq<Village>, rate: int, base: int, total: int,
                                                     start: int, end: int)
    requires !(start <= 2011 <= end)
    ensures var w := RangeAsWritten(villages, rate, base, total, start, end);
      var r := RangeOutput(villages, rate, base, total, start, end);
      && (w.Err? <==> r.Err?)
      && (w.Ok? ==> w.value.output == r.value)
    decreases |villages|
  {
    if villages != [] {
      var n := |villages| - 1;
      RangeAsWrittenWithout2011(villages[..n], rate, base, total, start, end);
      var prev := RangeAsWritten(villages[..n], rate, base, total, start, end);
      if prev.Ok? {
        RowAsWrittenWithout2011(villages[n].population, rate, base, total, start, YearCount(start, end),
                                prev.value.projected);
      }
    }
  }

  /**
   * The whole of one village's entry as written, for a range through 2011
   * that does not start there: the intended entry, except that "2011"
   * holds the projection for 2010.
   */
  lemma {:induction false} RowAsWrittenThrough2011(value: int, rate: int, base: int, total: int, start: int,
                                                   count: nat, carried: Option<int>)
    requires total != 0 && start < 2011 < start + count
    ensures var w := RowAsWritten(value, rate, base, total, start, count, carried);
      var r := RangeEntry(value, rate, base, total, start, count);
      && w.Ok? && r.Ok?
      && w.value.entry == r.value[BaseKey := Project(value, rate, 2010, base, total).value]
    decreases count
  {
    var year := start + count - 1;
    var q := Project(value, rate, 2010, base, total).value;
    YearKey(year);
    if year == 2011 {
      RowAsWrittenBefore2011(value, rate, base, total, start, count - 1, carried);
      RowAsWrittenWithout2011(value, rate, base, total, start, count - 1, carried);
    } else {
      RowAsWrittenThrough2011(value, rate, base, total, start, count - 1, carried);
      var prevW := RowAsWritten(value, rate, base, total, start, count - 1, carried).value.entry;
      var prevR := RangeEntry(value, rate, base, total, start, count - 1).value;
      var p := Project(value, rate, year, base, total).value;
      assert prevR[BaseKey := q][IntToString(year) := p] == prevR[IntToString(year) := p][BaseKey := q];
    }
  }

  /**
   * Every village's entry with its "2011" value replaced by the projection
   * for 2010, computed from that census value.
   */
  function StaleBaseKeys(output: map<string, map<string, int>>, rate: int, base: int, total: int)
    : (r: map<string, map<string, int>>)
    requires total != 0
    ensures r.Keys == output.Keys
  {
    map id | id in output ::
      if BaseKey in output[id]
      then output[id][BaseKey := Project(output[id][BaseKey], rate, 2010, base, total).value]
      else output[id]
  }

  /**
   * As written, a range through 2011 that does not start there yields the
   * intended dictionary with every village's "2011" made stale: it raises
   * for no list of villages, and every other year is as intended.
   */
  lemma {:induction false} RangeAsWrittenThrough2011(villages: seq<Village>, rate: int, base: int, total: int,
                                                     start: int, end: int)
    requires total != 0 && start < 2011 <= end
    ensures var w := RangeAsWritten(villages, rate, base, total, start, end);
      var r := RangeOutput(villages, rate, base, total, start, end);
      && w.Ok? && r.Ok?
      && w.value.output == StaleBaseKeys(r.value, rate, base, total)
    decreases |villages|
  {
    if villages != [] {
      var n := |villages| - 1;
      var v := villages[n];
      var count := YearCount(start, end);
      RangeAsWrittenThrough2011(villages[..n], rate, base, total, start, end);
      var prevW := RangeAsWritten(villages[..n], rate, base, total, start, end).value;
      var prevR := RangeOutput(villages[..n], rate, base, total, start, end).value;
      RowAsWrittenThrough2011(v.population, rate, base, total, start, count, prevW.projected);
      RangeEntryContents(v.population, rate, base, total, start, count);
      var e := RangeEntry(v.population, rate, base, total, start, count).value;
      assert RangeOutput(villages, rate, base, total, start, end) == Ok(prevR[v.id := e]);
      StaleBaseKeysUpdate(prevR, v.id, e, rate, base, total);
    }
  }

  lemma StaleBaseKeysUpdate(output: map<string, map<string, int>>, id: string, entry: map<string, int>,
                            rate: int, base: int, total: int)
    requires total != 0 && BaseKey in entry
    ensures StaleBaseKeys(output[id := entry], rate, base, total)
         == StaleBaseKeys(output, rate, base, total)[id := entry[BaseKey := Project(entry[BaseKey], rate, 2010, base, total).value]]
  {
  }

  /**
   * One village of 100 people in subdistricts of 100, growth rate 1, years
   * 2010..2011: as written, "2011" holds 99; as intended, 100.
   */
  lemma StaleBaseKeyExample()
    ensures var villages := [Village("v", 100)];
      var w := RangeAsWritten(villages, 1, 2011, 100, 2010, 2011);
      var r := RangeOutput(villages, 1, 2011, 100, 2010, 2011);
      && w.Ok? && "v" in w.value.output && BaseKey in w.value.output["v"]
      && w.value.output["v"][BaseKey] == 99
      && r.Ok? && "v" in r.value && BaseKey in r.value["v"]
      && r.value["v"][BaseKey] == 100
  {
    var villages := [Village("v", 100)];
    assert villages[..0] == [];
    RowAsWrittenStaleBaseKey(100, 1, 2011, 100, 2010, 2, None);
    assert Project(100, 1, 2010, 2011, 100) == Ok(99) by {
      assert (1 * (2010 - 2011)) as real * (100 as real / 100 as real) == -1.0;
    }
    RangeEntryContents(100, 1, 2011, 100, 2010, 2);
  }

  // ---------------------------------------------------------------------
  // geometry_single_year
  // ---------------------------------------------------------------------

  /** A village of the request with its geometry. */
  datatype GeoVillage<G> = GeoVillage(id: string, geometry: G)

  /** The dictionary of `geometry_single_year`: each geometry under "2011" and under the target year. */
  function GeometryOutput<G>(villages: seq<GeoVillage<G>>, target: int): map<string, map<string, G>>
    decreases |villages|
  {
    if villages == [] then map[]
    else
      var v := villages[|villages| - 1];
      GeometryOutput(villages[..|villages| - 1], target)[v.id := GeoEntry(v.geometry, target)]
  }

  /** The ids of villages with geometries. */
  function GeoIds<G>(villages: seq<GeoVillage<G>>): set<string> {
    set i | 0 <= i < |villages| :: villages[i].id
  }

  /** Every village id gets an entry. */
  lemma {:induction false} GeometryOutputKeys<G>(villages: seq<GeoVillage<G>>, target: int)
    ensures GeometryOutput(villages, target).Keys == GeoIds(villages)
    decreases |villages|
  {
    if villages != [] {
      var n := |villages| - 1;
      var init := villages[..n];
      GeometryOutputKeys(init, target);
      assert GeometryOutput(villages, target).Keys == GeometryOutput(init, target).Keys + {villages[n].id};
      forall id | id in GeoIds(villages) ensures id in GeoIds(init) + {villages[n].id} {
        var i :| 0 <= i < |villages| && villages[i].id == id;
        if i < n {
          assert init[i].id == id;
        }
      }
      forall id | id in GeoIds(init) + {villages[n].id} ensures id in GeoIds(villages) {
        if id != villages[n].id {
          var i :| 0 <= i < |init| && init[i].id == id;
          assert villages[i].id == id;
        }
      }
    }
  }

  /** No later village of the list has the id of village `i`. */
  predicate LastGeoWithId<G>(villages: seq<GeoVillage<G>>, i: int)
    requires 0 <= i < |villages|
  {
    forall j :: i < j < |villages| ==> villages[j].id != villages[i].id
  }

  /** The entry of one geometry: the geometry under "2011" and under the target year. */
  function GeoEntry<G>(geometry: G, target: int): map<string, G> {
    map[BaseKey := geometry][IntToString(target) := geometry]
  }

  /** Each id holds the entry of the last village with that id. */
  lemma {:induction false} GeometryOutputLast<G>(villages: seq<GeoVillage<G>>, target: int, i: nat)
    requires i < |villages| && LastGeoWithId(villages, i)
    ensures villages[i].id in GeometryOutput(villages, target)
    ensures GeometryOutput(villages, target)[villages[i].id] == GeoEntry(villages[i].geometry, target)
    decreases |villages|
  {
    var n := |villages| - 1;
    var init := villages[..n];
    var v := villages[n];
    assert GeometryOutput(villages, target) == GeometryOutput(init, target)[v.id := GeoEntry(v.geometry, target)];
    if i < n {
      assert villages[n].id != villages[i].id;
      assert init[i] == villages[i];
      assert LastGeoWithId(init, i);
      GeometryOutputLast(init, target, i);
    }
  }

  /**
   * The entry of an id has exactly the keys "2011" and the target year,
   * both holding the geometry of the last village with that id.
   */
  lemma GeometryOutputValues<G>(villages: seq<GeoVillage<G>>, target: int)
    ensures var out := GeometryOutput(villages, target);
      forall i :: 0 <= i < |villages| && LastGeoWithId(villages, i) ==>
        && villages[i].id in out
        && out[villages[i].id].Keys == {BaseKey, IntToString(target)}
        && out[villages[i].id][BaseKey] == villages[i].geometry
        && out[villages[i].id][IntToString(target)] == villages[i].geometry
  {
    forall i | 0 <= i < |villages| && LastGeoWithId(villages, i)
      ensures villages[i].id in GeometryOutput(villages, target)
      ensures GeometryOutput(villages, target)[villages[i].id] == GeoEntry(villages[i].geometry, target)
    {
      GeometryOutputLast(villages, target, i);
    }
  }

  /** `geometry_single_year(base_year, single_year, villages, subdistrict)`. */
  method GeometrySingleYear<G>(baseYear: int, singleYear: Option<int>, villages: seq<GeoVillage<G>>)
    returns (output: map<string, map<string, G>>)
    ensures singleYear.None? ==> output == map[]
    ensures singleYear.Some? ==> output == GeometryOutput(villages, singleYear.value)
  {
    output := map[];
    if singleYear.Some? {
      var targetYear := singleYear.value;
      for i := 0 to |villages|
        invariant output == GeometryOutput(villages[..i], targetYear)
      {
        var villageId, value := villages[i].id, villages[i].geometry;
        output := output[villageId := map[BaseKey := value][IntToString(targetYear) := value]];
        assert villages[..i + 1][..i] == villages[..i];
      }
      assert villages[..|villages|] == villages;
    }
  }
}
