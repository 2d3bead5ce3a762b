/**
 * The location endpoints of backend/Basic/views.py: states, the districts
 * of a state, the subdistricts of some districts and the villages of some
 * subdistricts, each answered sorted by name with Python's stable
 * `sorted`.  The database query is reduced to filtering rows by the code
 * of the unit that contains them.
 */
module Locations {
  import opened Text

  /** A serialized row, reduced to its code, its name and the code of the unit containing it. */
  datatype Location = Location(code: string, name: string, parentCode: string)

  predicate SortedByName(rows: seq<Location>) {
    forall i, j :: 0 <= i < j < |rows| ==> LexLessEq(rows[i].name, rows[j].name)
  }

  /** Places a row after every leading row whose name is not greater than its own. */
  function Insert(x: Location, rows: seq<Location>): seq<Location> {
    if rows == [] then [x]
    else if LexLessEq(rows[0].name, x.name) then [rows[0]] + Insert(x, rows[1..])
    else [x] + rows
  }

  /** `sorted(rows, key=lambda x: x['…_name'])`, as an insertion sort. */
  function SortByName(rows: seq<Location>): seq<Location>
    decreases |rows|
  {
    if rows == [] then [] else Insert(rows[|rows| - 1], SortByName(rows[..|rows| - 1]))
  }

  /** The rows with a given name, in order. */
  function WithName(rows: seq<Location>, name: string): seq<Location> {
    if rows == [] then []
    else (if rows[0].name == name then [rows[0]] else []) + WithName(rows[1..], name)
  }

  lemma {:induction false} WithNameAppend(a: seq<Location>, b: seq<Location>, name: string)
    ensures WithName(a + b, name) == WithName(a, name) + WithName(b, name)
    decreases |a|
  {
    if a == [] {
      assert a + b == b;
    } else {
      WithNameAppend(a[1..], b, name);
      assert (a + b)[0] == a[0];
      assert (a + b)[1..] == a[1..] + b;
    }
  }

  lemma {:induction false} WithNameNone(rows: seq<Location>, name: string)
    requires forall i :: 0 <= i < |rows| ==> rows[i].name != name
    ensures WithName(rows, name) == []
    decreases |rows|
  {
    if rows != [] {
      WithNameNone(rows[1..], name);
    }
  }

  lemma {:induction false} InsertPermutes(x: Location, rows: seq<Location>)
    ensures multiset(Insert(x, rows)) == multiset(rows) + multiset{x}
    decreases |rows|
  {
    if rows != [] {
      InsertPermutes(x, rows[1..]);
      assert rows == [rows[0]] + rows[1..];
    }
  }

  lemma {:induction false} InsertSorted(x: Location, rows: seq<Location>)
    requires SortedByName(rows)
    ensures SortedByName(Insert(x, rows))
    decreases |rows|
  {
    if rows != [] {
      if LexLessEq(rows[0].name, x.name) {
        var rest := Insert(x, rows[1..]);
        InsertSorted(x, rows[1..]);
        InsertPermutes(x, rows[1..]);
        forall j | 0 <= j < |rest|
          ensures LexLessEq(rows[0].name, rest[j].name)
        {
          assert rest[j] in multiset(rows[1..]) + multiset{x};
          if rest[j] != x {
            assert rest[j] in rows[1..];
          }
        }
      } else {
        LexLessEqTotal(rows[0].name, x.name);
        forall j | 0 <= j < |rows|
          ensures LexLessEq(x.name, rows[j].name)
        {
          if j > 0 {
            LexLessEqTransitive(x.name, rows[0].name, rows[j].name);
          }
        }
      }
    }
  }

  /** Inserting into sorted rows puts the new row after the rows of the same name. */
  lemma {:induction false} InsertStable(x: Location, rows: seq<Location>, name: string)
    requires SortedByName(rows)
    ensures WithName(Insert(x, rows), name) == WithName(rows, name) + WithName([x], name)
    decreases |rows|
  {
    if rows == [] {
    } else if LexLessEq(rows[0].name, x.name) {
      assert SortedByName(rows[1..]);
      InsertStable(x, rows[1..], name);
      assert Insert(x, rows) == [rows[0]] + Insert(x, rows[1..]);
      WithNameAppend([rows[0]], Insert(x, rows[1..]), name);
      WithNameAppend([rows[0]], rows[1..], name);
      assert [rows[0]] + rows[1..] == rows;
    } else {
      assert Insert(x, rows) == [x] + rows;
      WithNameAppend([x], rows, name);
      if x.name == name {
        InsertBeforeGreater(x, rows);
        WithNameNone(rows, name);
      }
    }
  }

  /** When sorted rows start with a greater name, none of them has the inserted row's name. */
  lemma InsertBeforeGreater(x: Location, rows: seq<Location>)
    requires SortedByName(rows) && rows != [] && !LexLessEq(rows[0].name, x.name)
    ensures forall i :: 0 <= i < |rows| ==> rows[i].name != x.name
  {
    LexLessEqTotal(x.name, x.name);
    forall i | 0 < i < |rows|
      ensures LexLessEq(rows[0].name, rows[i].name)
    {
    }
  }

  /**
   * The sort is Python's: the result is ordered by name, a permutation of
   * the input, and rows of equal name keep their relative order.
   */
  lemma {:induction false} SortByNameCorrect(rows: seq<Location>)
    ensures SortedByName(SortByName(rows))
    ensures multiset(SortByName(rows)) == multiset(rows)
    ensures forall name :: WithName(SortByName(rows), name) == WithName(rows, name)
    decreases |rows|
  {
    if rows != [] {
      var n := |rows| - 1;
      var sorted := SortByName(rows[..n]);
      SortByNameCorrect(rows[..n]);
      InsertSorted(rows[n], sorted);
      InsertPermutes(rows[n], sorted);
      assert rows == rows[..n] + [rows[n]];
      forall name
        ensures WithName(SortByName(rows), name) == WithName(rows, name)
      {
        InsertStable(rows[n], sorted, name);
        WithNameAppend(rows[..n], [rows[n]], name);
      }
    }
  }

  /** The rows whose containing unit is one of `codes` (`filter(…_code__in=codes)`), in order. */
  function Within(rows: seq<Location>, codes: set<string>): (r: seq<Location>)
    ensures forall i :: 0 <= i < |r| ==> r[i].parentCode in codes
    ensures forall x :: x in rows && x.parentCode in codes ==> multiset(r)[x] == multiset(rows)[x]
    ensures forall x :: x !in rows || x.parentCode !in codes ==> x !in r
    decreases |rows|
  {
    if rows == [] then []
    else
      var rest := Within(rows[1..], codes);
      assert rows == [rows[0]] + rows[1..];
      if rows[0].parentCode in codes then [rows[0]] + rest else rest
  }

  /** `Locations_stateAPI.get`: all states, sorted by name. */
  function StatesResponse(states: seq<Location>): (r: seq<Location>)
    ensures SortedByName(r) && multiset(r) == multiset(states)
    ensures forall name :: WithName(r, name) == WithName(states, name)
  {
    SortByNameCorrect(states);
    SortByName(states)
  }

  /**
   * The `post` of `Locations_districtAPI`, `Locations_subdistrictAPI` and
   * `Locations_villageAPI`: the rows inside the given units (the one state
   * of a district request, the districts of a subdistrict request, the
   * subdistricts of a village request), sorted by name.
   */
  function ChildrenResponse(rows: seq<Location>, parentCodes: set<string>): (r: seq<Location>)
    ensures SortedByName(r) && multiset(r) == multiset(Within(rows, parentCodes))
    ensures forall name :: WithName(r, name) == WithName(Within(rows, parentCodes), name)
    ensures forall i :: 0 <= i < |r| ==> r[i].parentCode in parentCodes
  {
    var selected := Within(rows, parentCodes);
    SortByNameCorrect(selected);
    var r := SortByName(selected);
    assert forall i :: 0 <= i < |r| ==> r[i] in multiset(selected);
    r
  }
}
