/** What the row store's query builder returns, modelled on sequences of rows:
    `.eq(...)` filters (keeping table order), `.single()` yields the row only when
    exactly one row matched, `.limit(1).single()` yields the first matching row. */
module Query {
  import opened Fleet

  /** The rows of `xs` that satisfy `p`, in table order. */
  function Filter<T>(xs: seq<T>, p: T -> bool): (r: seq<T>)
    ensures |r| <= |xs|
    ensures forall i :: 0 <= i < |r| ==> r[i] in xs && p(r[i])
    ensures forall i :: 0 <= i < |xs| && p(xs[i]) ==> xs[i] in r
    ensures (forall i :: 0 <= i < |xs| ==> !p(xs[i])) ==> r == []
    decreases |xs|
  {
    if |xs| == 0 then []
    else
      var rest := Filter(xs[..|xs| - 1], p);
      assert forall i :: 0 <= i < |xs| - 1 ==> xs[..|xs| - 1][i] == xs[i];
      if p(xs[|xs| - 1]) then rest + [xs[|xs| - 1]] else rest
  }

  /** The filter keeps no row more often than it occurs, and a row that matches exactly
      as often as it occurs. */
  lemma {:induction false} FilterCounts<T>(xs: seq<T>, p: T -> bool)
    ensures multiset(Filter(xs, p)) <= multiset(xs)
    ensures forall i :: 0 <= i < |xs| && p(xs[i]) ==> multiset(Filter(xs, p))[xs[i]] == multiset(xs)[xs[i]]
    decreases |xs|
  {
    if |xs| > 0 {
      var init, last := xs[..|xs| - 1], xs[|xs| - 1];
      FilterCounts(init, p);
      assert xs == init + [last];
      var rest := Filter(init, p);
      forall i | 0 <= i < |xs| && p(xs[i])
        ensures multiset(Filter(xs, p))[xs[i]] == multiset(xs)[xs[i]]
      {
        var x := xs[i];
        if x in init {
          var j :| 0 <= j < |init| && init[j] == x;
          assert multiset(rest)[x] == multiset(init)[x];
        } else {
          assert multiset(init)[x] == 0;
          assert x !in rest;
        }
      }
    }
  }

  /** Filtering a concatenation filters each part: the rows kept stay in table order. */
  lemma {:induction false} FilterAppend<T>(xs: seq<T>, ys: seq<T>, p: T -> bool)
    ensures Filter(xs + ys, p) == Filter(xs, p) + Filter(ys, p)
    decreases |ys|
  {
    if |ys| == 0 {
      assert xs + ys == xs;
    } else {
      var init := ys[..|ys| - 1];
      assert (xs + ys)[..|xs + ys| - 1] == xs + init;
      FilterAppend(xs, init, p);
    }
  }

  /** A single row is kept exactly when it matches. */
  lemma FilterOne<T>(x: T, p: T -> bool)
    ensures Filter([x], p) == if p(x) then [x] else []
  {
    assert [x][..0] == [];
  }

  /** `.single()`: the row when exactly one row matched, NULL otherwise. */
  function Single<T>(rows: seq<T>): Option<T>
  {
    if |rows| == 1 then Some(rows[0]) else None
  }

  /** `.limit(1).single()`: the first row, NULL when nothing matched. */
  function First<T>(rows: seq<T>): Option<T>
  {
    if |rows| == 0 then None else Some(rows[0])
  }

  /** When at most one row satisfies `p`, the filter keeps at most one row. */
  lemma {:induction false} FilterAtMostOne<T>(xs: seq<T>, p: T -> bool)
    requires forall i, j :: 0 <= i < j < |xs| && p(xs[i]) ==> !p(xs[j])
    ensures |Filter(xs, p)| <= 1
    decreases |xs|
  {
    if |xs| > 0 {
      var init := xs[..|xs| - 1];
      assert forall i, j :: 0 <= i < j < |init| && p(init[i]) ==> !p(init[j]) by {
        forall i, j | 0 <= i < j < |init| && p(init[i]) ensures !p(init[j]) {
          assert init[i] == xs[i] && init[j] == xs[j];
        }
      }
      FilterAtMostOne(init, p);
      if p(xs[|xs| - 1]) {
        forall i | 0 <= i < |init| ensures !p(init[i]) {
          assert init[i] == xs[i];
        }
      }
    }
  }

  /** `.eq('id', id)` as a row predicate. */
  function HasId(id: CarId): Car -> bool
  {
    (c: Car) => c.id == id
  }

  /** `.from('cars').select('*').eq('id', id).single()`. */
  function SingleCar(cars: seq<Car>, id: CarId): (r: Option<Car>)
    ensures r.Some? ==> r.value in cars && r.value.id == id
    ensures r.Some? <==> |Filter(cars, HasId(id))| == 1
    ensures (forall c :: c in cars ==> c.id != id) ==> r.None?
    ensures UniqueCarIds(cars) && (exists c :: c in cars && c.id == id) ==> r.Some?
    ensures UniqueCarIds(cars) ==> forall i :: 0 <= i < |cars| && cars[i].id == id ==> r == Some(cars[i])
  {
    var rows := Filter(cars, HasId(id));
    assert rows != [] ==> rows[0] in rows;
    assert UniqueCarIds(cars) ==> forall i :: 0 <= i < |cars| && cars[i].id == id ==> rows == [cars[i]] by {
      if UniqueCarIds(cars) {
        FilterAtMostOne(cars, HasId(id));
        forall i | 0 <= i < |cars| && cars[i].id == id ensures rows == [cars[i]] {
          assert cars[i] in rows;
          assert rows[0] == cars[i];
        }
      }
    }
    Single(rows)
  }

  /** `.eq('staff_code', code)` as a row predicate. */
  function HasCode(code: string): StaffRecord -> bool
  {
    (s: StaffRecord) => s.staffCode == code
  }

  /** At most one staff row carries `code`. */
  predicate CodeAtMostOnce(staff: seq<StaffRecord>, code: string)
  {
    forall i, j :: 0 <= i < j < |staff| && staff[i].staffCode == code ==> staff[j].staffCode != code
  }

  /** `.from('staff').select('full_name, position').eq('staff_code', code).single()`:
      the row when exactly one row has the code. */
  function SingleStaff(staff: seq<StaffRecord>, code: string): (r: Option<StaffRecord>)
    ensures r.Some? ==> r.value in staff && r.value.staffCode == code
    ensures r.Some? <==> |Filter(staff, HasCode(code))| == 1
    ensures (forall s :: s in staff ==> s.staffCode != code) ==> r.None?
    ensures CodeAtMostOnce(staff, code) ==> forall s :: s in staff && s.staffCode == code ==> r == Some(s)
  {
    var rows := Filter(staff, HasCode(code));
    assert rows != [] ==> rows[0] in rows;
    assert CodeAtMostOnce(staff, code) ==> forall s :: s in staff && s.staffCode == code ==> rows == [s] by {
      if CodeAtMostOnce(staff, code) {
        FilterAtMostOne(staff, HasCode(code));
        forall s | s in staff && s.staffCode == code ensures rows == [s] {
          assert s in rows;
          assert rows[0] == s;
        }
      }
    }
    Single(rows)
  }
}
