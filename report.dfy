/** app/report/page.js: the printable monthly report of one car. It loads the car and its
    completed trips oldest first, pads the trip table with blank rows up to a fixed
    height, adds a totals row for the two fuel columns, ticks the car's fuel type among
    five printed options and prints the year in the Buddhist era. */
module Report {
  import opened Fleet
  import opened Query
  import opened Tally
  import opened Ordering
  import Dashboard

  // ---------------------------------------------------------------- loading

  /** `.eq('car_id', id)` as a row predicate. */
  function CarIs(id: CarId): TripLog -> bool
  {
    (l: TripLog) => l.carId == id
  }

  /** The trips the two `.eq` filters keep: those in the table that are completed and
      belong to car `id`. */
  lemma PickedRows(table: seq<TripLog>, id: CarId)
    ensures forall x :: x in Filter(Dashboard.CompletedLogs(table), CarIs(id)) <==>
      x in table && x.carId == id && x.isCompleted
  {
    var completed := Dashboard.CompletedLogs(table);
    assert forall x :: x in completed <==> x in table && x.isCompleted by {
      forall x | x in table && x.isCompleted ensures x in completed {
        var i :| 0 <= i < |table| && table[i] == x;
      }
    }
    var picked := Filter(completed, CarIs(id));
    forall x | x in completed && x.carId == id ensures x in picked {
      var i :| 0 <= i < |completed| && completed[i] == x;
    }
  }

  /** The rows of the report: the completed trips of car `id`, each as often as the table
      holds it, ordered by `created_at`, oldest first. */
  function ReportRows(table: seq<TripLog>, id: CarId): (rows: seq<TripLog>)
    ensures forall x :: x in rows <==> x in table && x.carId == id && x.isCompleted
    ensures forall i, j :: 0 <= i < j < |rows| ==> rows[i].createdAt <= rows[j].createdAt
    ensures multiset(rows) == multiset(Filter(Dashboard.CompletedLogs(table), CarIs(id)))
  {
    var picked := Filter(Dashboard.CompletedLogs(table), CarIs(id));
    var rows := SortBy(picked, CreatedAt);
    PickedRows(table, id);
    SortedPick(table, id, picked, rows);
    rows
  }

  /** Any ordering of the picked trips by `created_at` lists exactly this car's completed
      trips, oldest first. */
  lemma SortedPick(table: seq<TripLog>, id: CarId, picked: seq<TripLog>, rows: seq<TripLog>)
    requires forall x :: x in picked <==> x in table && x.carId == id && x.isCompleted
    requires multiset(rows) == multiset(picked)
    requires SortedBy(rows, CreatedAt)
    ensures forall x :: x in rows <==> x in table && x.carId == id && x.isCompleted
    ensures forall i, j :: 0 <= i < j < |rows| ==> rows[i].createdAt <= rows[j].createdAt
  {
    assert forall x :: x in rows <==> x in multiset(rows);
    assert forall x :: x in picked <==> x in multiset(picked);
    assert forall i, j :: 0 <= i < j < |rows| ==> CreatedAt(rows[i]) <= CreatedAt(rows[j]);
  }

  /** Trips with the same `created_at` appear in the report in table order. */
  lemma ReportTies(table: seq<TripLog>, id: CarId, t: int)
    ensures Ties(ReportRows(table, id), CreatedAt, t)
         == Ties(Filter(Dashboard.CompletedLogs(table), CarIs(id)), CreatedAt, t)
  {
    SortByStable(Filter(Dashboard.CompletedLogs(table), CarIs(id)), CreatedAt, t);
  }

  /** What the page holds after `fetchData`: nothing at all when there is no car id,
      otherwise the `.single()` car row (NULL unless exactly one car has that id) and the
      report rows. */
  datatype Loaded = NotLoaded | Loaded(car: Option<Car>, rows: seq<TripLog>)

  /** `fetchData` for the `car_id` query parameter, which is absent or a string. */
  function Fetch(carIdParam: Option<string>, cars: seq<Car>, table: seq<TripLog>): (r: Loaded)
    ensures r.NotLoaded? <==> carIdParam.None? || carIdParam.value == ""
    ensures r.Loaded? ==> r.car == SingleCar(cars, carIdParam.value)
    ensures r.Loaded? ==> r.rows == ReportRows(table, carIdParam.value)
    ensures r.Loaded? && r.car.Some? ==> r.car.value.id == carIdParam.value
  {
    if carIdParam.None? || carIdParam.value == "" then NotLoaded
    else Loaded(SingleCar(cars, carIdParam.value), ReportRows(table, carIdParam.value))
  }

  // ---------------------------------------------------------------- the trip table

  /** The fixed height of the trip table. */
  const MinRows := 11

  /** `Math.max(0, 11 - logs.length)`: blank rows appended after the trips. */
  function FillerRows(n: nat): (r: nat)
    ensures n + r >= MinRows
    ensures r == 0 || n + r == MinRows
    ensures n <= MinRows ==> n + r == MinRows
    ensures n >= MinRows ==> r == 0
  {
    if n < MinRows then MinRows - n else 0
  }

  /** A trip table always has at least eleven rows, and exactly as many rows as trips
      once there are more than eleven trips. */
  lemma TableHeight(rows: seq<TripLog>)
    ensures |rows| + FillerRows(|rows|) == if |rows| < MinRows then MinRows else |rows|
  {
  }

  /** `logs.reduce((a, b) => a + (Number(b.fuel_liters) || 0), 0)`. */
  function TotalLiters(rows: seq<TripLog>): int
  {
    Sum(rows, Liters)
  }

  /** `logs.reduce((a, b) => a + (Number(b.fuel_cost) || 0), 0)`. */
  function TotalCost(rows: seq<TripLog>): int
  {
    Sum(rows, Cost)
  }

  /** The totals row of a table is the totals row of its first part plus that of the
      rest: each trip contributes its own amount once. */
  lemma TotalsSplit(a: seq<TripLog>, b: seq<TripLog>)
    ensures TotalLiters(a + b) == TotalLiters(a) + TotalLiters(b)
    ensures TotalCost(a + b) == TotalCost(a) + TotalCost(b)
  {
    SumAppend(a, b, Liters);
    SumAppend(a, b, Cost);
  }

  /** A trip without a litre figure adds nothing to the litre total, and one without a
      cost adds nothing to the cost total. */
  lemma {:induction false} TotalsSkipMissing(rows: seq<TripLog>)
    ensures (forall i :: 0 <= i < |rows| ==> rows[i].fuelLiters.None?) ==> TotalLiters(rows) == 0
    ensures (forall i :: 0 <= i < |rows| ==> rows[i].fuelCost.None?) ==> TotalCost(rows) == 0
    decreases |rows|
  {
    if |rows| > 0 {
      var init := rows[..|rows| - 1];
      assert forall i :: 0 <= i < |init| ==> init[i] == rows[i];
      TotalsSkipMissing(init);
    }
  }

  /** Picking one car's trips and adding a column gives that car's bucket of the column. */
  lemma {:induction false} CarFilterSum(xs: seq<TripLog>, w: TripLog -> int, id: CarId)
    ensures Sum(Filter(xs, CarIs(id)), w) == SumWhere(xs, LogCarId, w, id)
    decreases |xs|
  {
    if |xs| > 0 {
      var init := xs[..|xs| - 1];
      var last := xs[|xs| - 1];
      CarFilterSum(init, w, id);
      var rest := Filter(init, CarIs(id));
      if CarIs(id)(last) {
        assert (rest + [last])[..|rest|] == rest;
      }
    }
  }

  /** The report of a car and its row in the dashboard's per-car table agree: as many
      trips, the same distance and the same fuel cost. */
  lemma ReportMatchesDashboard(table: seq<TripLog>, c: Car)
    ensures var rows := ReportRows(table, c.id);
      var row := Dashboard.Row(c, Dashboard.CompletedLogs(table));
      && |rows| == row.trips
      && Sum(rows, Distance) == row.distance
      && TotalCost(rows) == row.cost
  {
    var completed := Dashboard.CompletedLogs(table);
    var picked := Filter(completed, CarIs(c.id));
    SortSum(picked, CreatedAt, One);
    SortSum(picked, CreatedAt, Distance);
    SortSum(picked, CreatedAt, Cost);
    CarFilterSum(completed, One, c.id);
    CarFilterSum(completed, Distance, c.id);
    CarFilterSum(completed, Cost, c.id);
    SumOne(SortBy(picked, CreatedAt));
  }

  // ---------------------------------------------------------------- header

  /** The fuel types printed as check boxes, in print order. */
  const FuelOptions: seq<string> := ["แก๊สโซฮอล์ 95", "แก๊สโซฮอล์ 91", "แก๊สโซฮอล์ E20", "แก๊สโซฮอล์ E85", "ดีเซล"]

  /** `car?.fuel_type === f` for each printed option: the ticks, in print order. Before
      the car has loaded no box is ticked. */
  function FuelChecks(car: Option<Car>): (r: seq<bool>)
    ensures |r| == |FuelOptions|
    ensures forall i :: 0 <= i < |r| ==> (r[i] <==> car.Some? && car.value.fuelType == FuelOptions[i])
    ensures forall i, j :: 0 <= i < j < |r| && r[i] ==> !r[j]
    ensures (exists i :: 0 <= i < |r| && r[i]) <==> car.Some? && car.value.fuelType in FuelOptions
    ensures car.None? ==> forall i :: 0 <= i < |r| ==> !r[i]
  {
    var r := seq(|FuelOptions|, i requires 0 <= i < |FuelOptions| => car.Some? && car.value.fuelType == FuelOptions[i]);
    assert forall i, j :: 0 <= i < j < |FuelOptions| ==> FuelOptions[i] != FuelOptions[j] by {
      assert FuelOptions[0][|FuelOptions[0]| - 2] == '9' && FuelOptions[1][|FuelOptions[1]| - 2] == '9';
      assert FuelOptions[0][|FuelOptions[0]| - 1] == '5' && FuelOptions[1][|FuelOptions[1]| - 1] == '1';
      assert FuelOptions[2][|FuelOptions[2]| - 1] == '0' && FuelOptions[3][|FuelOptions[3]| - 1] == '5';
      assert |FuelOptions[4]| < |FuelOptions[0]| == |FuelOptions[1]| < |FuelOptions[2]| == |FuelOptions[3]|;
    }
    assert car.Some? && car.value.fuelType in FuelOptions ==> exists k :: 0 <= k < |r| && r[k] by {
      if car.Some? && car.value.fuelType in FuelOptions {
        var k :| 0 <= k < |FuelOptions| && FuelOptions[k] == car.value.fuelType;
        assert r[k];
      }
    }
    r
  }

  /** `new Date().getFullYear() + 543`: the Buddhist-era year of a Gregorian year. */
  function BuddhistYear(gregorian: int): (be: int)
    ensures be - 543 == gregorian
  {
    gregorian + 543
  }
}
