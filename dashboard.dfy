/** app/dashboard/page.js: the aggregation inside `fetchData`. It takes the completed
    trips and the cars and computes the headline figures, the seven-day trend, the
    per-type tally, the morning/afternoon split, the location and driver rankings,
    the per-car table, and the six most recent trips. */
module Dashboard {
  import opened Fleet
  import opened Query
  import opened Tally
  import opened Ordering

  /** `.from('trip_logs').select(...).eq('is_completed', true)`. */
  function CompletedLogs(table: seq<TripLog>): seq<TripLog>
  {
    Filter(table, (l: TripLog) => l.isCompleted)
  }

  // ---------------------------------------------------------------- headline figures

  datatype Stats = Stats(
    totalTrips: nat,
    activeCars: nat,
    availableCars: nat,
    totalCars: nat,
    totalFuelCost: int,
    totalDistance: int,
    avgCostPerKm: real)

  predicate IsBusy(c: Car)
  {
    c.status == Busy
  }

  function BusyWeight(c: Car): int
  {
    if c.status == Busy then 1 else 0
  }

  /** `cars.filter(c => c.status === 'busy').length` counts the busy cars. */
  lemma {:induction false} BusyCount(cars: seq<Car>)
    ensures |Filter(cars, IsBusy)| == Sum(cars, BusyWeight)
    decreases |cars|
  {
    if |cars| > 0 {
      BusyCount(cars[..|cars| - 1]);
    }
  }

  /** When every car is busy, every car is counted. */
  lemma {:induction false} AllBusyCount(cars: seq<Car>)
    requires forall i :: 0 <= i < |cars| ==> cars[i].status == Busy
    ensures Sum(cars, BusyWeight) == |cars|
    decreases |cars|
  {
    if |cars| > 0 {
      var init := cars[..|cars| - 1];
      assert forall i :: 0 <= i < |init| ==> init[i] == cars[i];
      AllBusyCount(init);
    }
  }

  /** When no car is busy, none is counted. */
  lemma {:induction false} NoneBusyCount(cars: seq<Car>)
    requires forall i :: 0 <= i < |cars| ==> cars[i].status == Available
    ensures Sum(cars, BusyWeight) == 0
    decreases |cars|
  {
    if |cars| > 0 {
      var init := cars[..|cars| - 1];
      assert forall i :: 0 <= i < |init| ==> init[i] == cars[i];
      NoneBusyCount(init);
    }
  }

  /** `cars.filter(c => c.status === 'busy').length`. */
  function BusyCars(cars: seq<Car>): (n: nat)
    ensures n == Sum(cars, BusyWeight) <= |cars|
    ensures (forall i :: 0 <= i < |cars| ==> cars[i].status == Busy) ==> n == |cars|
    ensures (forall i :: 0 <= i < |cars| ==> cars[i].status == Available) ==> n == 0
  {
    var n := |Filter(cars, IsBusy)|;
    assert n == Sum(cars, BusyWeight) by {
      BusyCount(cars);
    }
    assert (forall i :: 0 <= i < |cars| ==> cars[i].status == Busy) ==> n == |cars| by {
      if forall i :: 0 <= i < |cars| ==> cars[i].status == Busy {
        AllBusyCount(cars);
      }
    }
    assert (forall i :: 0 <= i < |cars| ==> cars[i].status == Available) ==> n == 0 by {
      if forall i :: 0 <= i < |cars| ==> cars[i].status == Available {
        NoneBusyCount(cars);
      }
    }
    n
  }

  /** `totalDist > 0 ? (totalCost / totalDist) : 0`, as an exact ratio; the source
      computes it in floating point. */
  function CostPerKm(totalCost: int, totalDist: int): (avg: real)
    ensures totalDist > 0 ==> avg * totalDist as real == totalCost as real
    ensures totalDist <= 0 ==> avg == 0.0
  {
    if totalDist > 0 then totalCost as real / totalDist as real else 0.0
  }

  /** The headline figures. */
  function Summarize(logs: seq<TripLog>, cars: seq<Car>): (s: Stats)
    ensures s.totalTrips == |logs| && s.totalCars == |cars|
    ensures s.activeCars == Sum(cars, BusyWeight)
    ensures s.activeCars + s.availableCars == s.totalCars
    ensures (forall i :: 0 <= i < |cars| ==> cars[i].status == Available) ==> s.activeCars == 0
    ensures (forall i :: 0 <= i < |cars| ==> cars[i].status == Busy) ==> s.availableCars == 0
    ensures s.totalDistance == Sum(logs, Distance)
    ensures s.totalFuelCost == Sum(logs, Cost)
    ensures s.avgCostPerKm == CostPerKm(s.totalFuelCost, s.totalDistance)
  {
    var totalDist := Sum(logs, Distance);
    var totalCost := Sum(logs, Cost);
    var busy := BusyCars(cars);
    Stats(|logs|, busy, |cars| - busy, |cars|, totalCost, totalDist, CostPerKm(totalCost, totalDist))
  }

  // ---------------------------------------------------------------- seven-day trend

  datatype TrendPoint = TrendPoint(day: int, count: int)

  function PointCount(p: TrendPoint): int
  {
    p.count
  }

  /** The UTC day a trip was created on. */
  function LogDay(l: TripLog): int
  {
    UtcDay(l.createdAt)
  }

  /** `last7Days`: the six days before `today` and `today`, oldest first. */
  function Last7Days(today: int): (ds: seq<int>)
    ensures |ds| == 7 && Distinct(ds)
    ensures forall j :: 0 <= j < 7 ==> ds[j] == today - 6 + j
  {
    seq(7, j => today - 6 + j)
  }

  /** `trendMap`: seven buckets that start at 0; a trip counts only in the bucket of its
      own day, and only if that day is one of the seven. */
  method DailyTrend(logs: seq<TripLog>, now: nat) returns (trend: seq<TrendPoint>)
    ensures |trend| == 7
    ensures forall j :: 0 <= j < 7 ==> trend[j].day == UtcDay(now) - 6 + j
    ensures forall j :: 0 <= j < 7 ==> trend[j].count == SumWhere(logs, LogDay, One, trend[j].day)
    ensures 0 <= Sum(trend, PointCount) <= |logs|
    ensures (forall i :: 0 <= i < |logs| ==> UtcDay(now) - 6 <= LogDay(logs[i]) <= UtcDay(now))
      ==> Sum(trend, PointCount) == |logs|
  {
    var today := UtcDay(now);
    var days := Last7Days(today);
    var m: map<int, int> := map[];
    var j := 0;
    while j < 7
      invariant 0 <= j <= 7
      invariant forall d :: d in m <==> d in days[..j]
      invariant forall d :: d in m ==> m[d] == 0
    {
      assert days[..j + 1] == days[..j] + [days[j]];
      m := m[days[j] := 0];
      j := j + 1;
    }
    assert days[..7] == days;
    var k := 0;
    while k < |logs|
      invariant 0 <= k <= |logs|
      invariant forall d :: d in m <==> d in days
      invariant forall d :: d in m ==> m[d] == SumWhere(logs[..k], LogDay, One, d)
    {
      assert logs[..k + 1][..k] == logs[..k];
      var d := LogDay(logs[k]);
      if d in m {
        m := m[d := m[d] + 1];
      }
      k := k + 1;
    }
    assert logs[..|logs|] == logs;
    trend := seq(7, j requires 0 <= j < 7 => TrendPoint(days[j], m[days[j]]));
    TrendTotal(trend, logs, today);
  }

  /** The seven daily counts add up to at most the number of trips, and to all of them
      when every trip falls within the week. */
  lemma TrendTotal(trend: seq<TrendPoint>, logs: seq<TripLog>, today: int)
    requires |trend| == 7
    requires forall j :: 0 <= j < 7 ==> trend[j].day == today - 6 + j
    requires forall j :: 0 <= j < 7 ==> trend[j].count == SumWhere(logs, LogDay, One, trend[j].day)
    ensures 0 <= Sum(trend, PointCount) <= |logs|
    ensures (forall i :: 0 <= i < |logs| ==> today - 6 <= LogDay(logs[i]) <= today)
      ==> Sum(trend, PointCount) == |logs|
  {
    var days := Last7Days(today);
    SumEntries(trend, PointCount, days, logs, LogDay, One);
    BucketsAtMost(days, logs, LogDay, One);
    SumOne(logs);
    if forall i :: 0 <= i < |logs| ==> today - 6 <= LogDay(logs[i]) <= today {
      forall i | 0 <= i < |logs| ensures LogDay(logs[i]) in days {
        assert days[LogDay(logs[i]) - (today - 6)] == LogDay(logs[i]);
      }
      Conservation(days, logs, LogDay, One);
    }
  }

  // ---------------------------------------------------------------- vehicle types

  datatype TypeStat = TypeStat(name: string, total: int, active: int)

  function TypeTotal(t: TypeStat): int
  {
    t.total
  }

  function TypeActive(t: TypeStat): int
  {
    t.active
  }

  const DefaultType: string := "ทั่วไป"

  /** `c.car_type || 'ทั่วไป'`. */
  function CarType(c: Car): string
  {
    if c.carType == "" then DefaultType else c.carType
  }

  /** The entry of type `t` counted over `cars`. */
  function TypeEntry(cars: seq<Car>, t: string): TypeStat
  {
    TypeStat(t, SumWhere(cars, CarType, One, t), SumWhere(cars, CarType, BusyWeight, t))
  }

  /** `Object.entries(typeMap)`: one entry per type, in order of first appearance. */
  function TypeTable(cars: seq<Car>): seq<TypeStat>
  {
    var ks := KeysInOrder(cars, CarType);
    seq(|ks|, j requires 0 <= j < |ks| => TypeEntry(cars, ks[j]))
  }

  /** Every car falls under exactly one type: the type totals add up to the number of
      cars, the busy counts to the number of busy cars, and no type has more busy cars
      than cars. */
  lemma TypeTableTotals(cars: seq<Car>)
    ensures Sum(TypeTable(cars), TypeTotal) == |cars|
    ensures Sum(TypeTable(cars), TypeActive) == Sum(cars, BusyWeight)
    ensures forall j :: 0 <= j < |TypeTable(cars)| ==> 0 <= TypeTable(cars)[j].active <= TypeTable(cars)[j].total
  {
    var types := TypeTable(cars);
    var ks := KeysInOrder(cars, CarType);
    forall j | 0 <= j < |types| ensures 0 <= types[j].active <= types[j].total {
      SumWhereMono(cars, CarType, BusyWeight, One, ks[j]);
    }
    SumEntries(types, TypeTotal, ks, cars, CarType, One);
    Conservation(ks, cars, CarType, One);
    SumOne(cars);
    SumEntries(types, TypeActive, ks, cars, CarType, BusyWeight);
    Conservation(ks, cars, CarType, BusyWeight);
  }

  /** The body of the `forEach` over the cars: the entry of the car's type is created at
      0 if missing, its total goes up by one and, for a busy car, its active count too. */
  function AddType(m: map<string, TypeStat>, c: Car): map<string, TypeStat>
  {
    var t := CarType(c);
    var e := if t in m then m[t] else TypeStat(t, 0, 0);
    m[t := e.(total := e.total + 1, active := if c.status == Busy then e.active + 1 else e.active)]
  }

  /** `typeMap` after the `forEach` has visited the cars `xs`. */
  function TypeMapOf(xs: seq<Car>): map<string, TypeStat>
    decreases |xs|
  {
    if |xs| == 0 then map[] else AddType(TypeMapOf(xs[..|xs| - 1]), xs[|xs| - 1])
  }

  lemma AddTypeEntries(cars: seq<Car>, k: nat, m: map<string, TypeStat>)
    requires k < |cars| && forall t :: t in m ==> m[t] == TypeEntry(cars[..k], t)
    requires CarType(cars[k]) !in m ==> forall i :: 0 <= i < k ==> CarType(cars[..k][i]) != CarType(cars[k])
    ensures forall t :: t in AddType(m, cars[k]) ==> AddType(m, cars[k])[t] == TypeEntry(cars[..k + 1], t)
  {
    SumWhereNext(cars, k, CarType, One);
    SumWhereNext(cars, k, CarType, BusyWeight);
    var t := CarType(cars[k]);
    if t !in m {
      SumWhereAbsent(cars[..k], CarType, One, t);
      SumWhereAbsent(cars[..k], CarType, BusyWeight, t);
    }
  }

  /** `typeMap` has a key for every type seen, and each entry counts the cars of its
      type and the busy ones among them. */
  lemma {:induction false} TypeMapMeaning(cars: seq<Car>)
    ensures forall t :: t in TypeMapOf(cars) <==> t in KeysInOrder(cars, CarType)
    ensures forall t :: t in TypeMapOf(cars) ==> TypeMapOf(cars)[t] == TypeEntry(cars, t)
    decreases |cars|
  {
    if |cars| > 0 {
      var k := |cars| - 1;
      TypeMapMeaning(cars[..k]);
      assert cars[..k + 1] == cars;
      KeysInOrderNext(cars, k, CarType);
      AddTypeEntries(cars, k, TypeMapOf(cars[..k]));
    }
  }

  /** `typeMap`, filled by a pass over the cars, then `Object.entries` in key order. */
  method TallyTypes(cars: seq<Car>) returns (types: seq<TypeStat>)
    ensures types == TypeTable(cars)
  {
    var m: map<string, TypeStat> := map[];
    var k := 0;
    while k < |cars|
      invariant 0 <= k <= |cars|
      invariant m == TypeMapOf(cars[..k])
    {
      assert cars[..k + 1][..k] == cars[..k];
      m := AddType(m, cars[k]);
      k := k + 1;
    }
    assert cars[..|cars|] == cars;
    types := TypeValues(cars, m);
  }

  /** `Object.values(typeMap)`, in key order. */
  method TypeValues(cars: seq<Car>, m: map<string, TypeStat>) returns (types: seq<TypeStat>)
    requires m == TypeMapOf(cars)
    ensures types == TypeTable(cars)
  {
    var order := KeysInOrder(cars, CarType);
    assert forall j :: 0 <= j < |order| ==> order[j] in m && m[order[j]] == TypeEntry(cars, order[j]) by {
      TypeMapMeaning(cars);
    }
    types := seq(|order|, j requires 0 <= j < |order| => m[order[j]]);
  }

  // ---------------------------------------------------------------- time of day

  /** 1 for a trip created before noon local time. */
  function MorningWeight(tzOffset: int): TripLog -> int
  {
    (l: TripLog) => if LocalHour(l.createdAt, tzOffset) < 12 then 1 else 0
  }

  /** 1 for a trip created at or after noon local time. */
  function AfternoonWeight(tzOffset: int): TripLog -> int
  {
    (l: TripLog) => if LocalHour(l.createdAt, tzOffset) < 12 then 0 else 1
  }

  /** `morning` / `afternoon`: every trip is counted in exactly one of the two. */
  method SplitByHour(logs: seq<TripLog>, tzOffset: int) returns (morning: int, afternoon: int)
    ensures morning == Sum(logs, MorningWeight(tzOffset))
    ensures afternoon == Sum(logs, AfternoonWeight(tzOffset))
    ensures morning + afternoon == |logs|
    ensures 0 <= morning && 0 <= afternoon
  {
    morning, afternoon := 0, 0;
    var k := 0;
    while k < |logs|
      invariant 0 <= k <= |logs|
      invariant morning == Sum(logs[..k], MorningWeight(tzOffset))
      invariant afternoon == Sum(logs[..k], AfternoonWeight(tzOffset))
      invariant morning + afternoon == k
      invariant 0 <= morning && 0 <= afternoon
    {
      assert logs[..k + 1][..k] == logs[..k];
      var hour := LocalHour(logs[k].createdAt, tzOffset);
      if hour < 12 {
        morning := morning + 1;
      } else {
        afternoon := afternoon + 1;
      }
      k := k + 1;
    }
    assert logs[..|logs|] == logs;
  }

  // ---------------------------------------------------------------- locations and drivers

  datatype LocationStat = LocationStat(name: string, count: int)

  datatype DriverStat = DriverStat(name: string, trips: int, distance: int)

  function LocationCount(s: LocationStat): int
  {
    s.count
  }

  function DriverTrips(s: DriverStat): int
  {
    s.trips
  }

  function DriverDistance(s: DriverStat): int
  {
    s.distance
  }

  const Unspecified: string := "ไม่ระบุ"

  /** `log.location || 'ไม่ระบุ'`. */
  function LocationOf(l: TripLog): string
  {
    if l.location == "" then Unspecified else l.location
  }

  /** `log.driver_name || 'ไม่ระบุ'`. */
  function DriverOf(l: TripLog): string
  {
    if l.driverName == "" then Unspecified else l.driverName
  }

  function LocationEntry(logs: seq<TripLog>, n: string): LocationStat
  {
    LocationStat(n, SumWhere(logs, LocationOf, One, n))
  }

  function DriverEntry(logs: seq<TripLog>, n: string): DriverStat
  {
    DriverStat(n, SumWhere(logs, DriverOf, One, n), SumWhere(logs, DriverOf, Distance, n))
  }

  /** `Object.entries(locMap)`: trips per location, in order of first appearance. */
  function LocationTable(logs: seq<TripLog>): seq<LocationStat>
  {
    var ks := KeysInOrder(logs, LocationOf);
    seq(|ks|, j requires 0 <= j < |ks| => LocationEntry(logs, ks[j]))
  }

  /** `Object.entries(driverMap)`: trips and distance per driver, in order of first
      appearance. */
  function DriverTable(logs: seq<TripLog>): seq<DriverStat>
  {
    var ks := KeysInOrder(logs, DriverOf);
    seq(|ks|, j requires 0 <= j < |ks| => DriverEntry(logs, ks[j]))
  }

  /** Every trip is counted at exactly one location. */
  lemma {:induction false} LocationTableTotal(logs: seq<TripLog>)
    ensures Sum(LocationTable(logs), LocationCount) == |logs|
    ensures forall j :: 0 <= j < |LocationTable(logs)| ==> LocationTable(logs)[j].count >= 1
  {
    var ks := KeysInOrder(logs, LocationOf);
    SumEntries(LocationTable(logs), LocationCount, ks, logs, LocationOf, One);
    Conservation(ks, logs, LocationOf, One);
    SumOne(logs);
    forall j | 0 <= j < |ks| ensures SumWhere(logs, LocationOf, One, ks[j]) >= 1 {
      var i :| 0 <= i < |logs| && LocationOf(logs[i]) == ks[j];
      SumWhereAtLeast(logs, LocationOf, i);
    }
  }

  /** Every trip is counted for exactly one driver, with its distance: the drivers'
      trips add up to the number of trips and their distances to the total distance. */
  lemma {:induction false} DriverTableTotals(logs: seq<TripLog>)
    ensures Sum(DriverTable(logs), DriverTrips) == |logs|
    ensures Sum(DriverTable(logs), DriverDistance) == Sum(logs, Distance)
  {
    var ks := KeysInOrder(logs, DriverOf);
    var table := DriverTable(logs);
    assert Sum(table, DriverTrips) == |logs| by {
      SumEntries(table, DriverTrips, ks, logs, DriverOf, One);
      Conservation(ks, logs, DriverOf, One);
      SumOne(logs);
    }
    assert Sum(table, DriverDistance) == Sum(logs, Distance) by {
      SumEntries(table, DriverDistance, ks, logs, DriverOf, Distance);
      Conservation(ks, logs, DriverOf, Distance);
    }
  }

  /** `locMap[loc] = (locMap[loc] || 0) + 1`. */
  function AddLocation(m: map<string, int>, l: TripLog): map<string, int>
  {
    var n := LocationOf(l);
    m[n := (if n in m then m[n] else 0) + 1]
  }

  /** The driver's entry, created at 0 if missing, gains one trip and its distance. */
  function AddDriver(m: map<string, DriverStat>, l: TripLog): map<string, DriverStat>
  {
    var n := DriverOf(l);
    var e := if n in m then m[n] else DriverStat(n, 0, 0);
    m[n := e.(trips := e.trips + 1, distance := e.distance + Distance(l))]
  }

  /** `locMap` after the `forEach` has visited the trips `xs`. */
  function LocationMapOf(xs: seq<TripLog>): map<string, int>
    decreases |xs|
  {
    if |xs| == 0 then map[] else AddLocation(LocationMapOf(xs[..|xs| - 1]), xs[|xs| - 1])
  }

  /** `driverMap` after the `forEach` has visited the trips `xs`. */
  function DriverMapOf(xs: seq<TripLog>): map<string, DriverStat>
    decreases |xs|
  {
    if |xs| == 0 then map[] else AddDriver(DriverMapOf(xs[..|xs| - 1]), xs[|xs| - 1])
  }

  lemma AddLocationEntries(logs: seq<TripLog>, k: nat, m: map<string, int>)
    requires k < |logs| && forall n :: n in m ==> LocationStat(n, m[n]) == LocationEntry(logs[..k], n)
    requires LocationOf(logs[k]) !in m ==> forall i :: 0 <= i < k ==> LocationOf(logs[..k][i]) != LocationOf(logs[k])
    ensures forall n :: n in AddLocation(m, logs[k]) ==>
      LocationStat(n, AddLocation(m, logs[k])[n]) == LocationEntry(logs[..k + 1], n)
  {
    SumWhereNext(logs, k, LocationOf, One);
    if LocationOf(logs[k]) !in m {
      SumWhereAbsent(logs[..k], LocationOf, One, LocationOf(logs[k]));
    }
  }

  lemma AddDriverEntries(logs: seq<TripLog>, k: nat, m: map<string, DriverStat>)
    requires k < |logs| && forall n :: n in m ==> m[n] == DriverEntry(logs[..k], n)
    requires DriverOf(logs[k]) !in m ==> forall i :: 0 <= i < k ==> DriverOf(logs[..k][i]) != DriverOf(logs[k])
    ensures forall n :: n in AddDriver(m, logs[k]) ==> AddDriver(m, logs[k])[n] == DriverEntry(logs[..k + 1], n)
  {
    SumWhereNext(logs, k, DriverOf, One);
    SumWhereNext(logs, k, DriverOf, Distance);
    if DriverOf(logs[k]) !in m {
      SumWhereAbsent(logs[..k], DriverOf, One, DriverOf(logs[k]));
      SumWhereAbsent(logs[..k], DriverOf, Distance, DriverOf(logs[k]));
    }
  }

  /** `locMap` has a key for every location seen, counting the trips to it. */
  lemma {:induction false} LocationMapMeaning(logs: seq<TripLog>)
    ensures forall n :: n in LocationMapOf(logs) <==> n in KeysInOrder(logs, LocationOf)
    ensures forall n :: n in LocationMapOf(logs) ==> LocationStat(n, LocationMapOf(logs)[n]) == LocationEntry(logs, n)
    decreases |logs|
  {
    if |logs| > 0 {
      var k := |logs| - 1;
      LocationMapMeaning(logs[..k]);
      assert logs[..k + 1] == logs;
      KeysInOrderNext(logs, k, LocationOf);
      AddLocationEntries(logs, k, LocationMapOf(logs[..k]));
    }
  }

  /** `driverMap` has a key for every driver seen, with the driver's trips and distance. */
  lemma {:induction false} DriverMapMeaning(logs: seq<TripLog>)
    ensures forall n :: n in DriverMapOf(logs) <==> n in KeysInOrder(logs, DriverOf)
    ensures forall n :: n in DriverMapOf(logs) ==> DriverMapOf(logs)[n] == DriverEntry(logs, n)
    decreases |logs|
  {
    if |logs| > 0 {
      var k := |logs| - 1;
      DriverMapMeaning(logs[..k]);
      assert logs[..k + 1] == logs;
      KeysInOrderNext(logs, k, DriverOf);
      AddDriverEntries(logs, k, DriverMapOf(logs[..k]));
    }
  }

  /** `Object.entries(locMap)`, in key order. */
  method LocationEntries(logs: seq<TripLog>, locMap: map<string, int>) returns (locations: seq<LocationStat>)
    requires locMap == LocationMapOf(logs)
    ensures locations == LocationTable(logs)
  {
    var order := KeysInOrder(logs, LocationOf);
    assert forall j :: 0 <= j < |order| ==>
      order[j] in locMap && LocationStat(order[j], locMap[order[j]]) == LocationEntry(logs, order[j]) by {
      LocationMapMeaning(logs);
    }
    locations := seq(|order|, j requires 0 <= j < |order| => LocationStat(order[j], locMap[order[j]]));
  }

  /** `Object.entries(driverMap)`, in key order. */
  method DriverEntries(logs: seq<TripLog>, driverMap: map<string, DriverStat>) returns (drivers: seq<DriverStat>)
    requires driverMap == DriverMapOf(logs)
    ensures drivers == DriverTable(logs)
  {
    var order := KeysInOrder(logs, DriverOf);
    assert forall j :: 0 <= j < |order| ==> order[j] in driverMap && driverMap[order[j]] == DriverEntry(logs, order[j]) by {
      DriverMapMeaning(logs);
    }
    drivers := seq(|order|, j requires 0 <= j < |order| => driverMap[order[j]]);
  }

  /** `locMap` and `driverMap`, filled by one pass over the trips, then
      `Object.entries` of each in key order. */
  method TallyLocationsAndDrivers(logs: seq<TripLog>) returns (locations: seq<LocationStat>, drivers: seq<DriverStat>)
    ensures locations == LocationTable(logs)
    ensures drivers == DriverTable(logs)
  {
    var locMap: map<string, int> := map[];
    var driverMap: map<string, DriverStat> := map[];
    var k := 0;
    while k < |logs|
      invariant 0 <= k <= |logs|
      invariant locMap == LocationMapOf(logs[..k])
      invariant driverMap == DriverMapOf(logs[..k])
    {
      assert logs[..k + 1][..k] == logs[..k];
      locMap := AddLocation(locMap, logs[k]);
      driverMap := AddDriver(driverMap, logs[k]);
      k := k + 1;
    }
    assert logs[..|logs|] == logs;
    locations := LocationEntries(logs, locMap);
    drivers := DriverEntries(logs, driverMap);
  }

  /** `.sort((a, b) => b.count - a.count).slice(0, 5)`: the five busiest locations. */
  function TopLocations(locations: seq<LocationStat>): (r: seq<LocationStat>)
    ensures |r| == if |locations| < 5 then |locations| else 5
    ensures forall i, j :: 0 <= i < j < |r| ==> r[i].count >= r[j].count
    ensures multiset(r) <= multiset(locations)
    ensures forall e, i :: e in multiset(locations) - multiset(r) && 0 <= i < |r| ==> e.count <= r[i].count
  {
    TopByScore(locations, LocationCount, 5)
  }

  /** `.sort((a, b) => b.trips - a.trips).slice(0, 5)`: the five drivers with most trips. */
  function TopDrivers(drivers: seq<DriverStat>): (r: seq<DriverStat>)
    ensures |r| == if |drivers| < 5 then |drivers| else 5
    ensures forall i, j :: 0 <= i < j < |r| ==> r[i].trips >= r[j].trips
    ensures multiset(r) <= multiset(drivers)
    ensures forall e, i :: e in multiset(drivers) - multiset(r) && 0 <= i < |r| ==> e.trips <= r[i].trips
  {
    TopByScore(drivers, DriverTrips, 5)
  }

  // ---------------------------------------------------------------- per-car table

  /** A row of the car table. The source's row has no id; `carId` is the key of
      `carMapStats` the row was stored under. */
  datatype CarStat = CarStat(carId: CarId, plate: string, model: string, trips: int, distance: int, cost: int)

  function CarTrips(s: CarStat): int
  {
    s.trips
  }

  function CarDistance(s: CarStat): int
  {
    s.distance
  }

  function NegCarDistance(s: CarStat): int
  {
    -s.distance
  }

  function CarCost(s: CarStat): int
  {
    s.cost
  }

  /** The car that the assignment `carMapStats[c.id] = ...` leaves in place: the last
      car with that id. */
  function LastCar(cars: seq<Car>, id: CarId): (r: Option<Car>)
    ensures r.Some? ==> r.value.id == id
    ensures r.None? <==> forall i :: 0 <= i < |cars| ==> cars[i].id != id
    decreases |cars|
  {
    if |cars| == 0 then None
    else if cars[|cars| - 1].id == id then Some(cars[|cars| - 1])
    else
      var init := cars[..|cars| - 1];
      assert forall i :: 0 <= i < |init| ==> init[i] == cars[i];
      LastCar(init, id)
  }

  /** The car `LastCar` picks is a car of the list after which no car has that id, so
      it is the one whose row the later assignments leave in place. */
  lemma {:induction false} LastCarIsLast(cars: seq<Car>, id: CarId)
    requires LastCar(cars, id).Some?
    ensures exists i :: 0 <= i < |cars| && cars[i] == LastCar(cars, id).value &&
                        (forall j :: i < j < |cars| ==> cars[j].id != id)
    decreases |cars|
  {
    var n := |cars| - 1;
    if cars[n].id == id {
      assert cars[n] == LastCar(cars, id).value;
    } else {
      var init := cars[..n];
      assert LastCar(cars, id) == LastCar(init, id);
      LastCarIsLast(init, id);
      var i :| 0 <= i < |init| && init[i] == LastCar(init, id).value &&
               (forall j :: i < j < |init| ==> init[j].id != id);
      forall j | i < j < |cars| ensures cars[j].id != id {
        if j < n {
          assert cars[j] == init[j];
        }
      }
      assert cars[i] == LastCar(cars, id).value;
    }
  }

  /** The totals of one car over `logs`. */
  function Row(c: Car, logs: seq<TripLog>): CarStat
  {
    CarStat(c.id, c.plateNumber, c.model,
            SumWhere(logs, LogCarId, One, c.id), SumWhere(logs, LogCarId, Distance, c.id),
            SumWhere(logs, LogCarId, Cost, c.id))
  }

  function RowFor(cars: seq<Car>, id: CarId, logs: seq<TripLog>): CarStat
    requires exists i :: 0 <= i < |cars| && cars[i].id == id
  {
    Row(LastCar(cars, id).value, logs)
  }

  /** `Object.values(carMapStats)` before sorting: one row per distinct car id, in the
      order the ids first appear. */
  function PerCarRows(cars: seq<Car>, logs: seq<TripLog>): seq<CarStat>
  {
    var ks := KeysInOrder(cars, CarIdOf);
    seq(|ks|, j requires 0 <= j < |ks| => RowFor(cars, ks[j], logs))
  }

  /** `carMapStats[c.id] = { plate, model, trips: 0, distance: 0, cost: 0 }`. */
  function SeedCar(m: map<CarId, CarStat>, c: Car): map<CarId, CarStat>
  {
    m[c.id := CarStat(c.id, c.plateNumber, c.model, 0, 0, 0)]
  }

  /** `if (carMapStats[log.car_id]) { ... }`: a trip of a known car is added to its row;
      any other trip changes nothing. */
  function AddTrip(m: map<CarId, CarStat>, l: TripLog): map<CarId, CarStat>
  {
    if l.carId in m then
      var s := m[l.carId];
      m[l.carId := s.(trips := s.trips + 1, distance := s.distance + Distance(l), cost := s.cost + Cost(l))]
    else
      m
  }

  /** `carMapStats` after the `forEach` over the cars `xs`. */
  function SeedMapOf(xs: seq<Car>): map<CarId, CarStat>
    decreases |xs|
  {
    if |xs| == 0 then map[] else SeedCar(SeedMapOf(xs[..|xs| - 1]), xs[|xs| - 1])
  }

  /** `carMapStats`, starting from `m`, after the `forEach` over the trips `xs`. */
  function TripMapOf(m: map<CarId, CarStat>, xs: seq<TripLog>): map<CarId, CarStat>
    decreases |xs|
  {
    if |xs| == 0 then m else AddTrip(TripMapOf(m, xs[..|xs| - 1]), xs[|xs| - 1])
  }

  /** After the pass over the cars, there is a key per car id, holding a zero row of the
      last car with that id. */
  lemma {:induction false} SeedMapMeaning(cars: seq<Car>)
    ensures forall id :: id in SeedMapOf(cars) <==> id in KeysInOrder(cars, CarIdOf)
    ensures forall id :: id in SeedMapOf(cars) ==>
      LastCar(cars, id).Some? && SeedMapOf(cars)[id] == Row(LastCar(cars, id).value, [])
    decreases |cars|
  {
    if |cars| > 0 {
      SeedMapMeaning(cars[..|cars| - 1]);
    }
  }

  lemma {:induction false} AddTripEntries(m: map<CarId, CarStat>, cars: seq<Car>, logs: seq<TripLog>, k: nat)
    requires k < |logs|
    requires forall id :: id in m ==> LastCar(cars, id).Some? && m[id] == Row(LastCar(cars, id).value, logs[..k])
    ensures forall id :: id in AddTrip(m, logs[k]) <==> id in m
    ensures forall id :: id in m ==> AddTrip(m, logs[k])[id] == Row(LastCar(cars, id).value, logs[..k + 1])
  {
    forall id | id in m ensures AddTrip(m, logs[k])[id] == Row(LastCar(cars, id).value, logs[..k + 1]) {
      AddTripRow(m, LastCar(cars, id).value, logs, k);
    }
  }

  /** The step above for one key `c.id` whose row holds the totals of `c`. */
  lemma AddTripRow(m: map<CarId, CarStat>, c: Car, logs: seq<TripLog>, k: nat)
    requires k < |logs|
    requires c.id in m && m[c.id] == Row(c, logs[..k])
    ensures AddTrip(m, logs[k])[c.id] == Row(c, logs[..k + 1])
  {
    RowNext(c, logs, k);
  }

  /** One more trip changes a car's row only when the trip is that car's. */
  lemma RowNext(c: Car, logs: seq<TripLog>, k: nat)
    requires k < |logs|
    ensures Row(c, logs[..k + 1]) == if logs[k].carId == c.id then
      var s := Row(c, logs[..k]);
      s.(trips := s.trips + 1, distance := s.distance + Distance(logs[k]), cost := s.cost + Cost(logs[k]))
    else Row(c, logs[..k])
  {
    SumWhereNext(logs, k, LogCarId, One);
    SumWhereNext(logs, k, LogCarId, Distance);
    SumWhereNext(logs, k, LogCarId, Cost);
  }

  /** The pass over the trips keeps the keys and adds each known car's trips to its row. */
  lemma {:induction false} TripMapMeaning(m: map<CarId, CarStat>, cars: seq<Car>, logs: seq<TripLog>)
    requires forall id :: id in m ==> LastCar(cars, id).Some? && m[id] == Row(LastCar(cars, id).value, [])
    ensures forall id :: id in TripMapOf(m, logs) <==> id in m
    ensures forall id :: id in TripMapOf(m, logs) ==> TripMapOf(m, logs)[id] == Row(LastCar(cars, id).value, logs)
    decreases |logs|
  {
    if |logs| > 0 {
      var k := |logs| - 1;
      TripMapMeaning(m, cars, logs[..k]);
      AddTripEntries(TripMapOf(m, logs[..k]), cars, logs, k);
      assert logs[..k + 1] == logs;
    }
  }

  /** `Object.values(carMapStats)`, in key order. */
  method CarValues(cars: seq<Car>, logs: seq<TripLog>, m: map<CarId, CarStat>) returns (values: seq<CarStat>)
    requires m == TripMapOf(SeedMapOf(cars), logs)
    ensures values == PerCarRows(cars, logs)
  {
    var order := KeysInOrder(cars, CarIdOf);
    assert forall j :: 0 <= j < |order| ==> order[j] in m && m[order[j]] == Row(LastCar(cars, order[j]).value, logs) by {
      CarMapMeaning(cars, logs);
    }
    values := seq(|order|, j requires 0 <= j < |order| => m[order[j]]);
  }

  /** `carMapStats` after both passes: a key per car id, holding the totals of the last
      car with that id over the trips. */
  lemma CarMapMeaning(cars: seq<Car>, logs: seq<TripLog>)
    ensures forall id :: id in TripMapOf(SeedMapOf(cars), logs) <==> id in KeysInOrder(cars, CarIdOf)
    ensures forall id :: id in TripMapOf(SeedMapOf(cars), logs) ==>
      LastCar(cars, id).Some? && TripMapOf(SeedMapOf(cars), logs)[id] == Row(LastCar(cars, id).value, logs)
  {
    SeedMapMeaning(cars);
    TripMapMeaning(SeedMapOf(cars), cars, logs);
  }

  /** `carMapStats`: a row per car, then every trip of a known car added to its row
      (trips of unknown cars skipped), then `Object.values` by distance, largest first. */
  method CarTable(cars: seq<Car>, logs: seq<TripLog>) returns (rows: seq<CarStat>)
    ensures rows == SortBy(PerCarRows(cars, logs), NegCarDistance)
  {
    var m: map<CarId, CarStat> := map[];
    var k := 0;
    while k < |cars|
      invariant 0 <= k <= |cars|
      invariant m == SeedMapOf(cars[..k])
    {
      assert cars[..k + 1][..k] == cars[..k];
      m := SeedCar(m, cars[k]);
      k := k + 1;
    }
    assert cars[..|cars|] == cars;
    var seeded := m;
    k := 0;
    while k < |logs|
      invariant 0 <= k <= |logs|
      invariant m == TripMapOf(seeded, logs[..k])
    {
      assert logs[..k + 1][..k] == logs[..k];
      m := AddTrip(m, logs[k]);
      k := k + 1;
    }
    assert logs[..|logs|] == logs;
    var values := CarValues(cars, logs, m);
    rows := SortBy(values, NegCarDistance);
  }

  /** The car table is ordered by distance, largest first, and has one row per
      distinct car id. */
  lemma CarTableOrder(cars: seq<Car>, logs: seq<TripLog>)
    ensures var rows := SortBy(PerCarRows(cars, logs), NegCarDistance);
      && (forall i, j :: 0 <= i < j < |rows| ==> rows[i].distance >= rows[j].distance)
      && |rows| == |KeysInOrder(cars, CarIdOf)| <= |cars|
  {
    var rows := SortBy(PerCarRows(cars, logs), NegCarDistance);
    assert forall i, j :: 0 <= i < j < |rows| ==> NegCarDistance(rows[i]) <= NegCarDistance(rows[j]);
  }

  /** Every car, busy or not and with or without trips, has a row in the car table. */
  lemma {:induction false} CarTableCoversCars(cars: seq<Car>, logs: seq<TripLog>)
    ensures var rows := SortBy(PerCarRows(cars, logs), NegCarDistance);
      forall i :: 0 <= i < |cars| ==> exists r :: r in rows && r.carId == cars[i].id
  {
    var per := PerCarRows(cars, logs);
    var rows := SortBy(per, NegCarDistance);
    var ks := KeysInOrder(cars, CarIdOf);
    forall i | 0 <= i < |cars| ensures exists r :: r in rows && r.carId == cars[i].id {
      var j :| 0 <= j < |ks| && ks[j] == CarIdOf(cars[i]);
      assert per[j].carId == ks[j];
      assert per[j] in multiset(rows);
    }
  }

  /** With unique car ids the car table has exactly one row per car. */
  lemma CarTableOneRowPerCar(cars: seq<Car>, logs: seq<TripLog>)
    requires UniqueCarIds(cars)
    ensures |SortBy(PerCarRows(cars, logs), NegCarDistance)| == |cars|
  {
    KeysInOrderInjective(cars, CarIdOf);
  }

  /** A column of the car table adds up to the weights of the trips of known cars. */
  lemma CarColumnSum(cars: seq<Car>, logs: seq<TripLog>, f: CarStat -> int, w: TripLog -> int)
    requires forall c: Car :: f(Row(c, logs)) == SumWhere(logs, LogCarId, w, c.id)
    ensures Sum(SortBy(PerCarRows(cars, logs), NegCarDistance), f) == SumIn(logs, LogCarId, w, KeysInOrder(cars, CarIdOf))
  {
    var per := PerCarRows(cars, logs);
    var ks := KeysInOrder(cars, CarIdOf);
    SortSum(per, NegCarDistance, f);
    forall j | 0 <= j < |per| ensures f(per[j]) == SumWhere(logs, LogCarId, w, ks[j]) {
      assert per[j] == Row(LastCar(cars, ks[j]).value, logs);
    }
    SumEntries(per, f, ks, logs, LogCarId, w);
    SumKeysIsSumIn(ks, logs, LogCarId, w);
  }

  /** The car table counts exactly the trips of known cars: its trips, distances and
      costs add up to those of the trips whose car id is a car's id. */
  lemma CarTableTotals(cars: seq<Car>, logs: seq<TripLog>)
    ensures var rows := SortBy(PerCarRows(cars, logs), NegCarDistance);
      var ks := KeysInOrder(cars, CarIdOf);
      && Sum(rows, CarTrips) == SumIn(logs, LogCarId, One, ks)
      && Sum(rows, CarDistance) == SumIn(logs, LogCarId, Distance, ks)
      && Sum(rows, CarCost) == SumIn(logs, LogCarId, Cost, ks)
  {
    CarColumnSum(cars, logs, CarTrips, One);
    CarColumnSum(cars, logs, CarDistance, Distance);
    CarColumnSum(cars, logs, CarCost, Cost);
  }

  /** When every trip belongs to a known car, the car table accounts for all trips, the
      whole distance and the whole fuel cost. */
  lemma {:induction false} CarTableCountsEveryTrip(cars: seq<Car>, logs: seq<TripLog>)
    requires forall i :: 0 <= i < |logs| ==> exists j :: 0 <= j < |cars| && cars[j].id == logs[i].carId
    ensures var rows := SortBy(PerCarRows(cars, logs), NegCarDistance);
      && Sum(rows, CarTrips) == |logs|
      && Sum(rows, CarDistance) == Sum(logs, Distance)
      && Sum(rows, CarCost) == Sum(logs, Cost)
  {
    var ks := KeysInOrder(cars, CarIdOf);
    CarTableTotals(cars, logs);
    forall i | 0 <= i < |logs| ensures LogCarId(logs[i]) in ks {
      var j :| 0 <= j < |cars| && cars[j].id == logs[i].carId;
      assert CarIdOf(cars[j]) in ks;
    }
    SumInAll(logs, LogCarId, One, ks);
    SumInAll(logs, LogCarId, Distance, ks);
    SumInAll(logs, LogCarId, Cost, ks);
    SumOne(logs);
  }

  /** A trip whose car id is no car's id leaves the car table as it was. */
  lemma CarTableIgnoresUnknownCar(cars: seq<Car>, logs: seq<TripLog>, l: TripLog)
    requires forall i :: 0 <= i < |cars| ==> cars[i].id != l.carId
    ensures PerCarRows(cars, logs + [l]) == PerCarRows(cars, logs)
  {
    var ks := KeysInOrder(cars, CarIdOf);
    assert (logs + [l])[..|logs|] == logs;
    forall j | 0 <= j < |ks| ensures RowFor(cars, ks[j], logs + [l]) == RowFor(cars, ks[j], logs) {
      var i :| 0 <= i < |cars| && CarIdOf(cars[i]) == ks[j];
      assert ks[j] != l.carId;
    }
  }

  // ---------------------------------------------------------------- the whole page

  /** `.from('trip_logs').select(...).order('created_at', { ascending: false }).limit(6)`:
      the six newest trips of any status, newest first. */
  function Recents(table: seq<TripLog>): (r: seq<TripLog>)
    ensures |r| == if |table| < 6 then |table| else 6
    ensures forall i, j :: 0 <= i < j < |r| ==> r[i].createdAt >= r[j].createdAt
    ensures multiset(r) <= multiset(table)
    ensures forall e, i :: e in multiset(table) - multiset(r) && 0 <= i < |r| ==> e.createdAt <= r[i].createdAt
  {
    TopByScore(table, CreatedAt, 6)
  }

  datatype DashboardData = DashboardData(
    stats: Stats,
    trend: seq<TrendPoint>,
    types: seq<TypeStat>,
    morning: int,
    afternoon: int,
    locations: seq<LocationStat>,
    drivers: seq<DriverStat>,
    carTable: seq<CarStat>,
    recents: seq<TripLog>)

  /** The figures above the tables: the headline numbers, the seven-day trend (seven
      consecutive UTC days ending today, each counting the trips created that day, never
      more in all than the trips), the per-type tally and the morning/afternoon split
      (which together count every trip once). */
  ghost predicate IsHeadline(logs: seq<TripLog>, cars: seq<Car>, now: nat, tzOffset: int, stats: Stats,
                             trend: seq<TrendPoint>, types: seq<TypeStat>, morning: int, afternoon: int)
  {
    && stats == Summarize(logs, cars)
    && |trend| == 7
    && (forall j :: 0 <= j < 7 ==> trend[j].day == UtcDay(now) - 6 + j)
    && (forall j :: 0 <= j < 7 ==> trend[j].count == SumWhere(logs, LogDay, One, trend[j].day))
    && 0 <= Sum(trend, PointCount) <= stats.totalTrips
    && types == TypeTable(cars)
    && morning == Sum(logs, MorningWeight(tzOffset))
    && afternoon == Sum(logs, AfternoonWeight(tzOffset))
    && morning + afternoon == stats.totalTrips
  }

  method Headline(logs: seq<TripLog>, cars: seq<Car>, now: nat, tzOffset: int)
    returns (stats: Stats, trend: seq<TrendPoint>, types: seq<TypeStat>, morning: int, afternoon: int)
    ensures IsHeadline(logs, cars, now, tzOffset, stats, trend, types, morning, afternoon)
  {
    stats := Summarize(logs, cars);
    trend := DailyTrend(logs, now);
    types := TallyTypes(cars);
    morning, afternoon := SplitByHour(logs, tzOffset);
  }

  /** The lists below the charts: the five busiest locations, the five drivers with the
      most trips, the per-car table and the six newest trips of the whole table. */
  ghost predicate IsRankings(table: seq<TripLog>, logs: seq<TripLog>, cars: seq<Car>, locations: seq<LocationStat>,
                             drivers: seq<DriverStat>, carTable: seq<CarStat>, recents: seq<TripLog>)
  {
    && locations == TopLocations(LocationTable(logs))
    && drivers == TopDrivers(DriverTable(logs))
    && carTable == SortBy(PerCarRows(cars, logs), NegCarDistance)
    && recents == Recents(table)
  }

  method Rankings(table: seq<TripLog>, logs: seq<TripLog>, cars: seq<Car>)
    returns (locations: seq<LocationStat>, drivers: seq<DriverStat>, carTable: seq<CarStat>, recents: seq<TripLog>)
    ensures IsRankings(table, logs, cars, locations, drivers, carTable, recents)
  {
    var allLocations, allDrivers := TallyLocationsAndDrivers(logs);
    locations := TopLocations(allLocations);
    drivers := TopDrivers(allDrivers);
    carTable := CarTable(cars, logs);
    recents := Recents(table);
  }

  /** `fetchData`: every figure of the page from the trip table, the cars, the current
      time and the viewer's time zone offset. The recent list is the six newest trips of
      any status (`.order('created_at', { ascending: false }).limit(6)`). */
  method Analyze(table: seq<TripLog>, cars: seq<Car>, now: nat, tzOffset: int) returns (d: DashboardData)
    ensures IsHeadline(CompletedLogs(table), cars, now, tzOffset, d.stats, d.trend, d.types, d.morning, d.afternoon)
    ensures IsRankings(table, CompletedLogs(table), cars, d.locations, d.drivers, d.carTable, d.recents)
  {
    var logs := CompletedLogs(table);
    var stats, trend, types, morning, afternoon := Headline(logs, cars, now, tzOffset);
    var locations, drivers, carTable, recents := Rankings(table, logs, cars);
    d := DashboardData(stats, trend, types, morning, afternoon, locations, drivers, carTable, recents);
  }
}
