/** app/page.js: `App`, which routes on the `car_id` query parameter, and
    `CarActionForm`, the checkout / check-in form a scanned QR code opens. The form's
    reads and writes go to an in-memory store (the cars, trip_logs and staff tables). */
module CarAction {
  import opened Fleet
  import opened Query
  import opened Tally
  import opened Ordering

  datatype View = ActionForm(carId: CarId) | Selector

  /** `App`: a non-empty `car_id` opens the form for that car; no parameter, or an
      empty one (falsy in JavaScript), shows the read-only status board. */
  function Route(carIdParam: Option<string>): (v: View)
    ensures v.ActionForm? <==> carIdParam.Some? && carIdParam.value != ""
    ensures v.ActionForm? ==> v.carId == carIdParam.value
  {
    if carIdParam.Some? && carIdParam.value != "" then ActionForm(carIdParam.value) else Selector
  }

  /** The value of an `<input type="number">`: empty, or a number. An entered 0 is the
      string "0", which JavaScript treats as filled in. */
  datatype Entry = Blank | Entered(value: int)

  /** `x ? parseFloat(x) : 0`. */
  function ValueOrZero(e: Entry): int
  {
    if e.Entered? then e.value else 0
  }

  /** The location option that asks for free text. */
  const OtherLocation: string := "อื่นๆ"

  /** `selectedLocation === 'อื่นๆ' ? customLocation : selectedLocation`. */
  function FinalLocation(selected: string, custom: string): string
  {
    if selected == OtherLocation then custom else selected
  }

  /** The staff name and position the form holds for an employee code: looked up only
      for codes of at least 4 characters, and cleared when no single row matches. */
  function StaffFor(staff: seq<StaffRecord>, code: string): (r: (string, string))
    ensures |code| < 4 ==> r == ("", "")
    ensures (forall s :: s in staff ==> s.staffCode != code) ==> r == ("", "")
    ensures r.0 != "" ==> exists s :: s in staff && s.staffCode == code && s.fullName == r.0 && s.position == r.1
    ensures |code| >= 4 && SingleStaff(staff, code).Some? ==>
      r == (SingleStaff(staff, code).value.fullName, SingleStaff(staff, code).value.position)
    ensures |code| >= 4 && SingleStaff(staff, code).None? ==> r == ("", "")
    ensures |code| >= 4 && CodeAtMostOnce(staff, code) ==>
      forall s :: s in staff && s.staffCode == code ==> r == (s.fullName, s.position)
  {
    if |code| >= 4 then
      match SingleStaff(staff, code)
      case Some(s) => (s.fullName, s.position)
      case None => ("", "")
    else
      ("", "")
  }

  /** The car's most recent completed trip: `.eq('car_id', carId).eq('is_completed', true)
      .order('created_at', { ascending: false }).limit(1).single()`. */
  function LatestCompleted(logs: seq<TripLog>, carId: CarId): (r: Option<TripLog>)
    ensures r.Some? ==> r.value in logs && r.value.carId == carId && r.value.isCompleted
    ensures r.Some? ==> forall l :: l in logs && l.carId == carId && l.isCompleted ==> l.createdAt <= r.value.createdAt
    ensures r.None? <==> forall l :: l in logs ==> !(l.carId == carId && l.isCompleted)
  {
    var p := (l: TripLog) => l.carId == carId && l.isCompleted;
    var rows := Filter(logs, p);
    var sorted := SortBy(rows, NegCreatedAt);
    assert forall l :: l in sorted <==> l in logs && p(l) by {
      SortByMembers(rows, NegCreatedAt);
    }
    if |sorted| == 0 then
      None
    else
      assert forall l :: l in logs && l.carId == carId && l.isCompleted ==> l.createdAt <= sorted[0].createdAt by {
        forall l | l in logs && l.carId == carId && l.isCompleted ensures l.createdAt <= sorted[0].createdAt {
          var k :| 0 <= k < |sorted| && sorted[k] == l;
          assert k == 0 || NegCreatedAt(sorted[0]) <= NegCreatedAt(sorted[k]);
        }
      }
      Some(sorted[0])
  }

  /** The car's open trip: `.eq('car_id', carId).eq('is_completed', false).limit(1).single()`. */
  function FirstOpen(logs: seq<TripLog>, carId: CarId): (r: Option<TripLog>)
    ensures r.Some? ==> r.value in logs && r.value.carId == carId && !r.value.isCompleted
    ensures r.None? <==> forall l :: l in logs ==> !(l.carId == carId && !l.isCompleted)
  {
    var rows := Filter(logs, (l: TripLog) => l.carId == carId && !l.isCompleted);
    assert |rows| > 0 ==> rows[0] in rows;
    First(rows)
  }

  /** The start mileage the form fills in for an available car (`if (l?.end_mileage)`):
      the end mileage of the car's most recent completed trip, unless it is missing or 0. */
  function Prefill(logs: seq<TripLog>, carId: CarId): (e: Entry)
    ensures e.Entered? ==> e.value != 0
    ensures e.Entered? ==> exists l :: (l in logs && l.carId == carId && l.isCompleted && l.endMileage == Some(e.value)
      && forall m :: m in logs && m.carId == carId && m.isCompleted ==> m.createdAt <= l.createdAt)
    ensures (forall l :: l in logs ==> !(l.carId == carId && l.isCompleted)) ==> e == Blank
    ensures var latest := LatestCompleted(logs, carId);
      e == if latest.Some? && latest.value.endMileage.Some? && latest.value.endMileage.value != 0
           then Entered(latest.value.endMileage.value) else Blank
  {
    match LatestCompleted(logs, carId)
    case Some(l) => if l.endMileage.Some? && l.endMileage.value != 0 then Entered(l.endMileage.value) else Blank
    case None => Blank
  }

  /** What the form holds once the mount effect has run. */
  datatype Mounted = Mounted(car: Option<Car>, activeLog: Option<TripLog>, mileage: Entry)

  /** The mount effect on the fields `before`: a car is set only when exactly one car
      has the id; an available car then gets the start mileage prefilled (when there is
      one to prefill), a busy car gets its open trip (when there is one). */
  function Mount(cars: seq<Car>, logs: seq<TripLog>, carId: CarId, before: Mounted): (after: Mounted)
    ensures after.car == if SingleCar(cars, carId).Some? then SingleCar(cars, carId) else before.car
    ensures after.car.Some? && after.car != before.car ==> after.car.value.id == carId
    ensures SingleCar(cars, carId).None? ==> after == before
    ensures SingleCar(cars, carId).Some? && SingleCar(cars, carId).value.status == Available ==>
      after.activeLog == before.activeLog
      && after.mileage == if Prefill(logs, carId).Entered? then Prefill(logs, carId) else before.mileage
    ensures SingleCar(cars, carId).Some? && SingleCar(cars, carId).value.status == Busy ==>
      after.mileage == before.mileage
      && after.activeLog == if FirstOpen(logs, carId).Some? then FirstOpen(logs, carId) else before.activeLog
  {
    match SingleCar(cars, carId)
    case None => before
    case Some(c) =>
      if c.status == Available then
        var prefill := Prefill(logs, carId);
        before.(car := Some(c), mileage := if prefill.Entered? then prefill else before.mileage)
      else
        var open := FirstOpen(logs, carId);
        before.(car := Some(c), activeLog := if open.Some? then open else before.activeLog)
  }

  /** `.from('cars').update({ status }).eq('id', carId)`. */
  function WithStatus(cars: seq<Car>, carId: CarId, status: Status): seq<Car>
  {
    seq(|cars|, i requires 0 <= i < |cars| => if cars[i].id == carId then cars[i].(status := status) else cars[i])
  }

  /** The fields check-in writes into the open trip. */
  function Checkin(l: TripLog, endMileage: int, liters: int, cost: int, now: nat): TripLog
  {
    l.(endMileage := Some(endMileage), fuelLiters := Some(liters), fuelCost := Some(cost),
       endTime := Some(now), isCompleted := true)
  }

  /** `.from('trip_logs').update({ ... is_completed: true }).eq('id', logId)`. */
  function CompleteLog(logs: seq<TripLog>, logId: nat, endMileage: int, liters: int, cost: int, now: nat): seq<TripLog>
  {
    seq(|logs|, i requires 0 <= i < |logs| =>
      if logs[i].id == logId then Checkin(logs[i], endMileage, liters, cost, now) else logs[i])
  }

  /** A status update changes the status of the cars with id `carId` and nothing else. */
  lemma WithStatusWrites(cars: seq<Car>, carId: CarId, status: Status)
    ensures var after := WithStatus(cars, carId, status);
      && |after| == |cars|
      && (forall i :: 0 <= i < |cars| && cars[i].id == carId ==> after[i] == cars[i].(status := status))
      && (forall i :: 0 <= i < |cars| && cars[i].id != carId ==> after[i] == cars[i])
  {
  }

  /** Check-in writes only the trip with id `logId`: it is completed with the given end
      mileage, fuel figures and end time and keeps its other columns; every other trip is
      left as it was. */
  lemma CompleteLogWrites(logs: seq<TripLog>, logId: nat, endMileage: int, liters: int, cost: int, now: nat)
    ensures var done := CompleteLog(logs, logId, endMileage, liters, cost, now);
      && |done| == |logs|
      && (forall i :: 0 <= i < |logs| && logs[i].id != logId ==> done[i] == logs[i])
      && (forall i :: 0 <= i < |logs| && logs[i].id == logId ==>
            && done[i].isCompleted && done[i].endMileage == Some(endMileage) && done[i].endTime == Some(now)
            && done[i].fuelLiters == Some(liters) && done[i].fuelCost == Some(cost)
            && done[i].(endMileage := logs[i].endMileage, fuelLiters := logs[i].fuelLiters,
                        fuelCost := logs[i].fuelCost, endTime := logs[i].endTime,
                        isCompleted := logs[i].isCompleted) == logs[i])
  {
  }

  /** The row a successful checkout inserts. */
  function CheckoutLog(id: nat, carId: CarId, name: string, position: string, mileage: int,
                       location: string, now: nat): TripLog
  {
    TripLog(id, carId, name, position, location, mileage, None, None, None, now, None, now, false)
  }

  /** An id above every id in the table: where the store's id sequence stands. */
  function NextLogId(logs: seq<TripLog>): (n: nat)
    ensures forall i :: 0 <= i < |logs| ==> logs[i].id < n
    decreases |logs|
  {
    if |logs| == 0 then 0
    else
      var init := logs[..|logs| - 1];
      assert forall i :: 0 <= i < |init| ==> init[i] == logs[i];
      var n := NextLogId(init);
      if logs[|logs| - 1].id < n then n else logs[|logs| - 1].id + 1
  }

  function OpenWeight(l: TripLog): int
  {
    if l.isCompleted then 0 else 1
  }

  /** The number of open trips of a car. */
  function OpenCount(logs: seq<TripLog>, carId: CarId): int
  {
    SumWhere(logs, LogCarId, OpenWeight, carId)
  }

  /** Every car whose id is `carId` has status `status`. */
  ghost predicate AllHaveStatus(cars: seq<Car>, carId: CarId, status: Status)
  {
    forall i :: 0 <= i < |cars| && cars[i].id == carId ==> cars[i].status == status
  }

  /** On a fresh form over a table with unique car ids, mounting an available car means
      every car with that id is available: the premise `TakeOut` needs to keep the store
      consistent. */
  lemma MountedAvailable(cars: seq<Car>, logs: seq<TripLog>, carId: CarId, before: Mounted)
    requires UniqueCarIds(cars)
    requires before.car.None?
    ensures var after := Mount(cars, logs, carId, before);
      after.car.Some? && after.car.value.status == Available ==> AllHaveStatus(cars, carId, Available)
  {
    var after := Mount(cars, logs, carId, before);
    if after.car.Some? && after.car.value.status == Available {
      forall i | 0 <= i < |cars| && cars[i].id == carId ensures cars[i].status == Available {
        assert SingleCar(cars, carId) == Some(cars[i]);
      }
    }
  }

  /** The store agrees with itself: a busy car has exactly one open trip and an available
      car has none. */
  ghost predicate Consistent(cars: seq<Car>, logs: seq<TripLog>)
  {
    forall i :: 0 <= i < |cars| ==> OpenCount(logs, cars[i].id) == if cars[i].status == Busy then 1 else 0
  }

  /** Appending a row adds its weight to its car's count of open trips. */
  lemma OpenCountAppend(logs: seq<TripLog>, l: TripLog, carId: CarId)
    ensures OpenCount(logs + [l], carId) == OpenCount(logs, carId) + if l.carId == carId then OpenWeight(l) else 0
  {
    assert (logs + [l])[..|logs|] == logs;
  }

  /** Completing the one trip whose id is `logs[idx].id` takes one open trip away from
      that trip's car and leaves every other car's count as it was. */
  lemma {:induction false} CompleteLogOpenCount(logs: seq<TripLog>, idx: nat, endMileage: int, liters: int,
                                                 cost: int, now: nat, carId: CarId)
    requires idx < |logs| && !logs[idx].isCompleted
    requires forall i :: 0 <= i < |logs| && logs[i].id == logs[idx].id ==> i == idx
    ensures OpenCount(CompleteLog(logs, logs[idx].id, endMileage, liters, cost, now), carId)
         == OpenCount(logs, carId) - if logs[idx].carId == carId then 1 else 0
    decreases |logs|
  {
    var n := |logs|;
    var logId := logs[idx].id;
    var init := logs[..n - 1];
    var done := CompleteLog(logs, logId, endMileage, liters, cost, now);
    assert done[..n - 1] == CompleteLog(init, logId, endMileage, liters, cost, now);
    assert done == done[..n - 1] + [done[n - 1]];
    assert logs == init + [logs[n - 1]];
    if idx == n - 1 {
      assert CompleteLog(init, logId, endMileage, liters, cost, now) == init;
    } else {
      CompleteLogOpenCount(init, idx, endMileage, liters, cost, now, carId);
    }
    OpenCountAppend(CompleteLog(init, logId, endMileage, liters, cost, now), done[n - 1], carId);
    OpenCountAppend(init, logs[n - 1], carId);
  }

  /** A checkout of an available car keeps the store consistent: the car becomes busy
      together with its one new open trip. */
  lemma CheckoutKeepsConsistent(cars: seq<Car>, logs: seq<TripLog>, carId: CarId, l: TripLog)
    requires Consistent(cars, logs)
    requires AllHaveStatus(cars, carId, Available)
    requires l.carId == carId && !l.isCompleted
    ensures Consistent(WithStatus(cars, carId, Busy), logs + [l])
  {
    var cars' := WithStatus(cars, carId, Busy);
    forall i | 0 <= i < |cars'|
      ensures OpenCount(logs + [l], cars'[i].id) == if cars'[i].status == Busy then 1 else 0
    {
      OpenCountAppend(logs, l, cars[i].id);
    }
  }

  /** A check-in that completes the open trip the form loaded keeps the store consistent:
      the car becomes available together with having no open trip. */
  lemma CheckinKeepsConsistent(cars: seq<Car>, logs: seq<TripLog>, carId: CarId,
                               endMileage: int, liters: int, cost: int, now: nat)
    requires Consistent(cars, logs) && UniqueLogIds(logs)
    requires FirstOpen(logs, carId).Some?
    ensures Consistent(WithStatus(cars, carId, Available),
                       CompleteLog(logs, FirstOpen(logs, carId).value.id, endMileage, liters, cost, now))
  {
    var a := FirstOpen(logs, carId).value;
    var idx :| 0 <= idx < |logs| && logs[idx] == a;
    var logs' := CompleteLog(logs, a.id, endMileage, liters, cost, now);
    var cars' := WithStatus(cars, carId, Available);
    forall i | 0 <= i < |cars'|
      ensures OpenCount(logs', cars'[i].id) == if cars'[i].status == Busy then 1 else 0
    {
      CompleteLogOpenCount(logs, idx, endMileage, liters, cost, now, cars[i].id);
      if cars[i].id == carId {
        OpenAtLeastOne(logs, idx);
      }
    }
  }

  /** A car with an open trip has at least one open trip counted. */
  lemma {:induction false} OpenAtLeastOne(logs: seq<TripLog>, idx: nat)
    requires idx < |logs| && !logs[idx].isCompleted
    ensures OpenCount(logs, logs[idx].carId) >= 1
    decreases |logs|
  {
    var init := logs[..|logs| - 1];
    assert logs == init + [logs[|logs| - 1]];
    OpenCountAppend(init, logs[|logs| - 1], logs[idx].carId);
    if idx < |logs| - 1 {
      assert init[idx] == logs[idx];
      OpenAtLeastOne(init, idx);
    } else {
      SumWhereMono(init, LogCarId, OpenWeight, OpenWeight, logs[idx].carId);
    }
  }

  /** On a consistent store a busy car always has the open trip check-in needs. */
  lemma BusyCarHasOpenTrip(cars: seq<Car>, logs: seq<TripLog>, i: nat)
    requires Consistent(cars, logs) && i < |cars| && cars[i].status == Busy
    ensures FirstOpen(logs, cars[i].id).Some?
  {
    var carId := cars[i].id;
    if FirstOpen(logs, carId).None? {
      SumWhereAbsentOpen(logs, carId);
    }
  }

  lemma {:induction false} SumWhereAbsentOpen(logs: seq<TripLog>, carId: CarId)
    requires forall l :: l in logs ==> !(l.carId == carId && !l.isCompleted)
    ensures OpenCount(logs, carId) == 0
    decreases |logs|
  {
    if |logs| > 0 {
      var init := logs[..|logs| - 1];
      assert logs == init + [logs[|logs| - 1]];
      OpenCountAppend(init, logs[|logs| - 1], carId);
      SumWhereAbsentOpen(init, carId);
    }
  }

  /** A row whose id is the next value of the id sequence keeps trip ids unique and
      below the sequence once the sequence moves on. */
  lemma FreshIdKeepsUnique(logs: seq<TripLog>, row: TripLog, n: nat)
    requires UniqueLogIds(logs) && forall i :: 0 <= i < |logs| ==> logs[i].id < n
    requires row.id == n
    ensures UniqueLogIds(logs + [row])
    ensures forall i :: 0 <= i < |logs + [row]| ==> (logs + [row])[i].id < n + 1
  {
  }

  /** Completing a trip leaves every trip id where it was. */
  lemma CompleteLogKeepsIds(logs: seq<TripLog>, logId: nat, endMileage: int, liters: int, cost: int, now: nat, n: nat)
    requires UniqueLogIds(logs) && forall i :: 0 <= i < |logs| ==> logs[i].id < n
    ensures var done := CompleteLog(logs, logId, endMileage, liters, cost, now);
      UniqueLogIds(done) && forall i :: 0 <= i < |done| ==> done[i].id < n
  {
    var done := CompleteLog(logs, logId, endMileage, liters, cost, now);
    assert forall i :: 0 <= i < |done| ==> done[i].id == logs[i].id;
  }

  datatype TakeOutResult = CheckedOut(driverName: string) | StaffNotFound | MissingField | InsertFailed

  datatype ReturnResult = Returned | MissingEndMileage | NoActiveLog

  /** `CarActionForm`: the store it reads and writes, and the component state it keeps. */
  class CarActionForm {
    const carId: CarId
    const staff: seq<StaffRecord>
    var cars: seq<Car>
    var logs: seq<TripLog>
    var nextLogId: nat

    var car: Option<Car>
    var activeLog: Option<TripLog>
    var employeeId: string
    var staffName: string
    var staffPosition: string
    var mileage: Entry
    var selectedLocation: string
    var customLocation: string
    var endMileage: Entry
    var fuelLiters: Entry
    var fuelCost: Entry

    /** Trip ids are unique and below the store's id sequence, and the staff fields are
        the lookup of the current employee code. */
    ghost predicate Valid()
      reads this`logs, this`nextLogId, this`employeeId, this`staffName, this`staffPosition
    {
      && UniqueLogIds(logs)
      && (forall i :: 0 <= i < |logs| ==> logs[i].id < nextLogId)
      && (staffName, staffPosition) == StaffFor(staff, employeeId)
    }

    /** The form as it mounts for `carId`: every field empty. */
    constructor (carId: CarId, staff: seq<StaffRecord>, cars: seq<Car>, logs: seq<TripLog>)
      requires UniqueLogIds(logs)
      ensures Valid()
      ensures this.carId == carId && this.staff == staff && this.cars == cars && this.logs == logs
      ensures car == None && activeLog == None
      ensures employeeId == "" && staffName == "" && staffPosition == ""
      ensures mileage == Blank && selectedLocation == "" && customLocation == ""
      ensures endMileage == Blank && fuelLiters == Blank && fuelCost == Blank
    {
      this.carId := carId;
      this.staff := staff;
      this.cars := cars;
      this.logs := logs;
      nextLogId := NextLogId(logs);
      car, activeLog := None, None;
      employeeId, staffName, staffPosition := "", "", "";
      mileage, selectedLocation, customLocation := Blank, "", "";
      endMileage, fuelLiters, fuelCost := Blank, Blank, Blank;
    }

    /** The mount effect: load the car, then either prefill the start mileage (available
        car) or load the open trip (busy car). */
    method Load()
      requires Valid()
      modifies this`car, this`activeLog, this`mileage
      ensures Valid()
      ensures Mounted(car, activeLog, mileage) == Mount(cars, logs, carId, Mounted(old(car), old(activeLog), old(mileage)))
    {
      var after := Mount(cars, logs, carId, Mounted(car, activeLog, mileage));
      car, activeLog, mileage := after.car, after.activeLog, after.mileage;
    }

    /** The employee-code effect: the code typed in, and the staff lookup it triggers. */
    method EnterEmployeeId(code: string)
      requires Valid()
      modifies this`employeeId, this`staffName, this`staffPosition
      ensures Valid()
      ensures employeeId == code
      ensures |code| < 4 ==> staffName == "" && staffPosition == ""
      ensures staffName != "" ==> exists s :: s in staff && s.staffCode == code && s.fullName == staffName && s.position == staffPosition
      ensures |code| >= 4 && CodeAtMostOnce(staff, code) ==>
        forall s :: s in staff && s.staffCode == code ==> staffName == s.fullName && staffPosition == s.position
    {
      employeeId := code;
      var found := StaffFor(staff, code);
      staffName, staffPosition := found.0, found.1;
    }

    /** `handleTakeOut`: checks the staff name, then the required fields, then inserts the
        open trip and, only if the insert succeeded, marks the car busy. `insertFails`
        is the error the store may return for the insert. */
    method TakeOut(now: nat, insertFails: bool) returns (r: TakeOutResult)
      requires Valid()
      modifies this`cars, this`logs, this`nextLogId
      ensures Valid()
      ensures staffName == "" ==> r == StaffNotFound
      ensures staffName != "" && (employeeId == "" || mileage.Blank? || FinalLocation(selectedLocation, customLocation) == "")
        ==> r == MissingField
      ensures r.CheckedOut? <==>
        staffName != "" && employeeId != "" && mileage.Entered? && FinalLocation(selectedLocation, customLocation) != "" && !insertFails
      ensures r == InsertFailed <==>
        staffName != "" && employeeId != "" && mileage.Entered? && FinalLocation(selectedLocation, customLocation) != "" && insertFails
      ensures !r.CheckedOut? ==> cars == old(cars) && logs == old(logs) && nextLogId == old(nextLogId)
      ensures r.CheckedOut? ==>
        && r.driverName == staffName
        && logs == old(logs) + [CheckoutLog(old(nextLogId), carId, staffName, staffPosition, mileage.value,
                                            FinalLocation(selectedLocation, customLocation), now)]
        && cars == WithStatus(old(cars), carId, Busy)
      ensures r.CheckedOut? ==> |employeeId| >= 4 && exists s :: s in staff && s.staffCode == employeeId && s.fullName == r.driverName
      ensures r.CheckedOut? && old(Consistent(cars, logs)) && old(AllHaveStatus(cars, carId, Available))
        ==> Consistent(cars, logs)
    {
      if staffName == "" {
        return StaffNotFound;
      }
      var finalLocation := FinalLocation(selectedLocation, customLocation);
      if employeeId == "" || mileage.Blank? || finalLocation == "" {
        return MissingField;
      }
      if insertFails {
        return InsertFailed;
      }
      var row := CheckoutLog(nextLogId, carId, staffName, staffPosition, mileage.value, finalLocation, now);
      if Consistent(cars, logs) && AllHaveStatus(cars, carId, Available) {
        CheckoutKeepsConsistent(cars, logs, carId, row);
      }
      FreshIdKeepsUnique(logs, row, nextLogId);
      logs := logs + [row];
      nextLogId := nextLogId + 1;
      cars := WithStatus(cars, carId, Busy);
      r := CheckedOut(staffName);
    }

    /** `handleReturn`: checks the end mileage, then completes the loaded open trip (blank
        fuel fields become 0) and marks the car available. Without a loaded open trip
        the update throws before any write. */
    method Return(now: nat) returns (r: ReturnResult)
      requires Valid()
      modifies this`cars, this`logs
      ensures Valid()
      ensures endMileage.Blank? ==> r == MissingEndMileage
      ensures endMileage.Entered? && activeLog.None? ==> r == NoActiveLog
      ensures r.Returned? <==> endMileage.Entered? && activeLog.Some?
      ensures !r.Returned? ==> cars == old(cars) && logs == old(logs)
      ensures r.Returned? ==>
        && logs == CompleteLog(old(logs), activeLog.value.id, endMileage.value,
                               ValueOrZero(fuelLiters), ValueOrZero(fuelCost), now)
        && cars == WithStatus(old(cars), carId, Available)
      ensures r.Returned? && old(Consistent(cars, logs)) && activeLog == FirstOpen(old(logs), carId)
        ==> Consistent(cars, logs)
    {
      if endMileage.Blank? {
        return MissingEndMileage;
      }
      if activeLog.None? {
        return NoActiveLog;
      }
      var liters, cost := ValueOrZero(fuelLiters), ValueOrZero(fuelCost);
      if Consistent(cars, logs) && activeLog == FirstOpen(logs, carId) {
        CheckinKeepsConsistent(cars, logs, carId, endMileage.value, liters, cost, now);
      }
      CompleteLogKeepsIds(logs, activeLog.value.id, endMileage.value, liters, cost, now, nextLogId);
      logs := CompleteLog(logs, activeLog.value.id, endMileage.value, liters, cost, now);
      cars := WithStatus(cars, carId, Available);
      r := Returned;
    }
  }
}
