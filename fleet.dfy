/** Rows of the three tables the application reads and writes: cars, trip_logs and staff.
    The hosted row store itself is not modelled; a table is a sequence of rows.
    A text column that may be NULL is a string whose empty value stands for NULL
    (JavaScript treats both as falsy); a nullable numeric column is an Option. */
module Fleet {

  datatype Option<T> = None | Some(value: T)

  type CarId = string

  /** The two values the `status` column of a car takes. */
  datatype Status = Available | Busy

  datatype Car = Car(
    id: CarId,
    plateNumber: string,
    model: string,
    carType: string,
    fuelType: string,
    status: Status)

  /** A row of trip_logs. Times are seconds since the epoch (UTC); `createdAt` is the
      column the store fills on insert and the one every query orders by. */
  datatype TripLog = TripLog(
    id: nat,
    carId: CarId,
    driverName: string,
    driverPosition: string,
    location: string,
    startMileage: int,
    endMileage: Option<int>,
    fuelLiters: Option<int>,
    fuelCost: Option<int>,
    startTime: nat,
    endTime: Option<nat>,
    createdAt: nat,
    isCompleted: bool)

  datatype StaffRecord = StaffRecord(staffCode: string, fullName: string, position: string)

  /** A nullable number as JavaScript's `x || 0`, `Number(x) || 0` and `null - y` read it:
      NULL counts as 0. */
  function OrZero(v: Option<int>): int
  {
    if v.Some? then v.value else 0
  }

  /** `log.end_mileage - log.start_mileage`. */
  function Distance(l: TripLog): int
  {
    OrZero(l.endMileage) - l.startMileage
  }

  /** `log.fuel_cost || 0`. */
  function Cost(l: TripLog): int
  {
    OrZero(l.fuelCost)
  }

  /** `Number(log.fuel_liters) || 0`. */
  function Liters(l: TripLog): int
  {
    OrZero(l.fuelLiters)
  }

  function CarIdOf(c: Car): CarId
  {
    c.id
  }

  function LogCarId(l: TripLog): CarId
  {
    l.carId
  }

  /** The sort key of `.order('created_at', { ascending: true })`. */
  function CreatedAt(l: TripLog): int
  {
    l.createdAt
  }

  /** The sort key of `.order('created_at', { ascending: false })`. */
  function NegCreatedAt(l: TripLog): int
  {
    -(l.createdAt as int)
  }

  /** No two cars share an id. */
  predicate UniqueCarIds(cars: seq<Car>)
  {
    forall i, j :: 0 <= i < j < |cars| ==> cars[i].id != cars[j].id
  }

  /** No two trip logs share an id. */
  predicate UniqueLogIds(logs: seq<TripLog>)
  {
    forall i, j :: 0 <= i < j < |logs| ==> logs[i].id != logs[j].id
  }

  const SecondsPerDay: nat := 86400
  const SecondsPerHour: nat := 3600

  /** The calendar day of `toISOString().split('T')[0]`: the UTC day number. */
  function UtcDay(t: nat): (d: int)
    ensures d * 86400 <= t < (d + 1) * 86400
  {
    t / SecondsPerDay
  }

  /** `new Date(t).getHours()` in a time zone `tzOffset` seconds east of UTC. */
  function LocalHour(t: nat, tzOffset: int): (h: int)
    ensures 0 <= h < 24
  {
    ((t + tzOffset) / SecondsPerHour) % 24
  }
}
