# pea-car-system, modelled in Dafny

pea-car-system is a small web application for a provincial electricity office's vehicle
pool. A driver scans a car's QR code and gets a form for taking the car out or bringing
it back. A dashboard aggregates the completed trips. A printable page lists one car's
trips in the office's monthly report format. All data lives in three tables of a hosted
row store: `cars`, `trip_logs` and `staff`.

This project models the logic of the three pages. Each table is a Dafny sequence of
rows.

- `fleet.dfy` (`Fleet`) holds the row types and the readings of nullable columns
  (`x || 0`), plus the day and hour of a timestamp.
- `query.dfy` (`Query`) holds the query builder: `.eq` filters, `.single()`, and
  `.limit(1).single()`.
- `tally.dfy` (`Tally`) holds `reduce` sums and the group-by buckets the dashboard fills
  in JavaScript objects, including the key order of such an object.
- `ordering.dfy` (`Ordering`) holds the stable `sort` with a numeric comparator,
  `.order(...)` and `.slice(0, n)`.
- `car_action.dfy` (`CarAction`) holds `App`'s routing and the class `CarActionForm`.
  Its fields are the form's component state and the store it writes. Its methods are
  the mount effect, the staff lookup, checkout (`handleTakeOut`) and check-in
  (`handleReturn`).
- `dashboard.dfy` (`Dashboard`) holds the aggregation in the dashboard's `fetchData`.
  Each `forEach` that fills a dictionary is a loop over a `map`. Each loop is proved
  equal to a reference definition: per-bucket sums over the trips, in first-appearance
  key order. The listed properties are proved about that definition (buckets add up to
  the totals, `active <= total`, sort order, top-5 slices).
- `report.dfy` (`Report`) holds the report page's data: the trips it lists, its blank
  filler rows, its totals row, its fuel check boxes and its Buddhist-era year.

Times are whole seconds since the epoch. The viewer's time zone is a parameter,
`tzOffset`, in seconds east of UTC. Mileage, litres and money are integers.

## Model

| member | source | states |
|---|---|---|
| CarAction.Route | app/page.js:7-18 | The form is shown exactly when `car_id` is present and non-empty, and it gets that id. Otherwise the read-only status board is shown. |
| CarAction.ValueOrZero | app/page.js:237-238 | Definition: `x ? parseFloat(x) : 0` for the fuel fields, where a blank field reads as 0. |
| CarAction.FinalLocation | app/page.js:204 | Definition: `selectedLocation === 'อื่นๆ' ? customLocation : selectedLocation`. |
| Query.SingleCar | app/page.js:164 | `.eq('id', id).single()` returns a car of the table with that id. It returns a car exactly when one car matches, so it returns NULL when no car or several cars have the id. With unique ids, a car that has the id is the one returned. |
| Query.SingleStaff | app/page.js:183 | `.eq('staff_code', code).single()` returns a staff row with that code. It returns a row exactly when one row matches, so it returns NULL when no row or several have the code. When the code occurs at most once, the result is the row that has it. |
| Query.Filter | app/report/page.js:17-21 | An `.eq` filter keeps exactly the rows that match. It never keeps more rows than it was given. |
| Query.FilterCounts | app/report/page.js:17-21 | The filter keeps each row no more often than the table holds it, and a matching row exactly as often. |
| Query.FilterAppend | app/report/page.js:17-21 | Filtering a concatenation filters each part and joins the results, so kept rows stay in table order. |
| Query.FilterOne | app/report/page.js:19-20 | A one-row table keeps its row exactly when the row matches. |
| Query.Single | app/page.js:164 | Definition: `.single()` yields the row when exactly one row matched, NULL otherwise. |
| Query.First | app/page.js:171 | Definition: `.limit(1).single()` yields the first matching row, NULL when none matched. |
| CarAction.StaffFor | app/page.js:180-193 | Codes shorter than 4 characters clear the name and position. So does a code that `.single()` finds no row for, including a code no staff row has. A code of 4 or more characters with a `.single()` row yields that row's full name and position; with a code on file at most once, that is the name and position of the staff member who has it. |
| CarAction.LatestCompleted | app/page.js:168 | Returns a completed trip of the car, with the latest `created_at` among them. Returns NULL exactly when the car has no completed trip. |
| CarAction.FirstOpen | app/page.js:171 | Returns an open trip of the car. Returns NULL exactly when the car has no open trip. |
| CarAction.Prefill | app/page.js:168-169 | The start mileage is prefilled exactly when the latest completed trip has a non-zero end mileage, and then with that mileage. That trip is one of the car's completed trips with the latest `created_at`. Without a completed trip nothing is prefilled. |
| CarAction.Mount | app/page.js:162-177 | The car is set only when exactly one car has the id. With no such car the form is unchanged. An available car gets its mileage prefilled if there is one to prefill, and its active trip is untouched. A busy car gets its open trip if it has one, and its mileage is untouched. |
| CarAction.CarActionForm.constructor | app/page.js:134-150 | The form starts with every field empty, no car and no active trip. It also starts with trip ids unique and below the id sequence. |
| CarAction.CarActionForm.Load | app/page.js:162-177 | The mount effect moves the form's car, active trip and mileage exactly as `Mount` says. It leaves everything else alone. |
| CarAction.CarActionForm.EnterEmployeeId | app/page.js:180-194 | The code is stored. A code shorter than 4 characters clears the name and position. A non-empty name belongs to a staff row with that code. A code of 4 or more characters that is on file at most once fills in the name and position of its staff member. The staff fields remain the lookup of the code. |
| CarAction.CarActionForm.TakeOut | app/page.js:197-228 | An empty staff name rejects the checkout with no write. Next, an empty code, mileage or final location rejects it with no write. A failed insert is reported as such, writes nothing and skips the status update. On success, exactly one open trip is appended, carrying the looked-up name and position, the entered mileage and the final location, and every car with that id becomes busy. A checkout of an available car keeps the store consistent. |
| CarAction.CarActionForm.Return | app/page.js:231-252 | A blank end mileage rejects the check-in with no write. So does a missing active trip, where the update throws. On success, the active trip is completed with its end mileage and with blank fuel fields taken as 0, and the car becomes available. Completing the car's open trip keeps the store consistent. |
| CarAction.NextLogId | app/page.js:209-217 | The id the store gives an inserted trip is above every id already in the table. |
| CarAction.CheckoutLog | app/page.js:209-217 | Definition: the inserted row, with `car_id`, driver name and position, `parseFloat(mileage)` as start mileage, the final location, the current time and `is_completed: false`. |
| CarAction.WithStatus | app/page.js:219 | Definition: `.from('cars').update({ status }).eq('id', carId)`, also used at app/page.js:243. |
| CarAction.Checkin | app/page.js:235-241 | Definition: the columns check-in writes, namely end mileage, litres, cost, end time and `is_completed: true`. |
| CarAction.CompleteLog | app/page.js:235-241 | Definition: `.update({ ... }).eq('id', activeLog.id)` on the trip table. |
| CarAction.WithStatusWrites | app/page.js:219 | A status update changes only the status of the cars with that id. Every other car is left as it was. |
| CarAction.CompleteLogWrites | app/page.js:235-241 | Completing a trip writes only that trip's end mileage, fuel figures, end time and `is_completed`. Every other trip is left as it was. |
| CarAction.MountedAvailable | app/page.js:162-166 | On a fresh form and unique car ids, a mounted car that is available means every car with that id is available. That is the premise under which `TakeOut` keeps the store consistent. |
| CarAction.CheckoutKeepsConsistent | app/page.js:209-219 | A busy car has exactly one open trip and an available car none. Appending an open trip while marking an available car busy keeps this so. |
| CarAction.CheckinKeepsConsistent | app/page.js:235-243 | Completing the car's open trip while marking the car available keeps the store consistent. |
| CarAction.CompleteLogOpenCount | app/page.js:235-241 | Completing one open trip takes exactly one open trip away from its car. It changes no other car's count. |
| CarAction.OpenCountAppend | app/page.js:209-217 | An inserted trip adds its weight to its own car's count of open trips only. |
| CarAction.OpenAtLeastOne | app/page.js:171 | A car that has an open trip has an open-trip count of at least one. |
| CarAction.SumWhereAbsentOpen | app/page.js:171 | A car without any open trip has an open-trip count of zero. |
| CarAction.BusyCarHasOpenTrip | app/page.js:170-172 | On a consistent store a busy car always has the open trip that check-in completes. |
| CarAction.FreshIdKeepsUnique | app/page.js:209-217 | Inserting a row with the next id keeps trip ids unique and below the id sequence. |
| CarAction.CompleteLogKeepsIds | app/page.js:235-241 | Completing a trip changes no trip id. |
| Dashboard.BusyCount | app/dashboard/page.js:41 | The busy filter's length is the number of busy cars. |
| Dashboard.CompletedLogs | app/dashboard/page.js:33 | Definition: `.from('trip_logs').select(...).eq('is_completed', true)`. |
| Dashboard.AllBusyCount | app/dashboard/page.js:41 | When every car is busy, every car is counted. |
| Dashboard.NoneBusyCount | app/dashboard/page.js:41 | When no car is busy, none is counted. |
| Dashboard.BusyCars | app/dashboard/page.js:41 | The active count is the number of busy cars and is at most the number of cars. It is all of them when all are busy and 0 when all are available. |
| Dashboard.CostPerKm | app/dashboard/page.js:50 | With a positive distance it is the exact ratio of cost to distance. Otherwise it is 0. |
| Dashboard.Summarize | app/dashboard/page.js:39-51 | Trips is the number of completed trips and cars the number of cars. Active counts the busy cars, and active + available = total. Distance is the sum of end minus start mileage, and cost the sum of fuel costs with NULL as 0. The average is `CostPerKm` of these. |
| Dashboard.Last7Days | app/dashboard/page.js:54-58 | Seven distinct consecutive days ending today, oldest first. |
| Dashboard.DailyTrend | app/dashboard/page.js:54-66 | Seven buckets, one per day of the week ending today. Each bucket counts exactly the trips created that day. The buckets add up to at most the number of trips, and to all of them when every trip falls in the week. |
| Dashboard.TrendTotal | app/dashboard/page.js:60-66 | Counting only the seven days never counts more than the trips. It counts every trip when each one falls within the week. |
| Dashboard.TypeMapMeaning | app/dashboard/page.js:76-82 | `typeMap` has a key for each car type seen, `ทั่วไป` for none. Each entry counts that type's cars and its busy cars. |
| Dashboard.CarType | app/dashboard/page.js:78 | Definition: `c.car_type \|\| 'ทั่วไป'`. |
| Dashboard.AddType | app/dashboard/page.js:79-81 | Definition: the `forEach` body that creates the type's entry at 0 when it is missing, raises `total` by one, and raises `active` by one for a busy car. |
| Dashboard.AddTypeEntries | app/dashboard/page.js:77-82 | One step of the pass over the cars keeps every entry equal to the count over the cars seen so far. |
| Dashboard.TallyTypes | app/dashboard/page.js:76-83 | The loop over the cars followed by `Object.entries` yields the per-type table, one entry per type in first-appearance order. |
| Dashboard.TypeValues | app/dashboard/page.js:83 | `Object.entries(typeMap)` lists the per-type table in key order. |
| Dashboard.TypeTableTotals | app/dashboard/page.js:76-83 | Every car falls under exactly one type. The totals add up to the number of cars and the active counts to the number of busy cars. Each type has `0 <= active <= total`. |
| Dashboard.SplitByHour | app/dashboard/page.js:86-92 | Morning counts the trips created before local noon and afternoon the others. Both are non-negative, and together they are the number of trips. |
| Dashboard.LocationMapMeaning | app/dashboard/page.js:98-101 | `locMap` has a key for each location seen, `ไม่ระบุ` for none, counting the trips to it. |
| Dashboard.DriverMapMeaning | app/dashboard/page.js:98-108 | `driverMap` has a key for each driver seen, `ไม่ระบุ` for none, holding the driver's trips and distance. |
| Dashboard.LocationOf | app/dashboard/page.js:100 | Definition: `log.location \|\| 'ไม่ระบุ'`. |
| Dashboard.DriverOf | app/dashboard/page.js:104 | Definition: `log.driver_name \|\| 'ไม่ระบุ'`. |
| Dashboard.AddLocation | app/dashboard/page.js:101 | Definition: `locMap[loc] = (locMap[loc] \|\| 0) + 1`. |
| Dashboard.AddDriver | app/dashboard/page.js:105-107 | Definition: the driver's entry, created at 0 when it is missing, gains one trip and the trip's distance. |
| Dashboard.AddLocationEntries | app/dashboard/page.js:100-101 | One trip's step keeps every location entry equal to the count over the trips seen so far. |
| Dashboard.AddDriverEntries | app/dashboard/page.js:104-107 | One trip's step keeps every driver entry equal to the totals over the trips seen so far. |
| Dashboard.LocationEntries | app/dashboard/page.js:110-111 | `Object.entries(locMap)` lists the location table in key order. |
| Dashboard.DriverEntries | app/dashboard/page.js:114-115 | `Object.entries(driverMap)` lists the driver table in key order. |
| Dashboard.TallyLocationsAndDrivers | app/dashboard/page.js:95-108 | The single pass over the trips yields the location table and the driver table. |
| Dashboard.LocationTableTotal | app/dashboard/page.js:95-101 | The location counts add up to the number of trips, and every listed location has at least one trip. |
| Dashboard.DriverTableTotals | app/dashboard/page.js:102-108 | The drivers' trip counts add up to the number of trips, and their distances to the total distance. |
| Dashboard.TopLocations | app/dashboard/page.js:110-112 | At most 5 locations, in non-increasing count, taken from the table. No location left out has more trips than one kept. |
| Dashboard.TopDrivers | app/dashboard/page.js:114-116 | At most 5 drivers, in non-increasing trips, taken from the table. No driver left out has more trips than one kept. |
| Dashboard.LastCar | app/dashboard/page.js:120-122 | The car whose row survives for an id has that id. There is none exactly when no car has the id. |
| Dashboard.LastCarIsLast | app/dashboard/page.js:120-122 | That car is one after which no car has the same id. It is the car the later assignments leave in place. |
| Dashboard.SeedMapMeaning | app/dashboard/page.js:119-122 | After the pass over the cars there is a key per car id, holding a zero row of the last car with that id. |
| Dashboard.SeedCar | app/dashboard/page.js:121 | Definition: `carMapStats[c.id] = { plate, model, trips: 0, distance: 0, cost: 0 }`. |
| Dashboard.AddTrip | app/dashboard/page.js:124-128 | Definition: a trip whose car has a row adds one trip, its distance and its cost (NULL as 0) to that row. Any other trip changes nothing. |
| Dashboard.RowNext | app/dashboard/page.js:124-127 | One more trip adds one trip, its distance and its cost to its own car's row only. |
| Dashboard.AddTripRow | app/dashboard/page.js:124-127 | One trip's step keeps a known car's entry equal to its totals over the trips seen so far. |
| Dashboard.AddTripEntries | app/dashboard/page.js:123-129 | One trip's step keeps the keys and keeps every entry equal to its car's totals. |
| Dashboard.TripMapMeaning | app/dashboard/page.js:123-129 | The pass over the trips keeps the keys and adds each known car's trips to its row. |
| Dashboard.CarMapMeaning | app/dashboard/page.js:119-129 | After both passes there is a key per car id, holding that car's trips, distance and cost. |
| Dashboard.CarValues | app/dashboard/page.js:130 | `Object.values(carMapStats)` lists one row per car id in first-appearance order. |
| Dashboard.CarTable | app/dashboard/page.js:119-130 | The two loops and the sort yield the per-car rows sorted by distance, largest first. |
| Dashboard.CarTableOrder | app/dashboard/page.js:130 | The car table is in non-increasing distance and has one row per distinct car id. |
| Dashboard.CarTableCoversCars | app/dashboard/page.js:120-122 | Every car has a row, whether or not it has trips. |
| Dashboard.CarTableOneRowPerCar | app/dashboard/page.js:119-130 | With unique car ids the table has exactly as many rows as cars. |
| Dashboard.CarColumnSum | app/dashboard/page.js:123-129 | A column of the car table adds up to the weights of the trips of known cars. |
| Dashboard.CarTableTotals | app/dashboard/page.js:123-129 | The table's trips, distances and costs add up to those of the trips whose car is known. |
| Dashboard.CarTableCountsEveryTrip | app/dashboard/page.js:123-129 | When every trip's car is known, the table accounts for all trips, the whole distance and the whole cost. |
| Dashboard.CarTableIgnoresUnknownCar | app/dashboard/page.js:124 | A trip whose car id is no car's id leaves the table unchanged. |
| Dashboard.Recents | app/dashboard/page.js:35 | At most six trips of any status, newest first, taken from the table. No trip left out is newer than one kept. |
| Dashboard.Headline | app/dashboard/page.js:38-92 | The headline figures, trend, type table and morning/afternoon split, each as stated above. |
| Dashboard.Rankings | app/dashboard/page.js:95-130 | The top locations, top drivers, car table and recent trips, each as stated above. |
| Dashboard.Analyze | app/dashboard/page.js:33-130 | Every figure of the page is computed over the completed trips, and the recent list over all trips. |
| Tally.KeysInOrder | app/dashboard/page.js:83 | An object's keys: distinct, one for each element's key, every one an element's key, and no more keys than elements. |
| Tally.KeysInOrderNext | app/dashboard/page.js:77-79 | One more step of a `forEach` appends the element's key at the end when it is new and otherwise leaves the keys as they are. So keys stand in the order they are first set. |
| Tally.Conservation | app/dashboard/page.js:95-108 | Distinct buckets that cover every element's key add up to the total. |
| Tally.BucketsAtMost | app/dashboard/page.js:60-66 | Distinct buckets of non-negative weights never add up to more than the total. |
| Ordering.SortBy | app/dashboard/page.js:130 | The sort returns the same elements, with multiplicities, in key order. |
| Ordering.InsertStable | app/dashboard/page.js:130 | Inserting an element puts it ahead of every element with the same key and keeps those in order. |
| Ordering.SortByStable | app/dashboard/page.js:130 | The sort is stable: for every key, the elements with that key keep their relative order. |
| Ordering.SortSum | app/dashboard/page.js:130 | Sorting never changes a column sum. |
| Ordering.TopByScore | app/dashboard/page.js:110-116 | `sort` by descending score then `slice(0, n)` keeps the n highest-scoring elements, highest first. |
| Fleet.UtcDay | app/dashboard/page.js:64 | The UTC calendar day containing a timestamp. |
| Fleet.LocalHour | app/dashboard/page.js:88 | The local hour of a timestamp is between 0 and 23. |
| Fleet.OrZero | app/dashboard/page.js:40 | Definition: a nullable number read as `x \|\| 0`, where NULL counts as 0. |
| Fleet.Distance | app/dashboard/page.js:39 | Definition: `log.end_mileage - log.start_mileage`, with a NULL end mileage as 0. |
| Fleet.Cost | app/dashboard/page.js:40 | Definition: `log.fuel_cost \|\| 0`. |
| Fleet.Liters | app/report/page.js:158 | Definition: `Number(b.fuel_liters) \|\| 0`. |
| Report.PickedRows | app/report/page.js:17-20 | The two `.eq` filters keep exactly this car's completed trips. |
| Report.ReportRows | app/report/page.js:17-21 | The listed trips are exactly this car's completed trips, in ascending `created_at`. Each is listed as often as the filtered table holds it. |
| Report.ReportTies | app/report/page.js:21 | Trips with the same `created_at` are listed in table order. |
| Report.Fetch | app/report/page.js:13-23 | A missing or empty `car_id` loads nothing. Otherwise the car is the `.single()` car for that id, and the rows are `ReportRows`. |
| Report.FillerRows | app/report/page.js:33 | There are `max(0, 11 - n)` blank rows, so rows plus blanks are at least 11, and exactly 11 when there are at most 11 trips. |
| Report.TableHeight | app/report/page.js:33 | The table's height is `max(11, n)`. |
| Report.TotalLiters | app/report/page.js:158 | Definition: `logs.reduce((a, b) => a + (Number(b.fuel_liters) \|\| 0), 0)`. |
| Report.TotalCost | app/report/page.js:161 | Definition: `logs.reduce((a, b) => a + (Number(b.fuel_cost) \|\| 0), 0)`. |
| Report.TotalsSplit | app/report/page.js:158-161 | Each trip adds its own litres and cost to the totals once. |
| Report.TotalsSkipMissing | app/report/page.js:158-161 | Missing litre or cost figures count as 0. |
| Report.CarFilterSum | app/report/page.js:19 | Filtering by car and summing gives that car's bucket of the column. |
| Report.ReportMatchesDashboard | app/report/page.js:17-21 | The report and the dashboard's car table agree on the car's trip count, distance and fuel cost. |
| Report.FuelChecks | app/report/page.js:90-93 | Five boxes, one per fuel option. Each box is ticked exactly when the car has loaded and its fuel type is that box's option. At most one is ticked, one is ticked exactly when the fuel type is an option, and none before the car has loaded. |
| Report.BuddhistYear | app/report/page.js:75 | The printed year is the Gregorian year plus 543. |

## Left out

- The row store is not called. Queries, inserts and updates are functions on
  in-memory sequences. A failed read (`data` NULL with an error) is not modelled apart
  from `.single()` returning NULL. The report's `l || []` is the same case.
- `async` ordering and React effects are left out. Each effect runs to completion as
  one method call. The form's text inputs are plain fields, not setter methods. The
  clock timer, `alert`, `window.location`, `window.print`, rendering and the
  `CarSelector` status board are not part of this model.
- CarAction.CarActionForm.TakeOut: the insert and the status update happen in one
  call. The model does not capture another client acting between them, or a status
  update that fails after a successful insert. The source does not check that update's
  error.
- CarAction.CarActionForm.Return: the trip update and the status update are one
  atomic step. Their errors, which the source does not check, are not modelled.
- Mileage, litres and money are integers. `parseFloat` and `Number(...)` parsing of
  the inputs is not modelled, and neither is a non-numeric value that becomes `NaN`
  and then 0.
- Dashboard.CostPerKm: it is an exact rational. The source divides in floating point.
  The chart's `height`, the location `percent`, `maxTrip`, `toFixed` and
  `toLocaleString` are left out. They are display-only.
- Dashboard.DailyTrend: the source builds the seven days by subtracting local calendar
  days and then reading the UTC date. The model takes today's UTC day minus 0..6. It
  does not capture the daylight-saving or midnight edge cases where the two differ.
- Date and locale formatting (`toLocaleDateString('th-TH')`, the month name, the
  weekday labels) is not modelled.
- Report.BuddhistYear: the current Gregorian year is a parameter, because the clock is
  outside the model.
- JavaScript object key order puts integer-like keys first. The model uses pure
  first-appearance order for the type, location, driver and car maps, which matches
  the source whenever no key looks like an array index. Inherited prototype keys are
  not modelled.
- Text length is counted in characters. JavaScript counts UTF-16 units, which matters
  only for the `employeeId.length >= 4` check on unusual input.
- The store's order for equal `created_at` values is unspecified. The model lists
  such ties in table order (`ReportTies`).
- A row of the car table carries the car's id. The source's row has no id, but keys it
  by the id.
- app/layout.tsx (fonts, metadata, a `Suspense` wrapper) is not part of this model.

## Notes on the source

- The driver ranking is sorted by trips (`b.trips - a.trips`), not by distance. The
  model follows the code.
- The report lists every completed trip of the car, with no month filter and no page
  limit, though it is headed as a monthly report. The model follows the code.
- Check-in does not check that a trip was loaded. With no active trip, `activeLog.id`
  throws before any write and the error is only alerted. The model returns
  `NoActiveLog` with no write.
