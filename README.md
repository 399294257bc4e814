# Smart-city services, modelled in Dafny

This project models the four services at the heart of the smart-city back end:

- **sensors**: a registry of city sensors. It supports create, read, update and delete, a
  periodic simulation that writes a fresh reading to every ACTIVE sensor, and a one-off
  seeding of six demo sensors into an empty table.
- **alerts**: alerts with a lifecycle (active, acknowledged, resolved). A periodic threshold
  check walks every sensor and raises at most one active alert per sensor whose reading is
  above its maximum or below its minimum. The severity comes from the ratio of the reading
  to the maximum threshold.
- **population reports**: citizen reports. Queries filter by status or type, newest first.
  Statistics count reports per status, type and priority. A periodic aging pass moves
  reports that are pending and were created over an hour ago to in-progress (60 % draw),
  then moves reports that are in progress and were created over two hours ago to resolved
  (40 %) or rejected (10 %). Both ages are measured from `createdAt`, not from the last
  status change.
- **dashboard**: read-only views over the other three. These are an overview with counts, a
  map view of sensors, active alerts and pending reports, and analytics that group sensors
  by type and status and alerts by level and by day over the last seven days.

Each repository table is a class holding `table: map<int, Row>` and the autoincrement counter
`nextId`. The class invariant `Tables.WellFormed` says:

- every key lies below `nextId`;
- every row's id is its key.

Rows are listed in id order. `ORDER BY createdAt DESC` is a stable insertion sort
(`Tables.SortDesc`) proved to return a sorted permutation. `GROUP BY … COUNT(*)` is
`Tables.CountBy`, proved to add up to the number of rows.

Three things that are I/O in the program are parameters of the model:

- the clock is an `int` of milliseconds (`now`);
- `Math.random()` draws are functions from a row id to a `real`;
- number-to-text conversion is a function `show`.

JavaScript truthiness of nullable numbers and strings is written out in `Wrappers.Truthy`,
`TruthyId` and `TruthyText`.

Files:

- `wrappers.dfy`: Option, Result and truthiness.
- `tables.dfy`: the table, listing, filter, sort and group-by specifications, with their lemmas.
- `sensor.dfy`, `alert.dfy`, `population.dfy`, `dashboard.dfy`: one module per service.

Where the code and its description differ, the model follows the code:

- The threshold check evaluates all sensors, not only the active ones (`findAll` at
  alert.service.ts:75).
- A below-minimum breach takes its severity from the maximum threshold (line 94), so with a
  positive maximum and min ≤ max it is always LOW (`Alerts.BelowMinBreachIsLow`).
- The aging pass's `updatedCount` counts status updates. A report that goes from pending to
  in-progress and then to resolved in one pass counts twice (`Population.PassDoubleAdvance`).

## Model

| member | source | states |
|---|---|---|
| Sensors.NewSensor | src/sensor/sensor.entity.ts:43-47 | a created sensor takes the given id and the creation time, has no last reading, and its status defaults to ACTIVE |
| Sensors.PatchProperties | src/sensor/sensor.service.ts:38 | a partial update keeps the id and creation time, applying it twice is applying it once, and the empty patch changes nothing |
| Sensors.SensorRegistry.FindAll | src/sensor/sensor.service.ts:14-16 | every stored sensor is listed, each listed sensor is the row stored under its id, one entry per row, in increasing id order |
| Sensors.SensorRegistry.FindOne | src/sensor/sensor.service.ts:18-23 | a falsy id (missing or 0) is an error, otherwise the result is the row with that id or null |
| Sensors.SensorRegistry.Create | src/sensor/sensor.service.ts:25-28 | the new sensor is stored under a fresh id, the counter advances by one and no other row changes |
| Sensors.SensorRegistry.Update | src/sensor/sensor.service.ts:30-40 | a falsy id gives "ID is required to update a sensor" and a missing patch gives "Update data is required", both leaving the table unchanged; otherwise only that row is patched and the re-read row is returned |
| Sensors.SensorRegistry.Delete | src/sensor/sensor.service.ts:42-44 | exactly that id is removed |
| Sensors.SensorRegistry.UpdateSensorReading | src/sensor/sensor.service.ts:56-61 | only that sensor's current value and last-reading time change; a missing id changes nothing |
| Sensors.SimulatedProperties | src/sensor/sensor.service.ts:65-78 | the simulation keeps every key, gives each ACTIVE sensor its drawn value and the current time, and leaves the others untouched |
| Sensors.ReadingsForEach | src/sensor/sensor.service.ts:72-75 | updating the listed sensors one by one updates each listed sensor once and no other |
| Sensors.ActiveListComplete | src/sensor/sensor.service.ts:68-70 | the ACTIVE query lists every active sensor, each once, in increasing id order |
| Sensors.ActiveList | src/sensor/sensor.service.ts:68-70 | the ACTIVE query lists only ACTIVE sensors of the table |
| Sensors.Simulated | src/sensor/sensor.service.ts:65-78 | the table after one simulation tick; its properties are stated by SimulatedProperties |
| Sensors.SensorRegistry.ReadAll | src/sensor/sensor.service.ts:72-75 | the simulation's loop writes the readings of the listed sensors one after the other |
| Sensors.SensorRegistry.SimulateSensorReadings | src/sensor/sensor.service.ts:65-78 | the loop leaves the table equal to the simulated table |
| Sensors.FakeSensors | src/sensor/sensor.service.ts:89-150 | six demo sensors, none with a status or a reading, each with min threshold < max threshold |
| Sensors.Seeded | src/sensor/sensor.service.ts:81-157 | the table after seeding; its properties are stated by SeededProperties |
| Sensors.SeededProperties | src/sensor/sensor.service.ts:81-157 | a non-empty table is left alone; an empty one receives six ACTIVE sensors under exactly the ids nextId to nextId + 5, each row under its own id, with no reading and min < max, and the counter advances by six; seeding twice is seeding once |
| Sensors.SeedRowsAt | src/sensor/sensor.service.ts:152-154 | the i-th created row is the i-th demo sensor under id nextId + i |
| Sensors.SensorRegistry.CreateAll | src/sensor/sensor.service.ts:152-154 | the creation loop stores exactly the seeded rows and advances the counter by their number |
| Sensors.SensorRegistry.InitializeFakeSensors | src/sensor/sensor.service.ts:81-157 | the method leaves the seeded table and counter |
| Alerts.NewAlert | src/alert/alert.entity.ts:34-39 | a created alert takes the given id and creation time, is neither acknowledged nor resolved, and its status defaults to ACTIVE |
| Alerts.LifecyclePatches | src/alert/alert.service.ts:52-64 | acknowledging sets ACKNOWLEDGED and the time, resolving sets RESOLVED and the time and keeps the acknowledgement, and acknowledging a resolved alert reopens it as ACKNOWLEDGED |
| Alerts.AlertTable.FindAll | src/alert/alert.service.ts:17-22 | every stored alert is listed, each listed alert is the row stored under its id, one entry per row, newest first |
| Alerts.AlertTable.FindActive | src/alert/alert.service.ts:24-30 | exactly the stored ACTIVE alerts are listed, each the row under its id and no id twice, newest first |
| Alerts.AlertTable.FindOne | src/alert/alert.service.ts:32-37 | the result is present exactly when the id is in the table, and is the row stored under that id |
| Alerts.AlertTable.Create | src/alert/alert.service.ts:39-42 | the new alert is stored under a fresh id, the counter advances by one and no other row changes |
| Alerts.AlertTable.Update | src/alert/alert.service.ts:44-50 | a falsy id or a missing patch gives "ID and update data are required" and changes nothing; otherwise only that row is patched and the re-read row is returned |
| Alerts.AlertTable.Acknowledge | src/alert/alert.service.ts:52-57 | a falsy id is an error, a missing id gives null, otherwise only that alert becomes ACKNOWLEDGED at `now`; at most one active alert per sensor stays true |
| Alerts.AlertTable.Resolve | src/alert/alert.service.ts:59-64 | as Acknowledge, with RESOLVED and resolvedAt |
| Alerts.AlertTable.Delete | src/alert/alert.service.ts:66-68 | exactly that id is removed, keeping at most one active alert per sensor |
| Alerts.ActiveNewestFirst | src/alert/alert.service.ts:24-30 | the active query returns exactly the ACTIVE alerts, as a permutation of the filtered rows, newest first |
| Alerts.NewestFirst | src/alert/alert.service.ts:17-22 | listing all alerts returns a permutation of them, newest first |
| Alerts.DetermineAlertLevel | src/alert/alert.service.ts:131-138 | the level ladder over 100 · value / threshold; its properties are stated by LevelLadder, LevelMonotone, LevelExamples and BelowMinBreachIsLow |
| Alerts.LevelLadder | src/alert/alert.service.ts:131-138 | for a positive threshold the level is CRITICAL at ≥ 150 % of it, HIGH at ≥ 125 %, MEDIUM at ≥ 110 %, otherwise LOW; the sensor type plays no part |
| Alerts.LevelMonotone | src/alert/alert.service.ts:131-138 | a larger reading never gives a lower level |
| Alerts.LevelExamples | src/alert/alert.service.ts:132-137 | the cut-offs are inclusive: 150/100 is CRITICAL, 125/100 HIGH, 110/100 MEDIUM, 109/100 LOW |
| Alerts.BelowMinBreachIsLow | src/alert/alert.service.ts:79-94 | with a positive maximum, a reading below a minimum that is itself at most the maximum always gives LOW, because the ratio uses the maximum threshold |
| Alerts.Breach | src/alert/alert.service.ts:79-84 | a sensor is considered only when its value and max threshold are truthy; it breaches iff value > max or (min is truthy and value < min), and the direction is "above" iff value > max |
| Alerts.GenerateAlertDescription | src/alert/alert.service.ts:140-147 | the description text; its properties are stated by DescriptionDirection and DescriptionCitesThreshold |
| Alerts.DescriptionDirection | src/alert/alert.service.ts:140-147 | right after the head, the description reads "acima" when above and "abaixo" when below; the two words differ in their second letter, so the two texts differ |
| Alerts.DescriptionCitesThreshold | src/alert/alert.service.ts:140-147 | the number cited as the limit is the max threshold in the "above" text and the min threshold in the "below" text, between texts that do not depend on the direction, and it is found at its offset |
| Alerts.FalsyNeverAlerts | src/alert/alert.service.ts:79 | a sensor with a falsy value or max threshold never raises an alert |
| Alerts.CreatedAlertContents | src/alert/alert.service.ts:93-108 | a raised alert is ACTIVE, points at its sensor, copies its position and reading, is titled "Alerta - " + name, and has the computed level and description |
| Alerts.Raise | src/alert/alert.service.ts:79-109 | one sensor's turn of the threshold check; its properties are stated by the lemmas below |
| Alerts.Tick | src/alert/alert.service.ts:72-116 | the whole threshold check over the listed sensors; its properties are stated by the Tick lemmas |
| Alerts.RaiseInvariants | src/alert/alert.service.ts:84-109 | one sensor's turn keeps the table well formed and keeps at most one ACTIVE alert per sensor |
| Alerts.RaiseAddsAtMostOne | src/alert/alert.service.ts:93-108 | one sensor's turn either changes nothing or adds exactly one row under the next id and advances the counter |
| Alerts.RaiseCreates | src/alert/alert.service.ts:84-108 | a breaching sensor with no ACTIVE alert gets a new alert under the next id, whatever ACKNOWLEDGED or RESOLVED alerts it has |
| Alerts.RaiseCovers | src/alert/alert.service.ts:84-108 | after its turn a breaching sensor has an ACTIVE alert, old or new |
| Alerts.TickCovers | src/alert/alert.service.ts:78-111 | after the tick every breaching sensor of the list has an ACTIVE alert |
| Alerts.TickFrame | src/alert/alert.service.ts:78-111 | the tick never modifies or removes an existing alert |
| Alerts.TickNewIds | src/alert/alert.service.ts:97-108 | the tick only adds alerts under consecutive fresh ids, one per increment of the counter |
| Alerts.TickCreates | src/alert/alert.service.ts:84-108 | every alert the tick creates was raised for some sensor of the list |
| Alerts.TickKeepsOneActive | src/alert/alert.service.ts:86-93 | if each sensor had at most one ACTIVE alert before the tick, that still holds after it |
| Alerts.TickSuppresses | src/alert/alert.service.ts:86-93 | a sensor that already has an ACTIVE alert gets no new one |
| Alerts.RaiseTwiceIsOnce | src/alert/alert.service.ts:86-93 | listing a sensor twice in one tick raises the same alerts as listing it once |
| Alerts.AlertTable.CheckSensor | src/alert/alert.service.ts:79-109 | one iteration performs that sensor's turn and reports whether it created an alert |
| Alerts.AlertTable.CheckSensorThresholds | src/alert/alert.service.ts:72-116 | the loop performs the tick over all sensors; alertsGenerated equals the number of new rows; at most one active alert per sensor is preserved |
| Population.NewReport | src/population/population-report.entity.ts:43-54 | a created report takes the given id and creation time, is unresolved, and defaults to priority MEDIUM and status PENDING |
| Population.ByStatus | src/population/population.service.ts:20-25 | exactly the reports with that status, as a permutation of the filtered rows, newest first |
| Population.ByType | src/population/population.service.ts:27-32 | exactly the reports of that type, as a permutation of the filtered rows, newest first |
| Population.ReportTable.FindAll | src/population/population.service.ts:14-18 | every stored report is listed, each listed report is the row stored under its id, one entry per row, newest first |
| Population.ReportTable.FindByStatus | src/population/population.service.ts:20-25 | exactly the stored reports with that status are listed, each the row under its id and no id twice, newest first |
| Population.ReportTable.FindByType | src/population/population.service.ts:27-32 | exactly the stored reports of that type are listed, each the row under its id and no id twice, newest first |
| Population.ReportTable.Statistics | src/population/population.service.ts:66-93 | over the whole table the total is the number of reports and the four status counts add up to it |
| Population.ReportTable.FindOne | src/population/population.service.ts:34-36 | the result is present exactly when the id is in the table, and is the row stored under that id |
| Population.ReportTable.Create | src/population/population.service.ts:38-41 | the new report is stored under a fresh id and the counter advances by one |
| Population.ReportTable.Update | src/population/population.service.ts:43-46 | only that row is patched and the re-read row (or null) is returned |
| Population.StatusPatchEffect | src/population/population.service.ts:48-60 | a status update sets the status, sets the notes only when they are truthy, and stamps resolvedAt only when the new status is RESOLVED |
| Population.ReportTable.UpdateStatus | src/population/population.service.ts:48-60 | only that row receives the status patch |
| Population.ReportTable.Delete | src/population/population.service.ts:62-64 | exactly that id is removed |
| Population.GetStatistics | src/population/population.service.ts:66-93 | the total is the number of reports, and every group in byType and byPriority has at least one member |
| Population.StatusCountsPartition | src/population/population.service.ts:67-71 | the four status counts add up to the total |
| Population.StatisticsAddUp | src/population/population.service.ts:73-91 | the byType and byPriority groups each add up to the total, and each group's count is the number of reports with that key |
| Population.Aged | src/population/population.service.ts:113-147 | the table after one phase of the aging pass; its properties are stated by ReviewPhase and ClosePhase |
| Population.Pass | src/population/population.service.ts:110-152 | the table after the whole aging pass; its properties are stated by PassForwardOnly and PassDoubleAdvance |
| Population.ReviewPhase | src/population/population.service.ts:113-128 | the review phase moves only PENDING reports older than an hour, and only to IN_PROGRESS with its note |
| Population.ClosePhase | src/population/population.service.ts:130-147 | the closing phase moves only IN_PROGRESS reports older than two hours, and only to RESOLVED (stamping resolvedAt) or REJECTED with the matching note |
| Population.PassForwardOnly | src/population/population.service.ts:110-152 | the pass keeps every key, never moves a report backwards, leaves closed reports and reports younger than an hour alone |
| Population.PassDoubleAdvance | src/population/population.service.ts:114-147 | a report pending for over two hours with low draws is moved in both phases and ends RESOLVED in one pass |
| Population.MoversChangeStatus | src/population/population.service.ts:120-146 | each counted update changes the report's status by exactly one step |
| Population.AgedForEach | src/population/population.service.ts:122-147 | handling the listed reports one by one gives each listed report its outcome once and leaves the rest alone |
| Population.MoveCountDistinct | src/population/population.service.ts:120-146 | over distinct ids the counter equals the number of reports whose draw picks a target |
| Population.StaleListComplete | src/population/population.service.ts:114-135 | the phase query lists every stale report, once each, in id order |
| Population.ReportTable.HandleAll | src/population/population.service.ts:122-147 | a phase's loop performs the listed updates and counts them |
| Population.ReportTable.RunPhase | src/population/population.service.ts:113-147 | one phase leaves the aged table and returns the number of reports it moved |
| Population.ReportTable.UpdateReportStatuses | src/population/population.service.ts:110-152 | the method leaves the table after both phases; updatedCount is the number of reports moved by the review phase plus the number moved by the closing phase |
| Dashboard.SensorName | src/dashboard/dashboard.service.ts:55 | an alert's sensor name is the name of the sensor with its sensorId, or absent when there is no sensor id or no such sensor |
| Dashboard.SummarizeSensors | src/dashboard/dashboard.service.ts:35-46 | one summary per sensor, in order, carrying its id, position and reading |
| Dashboard.SummarizeAlerts | src/dashboard/dashboard.service.ts:47-56 | one summary per alert, in order, carrying its id and position and its sensor's name |
| Dashboard.GetDashboardOverview | src/dashboard/dashboard.service.ts:14-59 | the totals match the listed sensors and alerts, and the report figures are the population statistics |
| Dashboard.OverviewCounts | src/dashboard/dashboard.service.ts:21-31 | activeSensors counts the ACTIVE sensors; totalAlerts counts the ACTIVE alerts; critical and high count the ACTIVE alerts of that level; critical + high ≤ total |
| Dashboard.OverviewAlerts | src/dashboard/dashboard.service.ts:14-56 | one entry per ACTIVE alert: every entry comes from an ACTIVE alert of the table with the same id, every ACTIVE alert has an entry, newest first |
| Dashboard.SensorPins | src/dashboard/dashboard.service.ts:69-78 | one pin per sensor, in order, with its id and position |
| Dashboard.AlertPins | src/dashboard/dashboard.service.ts:79-86 | one pin per alert, in order, with its id and position |
| Dashboard.ReportPins | src/dashboard/dashboard.service.ts:87-95 | one pin per report, in order, with its id and position |
| Dashboard.GetMapData | src/dashboard/dashboard.service.ts:61-97 | the map view; its properties are stated by MapDataCounts, MapAlertPins and MapReportPins |
| Dashboard.MapDataCounts | src/dashboard/dashboard.service.ts:61-97 | the map holds one pin per sensor, per ACTIVE alert and per PENDING report |
| Dashboard.MapAlertPins | src/dashboard/dashboard.service.ts:61-86 | every alert pin comes from an ACTIVE alert with the same id and position |
| Dashboard.MapReportPins | src/dashboard/dashboard.service.ts:61-95 | every report pin comes from a PENDING report with the same id and position |
| Dashboard.RecentAlerts | src/dashboard/dashboard.service.ts:119-122 | the recent alerts are exactly those created at or after seven days before now |
| Dashboard.GetAnalytics | src/dashboard/dashboard.service.ts:99-146 | the totals are the numbers of sensors and alerts, recent is the number of recent alerts, and the population part is the statistics; what each byType, byStatus, byLevel and byDay entry counts is stated by SensorTypeCount, SensorStatusCount, AlertLevelCount and DayCount |
| Dashboard.AnalyticsAddUp | src/dashboard/dashboard.service.ts:107-142 | the by-type, by-status, by-level and by-day groups each add up to their total, and each group has at least one member |
| Dashboard.SensorTypeCount | src/dashboard/dashboard.service.ts:107-110 | the count under a sensor type is the number of sensors of that type |
| Dashboard.SensorStatusCount | src/dashboard/dashboard.service.ts:134-137 | the count under a sensor status is the number of sensors with that status |
| Dashboard.AlertLevelCount | src/dashboard/dashboard.service.ts:113-116 | the count under a level is the number of alerts of that level |
| Dashboard.DayCount | src/dashboard/dashboard.service.ts:119-127 | the count under a day is the number of alerts created in the last seven days on that day |
| Dashboard.DayBucketWitness | src/dashboard/dashboard.service.ts:122-127 | every day bucket holds at least one recent alert created on that day |
| Dashboard.DayBuckets | src/dashboard/dashboard.service.ts:119-127 | day buckets start no earlier than the day seven days ago; when no alert is in the future they end no later than today, seven days after that first day |

## Left out

- `findByLocation` (sensor.service.ts:46-54) is a great-circle SQL filter over floating point. It is not modelled.
- The random generators are not modelled: `generateSimulatedValue`, `generateRandomAlerts`/`generateRandomAlert` and `generateFakeReports`/`generateRandomReport`. Their draws enter the model only as parameters (`valueFor`, `pendingDraw`, `progressDraw`).
- Draws are keyed by row id, not taken from one random sequence. This is exact because each phase visits a row at most once.
- Cron scheduling and concurrency are not modelled. This includes interleaved ticks and the check-then-create race in the threshold check; each periodic job is one sequential call.
- Controllers, modules, bootstrap and the `console.log` messages are not part of this model.
- Sensors.SensorRegistry.FindAll, Alerts.AlertTable.FindAll and the other listing functions do not model the `relations: ['sensor']` join. The dashboard looks the sensor up in the sensor list it is given (`Dashboard.SensorName`).
- Timestamps are integer milliseconds. Date objects, ISO formatting and time zones are not modelled.
- `Dashboard.DayOf` is the UTC day number that `toISOString().split('T')[0]` names.
- Dashboard.SevenDaysAgo is `now - 7 days` in milliseconds. The local-time `setDate` step that can differ by an hour across a daylight-saving change is not modelled.
- Numbers are exact `real`s. Floating-point rounding is not modelled, nor the precision and scale of the decimal columns.
- Alerts.GenerateAlertDescription takes the number-to-text conversion as a parameter `show`.
- Alerts.DetermineAlertLevel is modelled as written for a zero threshold too, but the tick never calls it with one.
- The error TypeORM raises for an empty update object is not modelled. Patches are applied field by field.
- Alerts.NewestFirst, Population.ByStatus and the other sorted listings do not model the database's order among rows with equal `createdAt`. The model uses a stable sort of the id-ordered rows.
- Storage failures and exceptions raised by the database are not modelled.
- One `now` stands for every clock read of a call. The source reads the clock separately for each phase's cut-off (population.service.ts:117 and :134), for `resolvedAt` (:56) and at each save's creation date; the model does not capture time passing within one tick or pass.
- Sensors.PatchProperties: request bodies are passed to the repository unfiltered in the source, so a patch can carry `id` or `createdAt`; the model's patches have no such fields, so keeping the id and creation time holds by construction.
- Sensors.SensorRegistry.Create: a body carrying `id`, `createdAt` or `lastReading` is not modelled; an explicit id, which `save` would upsert, cannot be expressed.
- Sensors.SensorRegistry.Update: a patch carrying `id` or `createdAt` is not modelled.
- Alerts.AlertTable.Create: a body carrying `id`, `createdAt`, `acknowledgedAt` or `resolvedAt` is not modelled; an explicit id, which `save` would upsert, cannot be expressed.
- Alerts.AlertTable.Update: a patch carrying `id` or `createdAt` is not modelled.
- Population.ReportTable.Create: a body carrying `id`, `createdAt` or `resolvedAt` is not modelled; an explicit id, which `save` would upsert, cannot be expressed.
- Population.ReportTable.Update: a patch carrying `id` or `createdAt` is not modelled.
