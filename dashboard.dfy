/**
 * The dashboard: read-only aggregates over snapshots of the three tables. The
 * overview (counts and summaries), the map layers (pins) and the analytics
 * (GROUP BY counts and the seven-day window of alerts, bucketed per UTC day).
 */
module Dashboard {
  import opened Wrappers
  import opened Tables
  import S = Sensors
  import A = Alerts
  import P = Population

  // ---------------------------------------------------------------------
  // getDashboardOverview

  /** The overview's headline numbers. */
  datatype Counts = Counts(
    totalSensors: nat,
    activeSensors: nat,
    totalAlerts: nat,
    criticalAlerts: nat,
    highAlerts: nat,
    pendingReports: nat,
    totalReports: nat)

  /** One sensor as the overview shows it. */
  datatype SensorSummary = SensorSummary(
    id: int,
    name: string,
    sensorType: S.SensorType,
    status: S.SensorStatus,
    currentValue: Option<real>,
    unit: Option<string>,
    location: string,
    latitude: real,
    longitude: real,
    lastReading: Option<int>)

  /** One ACTIVE alert as the overview shows it, with the name of its sensor when the join finds one. */
  datatype AlertSummary = AlertSummary(
    id: int,
    title: string,
    level: A.AlertLevel,
    location: string,
    latitude: real,
    longitude: real,
    createdAt: int,
    sensorName: Option<string>)

  datatype Overview = Overview(
    overview: Counts,
    sensors: seq<SensorSummary>,
    alerts: seq<AlertSummary>,
    populationReports: P.Statistics)

  predicate IsCritical(a: A.Alert) {
    a.level == A.Critical
  }

  predicate IsHigh(a: A.Alert) {
    a.level == A.High
  }

  predicate IsActiveCritical(a: A.Alert) {
    A.IsActive(a) && IsCritical(a)
  }

  predicate IsActiveHigh(a: A.Alert) {
    A.IsActive(a) && IsHigh(a)
  }

  /** The `sensor` relation of an alert: the name of the first sensor carrying its sensorId, if any. */
  function SensorName(sensors: seq<S.Sensor>, sensorId: Option<int>): (name: Option<string>)
    ensures name.Some? ==>
      && sensorId.Some?
      && exists i :: 0 <= i < |sensors| && sensors[i].id == sensorId.value && sensors[i].name == name.value
    ensures name.None? ==> sensorId.None? || forall i :: 0 <= i < |sensors| ==> sensors[i].id != sensorId.value
  {
    if sensorId.None? || sensors == [] then None
    else if sensors[0].id == sensorId.value then Some(sensors[0].name)
    else
      var rest := SensorName(sensors[1..], sensorId);
      assert forall i :: 1 <= i < |sensors| ==> sensors[i] == sensors[1..][i - 1];
      rest
  }

  function SummarizeSensors(sensors: seq<S.Sensor>): (r: seq<SensorSummary>)
    ensures |r| == |sensors|
    ensures forall i :: 0 <= i < |r| ==>
      && r[i].id == sensors[i].id && r[i].status == sensors[i].status
      && r[i].latitude == sensors[i].latitude && r[i].longitude == sensors[i].longitude
      && r[i].currentValue == sensors[i].currentValue && r[i].lastReading == sensors[i].lastReading
  {
    seq(|sensors|, i requires 0 <= i < |sensors| =>
      var s := sensors[i];
      SensorSummary(s.id, s.name, s.sensorType, s.status, s.currentValue, s.unit, s.location,
                    s.latitude, s.longitude, s.lastReading))
  }

  function SummarizeAlerts(alerts: seq<A.Alert>, sensors: seq<S.Sensor>): (r: seq<AlertSummary>)
    ensures |r| == |alerts|
    ensures forall i :: 0 <= i < |r| ==>
      && r[i].id == alerts[i].id && r[i].level == alerts[i].level && r[i].createdAt == alerts[i].createdAt
      && r[i].latitude == alerts[i].latitude && r[i].longitude == alerts[i].longitude
      && r[i].sensorName == SensorName(sensors, alerts[i].sensorId)
  {
    seq(|alerts|, i requires 0 <= i < |alerts| =>
      var a := alerts[i];
      AlertSummary(a.id, a.title, a.level, a.location, a.latitude, a.longitude, a.createdAt,
                   SensorName(sensors, a.sensorId)))
  }

  /**
   * `getDashboardOverview` over the sensor listing, the alert listing and the report listing:
   * the alert part looks only at the ACTIVE alerts, newest first (the `findActive` query).
   */
  function GetDashboardOverview(sensors: seq<S.Sensor>, alerts: seq<A.Alert>, reports: seq<P.Report>): (o: Overview)
    ensures o.overview.totalSensors == |o.sensors| == |sensors|
    ensures o.overview.totalAlerts == |o.alerts|
    ensures o.populationReports == P.GetStatistics(reports)
    ensures o.overview.pendingReports == o.populationReports.pending
    ensures o.overview.totalReports == o.populationReports.total == |reports|
  {
    var active := A.ActiveNewestFirst(alerts);
    var stats := P.GetStatistics(reports);
    Overview(
      Counts(|sensors|, |Filter(sensors, S.IsActive)|, |active|,
             |Filter(active, IsCritical)|, |Filter(active, IsHigh)|, stats.pending, stats.total),
      SummarizeSensors(sensors),
      SummarizeAlerts(active, sensors),
      stats)
  }

  /**
   * The overview counts what it says: ACTIVE sensors; ACTIVE alerts only (not all alerts);
   * critical and high among the ACTIVE alerts, which together never exceed the ACTIVE alerts.
   */
  lemma OverviewCounts(sensors: seq<S.Sensor>, alerts: seq<A.Alert>, reports: seq<P.Report>)
    ensures var c := GetDashboardOverview(sensors, alerts, reports).overview;
      && c.activeSensors == |Filter(sensors, S.IsActive)| <= c.totalSensors
      && c.totalAlerts == |Filter(alerts, A.IsActive)|
      && c.criticalAlerts == |Filter(alerts, IsActiveCritical)|
      && c.highAlerts == |Filter(alerts, IsActiveHigh)|
      && c.criticalAlerts + c.highAlerts <= c.totalAlerts
  {
    var active := A.ActiveNewestFirst(alerts);
    var filtered := Filter(alerts, A.IsActive);
    assert |active| == |filtered| by {
      assert |multiset(active)| == |multiset(filtered)|;
    }
    FilterPermutation(active, filtered, IsCritical);
    FilterPermutation(active, filtered, IsHigh);
    FilterFilter(alerts, A.IsActive, IsCritical, IsActiveCritical);
    FilterFilter(alerts, A.IsActive, IsHigh, IsActiveHigh);
    FilterDisjoint(active, IsCritical, IsHigh);
  }

  /**
   * The overview lists the ACTIVE alerts newest first, each one exactly once: one entry per
   * ACTIVE alert of the listing, every ACTIVE alert has an entry, and every entry is one.
   */
  lemma OverviewAlerts(sensors: seq<S.Sensor>, alerts: seq<A.Alert>, reports: seq<P.Report>)
    ensures var o := GetDashboardOverview(sensors, alerts, reports);
      var active := A.ActiveNewestFirst(alerts);
      && |o.alerts| == |active| == |Filter(alerts, A.IsActive)|
      && (forall i :: 0 <= i < |o.alerts| ==> A.IsActive(active[i]) && active[i] in alerts && o.alerts[i].id == active[i].id)
      && (forall a :: a in alerts && A.IsActive(a) ==> exists i :: 0 <= i < |o.alerts| && active[i] == a && o.alerts[i].id == a.id)
      && (forall i, j :: 0 <= i < j < |o.alerts| ==> o.alerts[i].createdAt >= o.alerts[j].createdAt)
  {
    var active := A.ActiveNewestFirst(alerts);
    assert forall i :: 0 <= i < |active| ==> active[i] in active;
    assert |active| == |Filter(alerts, A.IsActive)| by {
      assert |multiset(active)| == |multiset(Filter(alerts, A.IsActive))|;
    }
  }

  // ---------------------------------------------------------------------
  // getMapData

  datatype SensorPin = SensorPin(
    id: int,
    name: string,
    sensorType: S.SensorType,
    status: S.SensorStatus,
    latitude: real,
    longitude: real,
    currentValue: Option<real>,
    unit: Option<string>)

  datatype AlertPin = AlertPin(
    id: int,
    title: string,
    level: A.AlertLevel,
    latitude: real,
    longitude: real,
    createdAt: int)

  datatype ReportPin = ReportPin(
    id: int,
    title: string,
    reportType: P.ReportType,
    priority: P.Priority,
    latitude: real,
    longitude: real,
    createdAt: int)

  datatype MapData = MapData(sensors: seq<SensorPin>, alerts: seq<AlertPin>, reports: seq<ReportPin>)

  function SensorPins(sensors: seq<S.Sensor>): (r: seq<SensorPin>)
    ensures |r| == |sensors|
    ensures forall i :: 0 <= i < |r| ==>
      r[i].id == sensors[i].id && r[i].latitude == sensors[i].latitude && r[i].longitude == sensors[i].longitude
  {
    seq(|sensors|, i requires 0 <= i < |sensors| =>
      var s := sensors[i];
      SensorPin(s.id, s.name, s.sensorType, s.status, s.latitude, s.longitude, s.currentValue, s.unit))
  }

  function AlertPins(alerts: seq<A.Alert>): (r: seq<AlertPin>)
    ensures |r| == |alerts|
    ensures forall i :: 0 <= i < |r| ==>
      r[i].id == alerts[i].id && r[i].latitude == alerts[i].latitude && r[i].longitude == alerts[i].longitude
  {
    seq(|alerts|, i requires 0 <= i < |alerts| =>
      var a := alerts[i];
      AlertPin(a.id, a.title, a.level, a.latitude, a.longitude, a.createdAt))
  }

  function ReportPins(reports: seq<P.Report>): (r: seq<ReportPin>)
    ensures |r| == |reports|
    ensures forall i :: 0 <= i < |r| ==>
      r[i].id == reports[i].id && r[i].latitude == reports[i].latitude && r[i].longitude == reports[i].longitude
  {
    seq(|reports|, i requires 0 <= i < |reports| =>
      var p := reports[i];
      ReportPin(p.id, p.title, p.reportType, p.priority, p.latitude, p.longitude, p.createdAt))
  }

  /** `getMapData`: every sensor, the ACTIVE alerts newest first, the PENDING reports newest first. */
  function GetMapData(sensors: seq<S.Sensor>, alerts: seq<A.Alert>, reports: seq<P.Report>): MapData {
    MapData(SensorPins(sensors), AlertPins(A.ActiveNewestFirst(alerts)), ReportPins(P.ByStatus(reports, P.Pending)))
  }

  predicate IsPending(r: P.Report) {
    r.status == P.Pending
  }

  /** `findByStatus` returns as many reports as there are with that status. */
  lemma ByStatusCount(reports: seq<P.Report>, status: P.ReportStatus, p: P.Report -> bool)
    requires forall x :: p(x) == (x.status == status)
    ensures |P.ByStatus(reports, status)| == |Filter(reports, p)|
  {
    var found := P.ByStatus(reports, status);
    FilterSame(reports, x => P.StatusOf(x) == status, p);
    assert |multiset(found)| == |multiset(Filter(reports, p))|;
  }

  /** The map shows one pin per sensor, per ACTIVE alert and per PENDING report. */
  lemma MapDataCounts(sensors: seq<S.Sensor>, alerts: seq<A.Alert>, reports: seq<P.Report>)
    ensures var m := GetMapData(sensors, alerts, reports);
      && |m.sensors| == |sensors|
      && |m.alerts| == |Filter(alerts, A.IsActive)|
      && |m.reports| == |Filter(reports, IsPending)|
  {
    var active := A.ActiveNewestFirst(alerts);
    assert |multiset(active)| == |multiset(Filter(alerts, A.IsActive))|;
    ByStatusCount(reports, P.Pending, IsPending);
  }

  /** Each alert pin stands at the coordinates of an ACTIVE alert and carries its id; newest first. */
  lemma MapAlertPins(sensors: seq<S.Sensor>, alerts: seq<A.Alert>, reports: seq<P.Report>)
    ensures var pins := GetMapData(sensors, alerts, reports).alerts;
      && (forall i :: 0 <= i < |pins| ==>
            exists a :: (a in alerts && A.IsActive(a) &&
              pins[i].id == a.id && pins[i].latitude == a.latitude && pins[i].longitude == a.longitude))
      && (forall i, j :: 0 <= i < j < |pins| ==> pins[i].createdAt >= pins[j].createdAt)
  {
    var active := A.ActiveNewestFirst(alerts);
    var pins := AlertPins(active);
    forall i | 0 <= i < |pins|
      ensures exists a :: (a in alerts && A.IsActive(a) &&
        pins[i].id == a.id && pins[i].latitude == a.latitude && pins[i].longitude == a.longitude)
    {
      assert active[i] in active;
    }
  }

  /** Each report pin stands at the coordinates of a PENDING report and carries its id; newest first. */
  lemma MapReportPins(sensors: seq<S.Sensor>, alerts: seq<A.Alert>, reports: seq<P.Report>)
    ensures var pins := GetMapData(sensors, alerts, reports).reports;
      && (forall i :: 0 <= i < |pins| ==>
            exists r :: (r in reports && IsPending(r) &&
              pins[i].id == r.id && pins[i].latitude == r.latitude && pins[i].longitude == r.longitude))
      && (forall i, j :: 0 <= i < j < |pins| ==> pins[i].createdAt >= pins[j].createdAt)
  {
    var pending := P.ByStatus(reports, P.Pending);
    var pins := ReportPins(pending);
    forall i | 0 <= i < |pins|
      ensures exists r :: (r in reports && IsPending(r) &&
        pins[i].id == r.id && pins[i].latitude == r.latitude && pins[i].longitude == r.longitude)
    {
      assert pending[i] in pending;
    }
  }

  // ---------------------------------------------------------------------
  // getAnalytics

  /** Milliseconds in a day. */
  const DAY: int := 24 * 60 * 60 * 1000

  /** The start of the seven-day window that ends at `now`. */
  function SevenDaysAgo(now: int): int {
    now - 7 * DAY
  }

  /** The UTC calendar day of a timestamp, as a day number since the epoch (the date part of its ISO text). */
  function DayOf(ms: int): int {
    ms / DAY
  }

  function SensorTypeOf(s: S.Sensor): S.SensorType {
    s.sensorType
  }

  function SensorStatusOf(s: S.Sensor): S.SensorStatus {
    s.status
  }

  function LevelOf(a: A.Alert): A.AlertLevel {
    a.level
  }

  function AlertDay(a: A.Alert): int {
    DayOf(a.createdAt)
  }

  datatype SensorAnalytics = SensorAnalytics(
    total: nat,
    byType: map<S.SensorType, nat>,
    byStatus: map<S.SensorStatus, nat>)

  datatype AlertAnalytics = AlertAnalytics(
    total: nat,
    byLevel: map<A.AlertLevel, nat>,
    recent: nat,
    byDay: map<int, nat>)

  datatype Analytics = Analytics(
    sensors: SensorAnalytics,
    alerts: AlertAnalytics,
    population: P.Statistics)

  /** The alerts created in the last seven days, in listing order. */
  function RecentAlerts(alerts: seq<A.Alert>, now: int): (r: seq<A.Alert>)
    ensures forall a :: a in r <==> a in alerts && a.createdAt >= SevenDaysAgo(now)
    ensures |r| <= |alerts|
  {
    Filter(alerts, IsRecent(now))
  }

  /** The filter of `RecentAlerts`: created at or after the start of the seven-day window. */
  function IsRecent(now: int): A.Alert -> bool {
    (a: A.Alert) => a.createdAt >= SevenDaysAgo(now)
  }

  /** The recent alerts of two listings of the same alerts are as many, and are the same alerts. */
  lemma RecentPermutation(s: seq<A.Alert>, t: seq<A.Alert>, now: int)
    requires multiset(s) == multiset(t)
    ensures |RecentAlerts(s, now)| == |RecentAlerts(t, now)|
    ensures forall a :: a in RecentAlerts(s, now) <==> a in t && a.createdAt >= SevenDaysAgo(now)
  {
    FilterPermutation(s, t, IsRecent(now));
    assert forall a :: a in s <==> a in multiset(t);
  }

  /**
   * `getAnalytics` over the sensor listing, the alert listing (all statuses) and the report
   * listing. The alerts are those of `findAll`, newest first, for byLevel and for the recent
   * filter alike.
   */
  function GetAnalytics(sensors: seq<S.Sensor>, alerts: seq<A.Alert>, reports: seq<P.Report>, now: int): (an: Analytics)
    ensures an.sensors.total == |sensors| && an.alerts.total == |alerts|
    ensures an.alerts.recent == |RecentAlerts(alerts, now)|
    ensures an.population == P.GetStatistics(reports)
  {
    var all := A.NewestFirst(alerts);
    var recent := RecentAlerts(all, now);
    RecentPermutation(all, alerts, now);
    Analytics(
      SensorAnalytics(|sensors|, CountBy(sensors, SensorTypeOf), CountBy(sensors, SensorStatusOf)),
      AlertAnalytics(|alerts|, CountBy(all, LevelOf), |recent|, CountBy(recent, AlertDay)),
      P.GetStatistics(reports))
  }

  /**
   * Each GROUP BY map adds up to the number of rows it grouped, and a key appears only with a
   * count of at least one: byType and byStatus to the sensors, byLevel to all alerts, byDay to
   * the recent alerts.
   */
  lemma AnalyticsAddUp(sensors: seq<S.Sensor>, alerts: seq<A.Alert>, reports: seq<P.Report>, now: int)
    ensures var an := GetAnalytics(sensors, alerts, reports, now);
      && MapSum(an.sensors.byType) == an.sensors.total
      && MapSum(an.sensors.byStatus) == an.sensors.total
      && MapSum(an.alerts.byLevel) == an.alerts.total
      && MapSum(an.alerts.byDay) == an.alerts.recent
      && (forall k :: k in an.sensors.byType ==> an.sensors.byType[k] >= 1)
      && (forall k :: k in an.sensors.byStatus ==> an.sensors.byStatus[k] >= 1)
      && (forall k :: k in an.alerts.byLevel ==> an.alerts.byLevel[k] >= 1)
      && (forall k :: k in an.alerts.byDay ==> an.alerts.byDay[k] >= 1)
  {
    var sorted := A.NewestFirst(alerts);
    assert |sorted| == |alerts| by {
      assert |multiset(sorted)| == |multiset(alerts)|;
    }
    CountBySum(sensors, SensorTypeOf);
    CountBySum(sensors, SensorStatusOf);
    CountBySum(sorted, LevelOf);
    CountBySum(RecentAlerts(sorted, now), AlertDay);
  }

  /** The byType count of a sensor type is the number of sensors of that type. */
  lemma SensorTypeCount(sensors: seq<S.Sensor>, alerts: seq<A.Alert>, reports: seq<P.Report>, now: int,
                        t: S.SensorType, p: S.Sensor -> bool)
    requires forall s :: p(s) == (s.sensorType == t)
    ensures var byType := GetAnalytics(sensors, alerts, reports, now).sensors.byType;
      (if t in byType then byType[t] else 0) == |Filter(sensors, p)|
  {
    CountByCounts(sensors, SensorTypeOf, t);
    OccurrencesFilter(sensors, SensorTypeOf, t, p);
  }

  /** The byStatus count of a sensor status is the number of sensors with that status. */
  lemma SensorStatusCount(sensors: seq<S.Sensor>, alerts: seq<A.Alert>, reports: seq<P.Report>, now: int,
                          st: S.SensorStatus, p: S.Sensor -> bool)
    requires forall s :: p(s) == (s.status == st)
    ensures var byStatus := GetAnalytics(sensors, alerts, reports, now).sensors.byStatus;
      (if st in byStatus then byStatus[st] else 0) == |Filter(sensors, p)|
  {
    CountByCounts(sensors, SensorStatusOf, st);
    OccurrencesFilter(sensors, SensorStatusOf, st, p);
  }

  /** The byLevel count of a level is the number of alerts of that level, whatever the listing order. */
  lemma AlertLevelCount(sensors: seq<S.Sensor>, alerts: seq<A.Alert>, reports: seq<P.Report>, now: int,
                        l: A.AlertLevel, p: A.Alert -> bool)
    requires forall a :: p(a) == (a.level == l)
    ensures var byLevel := GetAnalytics(sensors, alerts, reports, now).alerts.byLevel;
      (if l in byLevel then byLevel[l] else 0) == |Filter(alerts, p)|
  {
    var sorted := A.NewestFirst(alerts);
    CountByCounts(sorted, LevelOf, l);
    OccurrencesFilter(sorted, LevelOf, l, p);
    FilterPermutation(sorted, alerts, p);
  }

  /**
   * The byDay count of a day is the number of alerts created in the last seven days on that
   * day; a day with no such alert has no bucket.
   */
  lemma DayCount(sensors: seq<S.Sensor>, alerts: seq<A.Alert>, reports: seq<P.Report>, now: int,
                 d: int, p: A.Alert -> bool)
    requires forall a :: p(a) == (a.createdAt >= SevenDaysAgo(now) && DayOf(a.createdAt) == d)
    ensures var byDay := GetAnalytics(sensors, alerts, reports, now).alerts.byDay;
      (if d in byDay then byDay[d] else 0) == |Filter(alerts, p)|
  {
    var sorted := A.NewestFirst(alerts);
    var recent := RecentAlerts(sorted, now);
    var onDay := (a: A.Alert) => AlertDay(a) == d;
    CountByCounts(recent, AlertDay, d);
    OccurrencesFilter(recent, AlertDay, d, onDay);
    FilterFilterCount(sorted, IsRecent(now), onDay, p);
    FilterPermutation(sorted, alerts, p);
  }

  /** A day bucket holds at least one recent alert created on that day. */
  lemma DayBucketWitness(sensors: seq<S.Sensor>, alerts: seq<A.Alert>, reports: seq<P.Report>, now: int, d: int)
    requires d in GetAnalytics(sensors, alerts, reports, now).alerts.byDay
    ensures exists a :: a in alerts && SevenDaysAgo(now) <= a.createdAt && DayOf(a.createdAt) == d
  {
    var sorted := A.NewestFirst(alerts);
    var recent := RecentAlerts(sorted, now);
    RecentPermutation(sorted, alerts, now);
    var i :| 0 <= i < |recent| && AlertDay(recent[i]) == d;
    assert recent[i] in recent;
  }

  /**
   * The day buckets never reach before the day the window starts; when no alert lies in the
   * future they end today, so they span at most eight days.
   */
  lemma DayBuckets(sensors: seq<S.Sensor>, alerts: seq<A.Alert>, reports: seq<P.Report>, now: int, d: int)
    requires d in GetAnalytics(sensors, alerts, reports, now).alerts.byDay
    ensures DayOf(SevenDaysAgo(now)) <= d
    ensures (forall a :: a in alerts ==> a.createdAt <= now) ==> d <= DayOf(now) == DayOf(SevenDaysAgo(now)) + 7
  {
    DayBucketWitness(sensors, alerts, reports, now, d);
    var a :| a in alerts && SevenDaysAgo(now) <= a.createdAt && DayOf(a.createdAt) == d;
    DayOfMonotone(SevenDaysAgo(now), a.createdAt);
    DayOfShift(SevenDaysAgo(now), 7, now);
    if a.createdAt <= now {
      DayOfMonotone(a.createdAt, now);
    }
  }

  /** Moving a timestamp by whole days moves its day number by as many. */
  lemma DayOfShift(x: int, k: int, y: int)
    requires y == x + k * DAY
    ensures DayOf(y) == DayOf(x) + k
  {
    var q, r := x / DAY, x % DAY;
    assert x == q * DAY + r && 0 <= r < DAY;
    assert y == (q + k) * DAY + r;
  }

  /** Later timestamps fall on the same day or a later one. */
  lemma DayOfMonotone(x: int, y: int)
    requires x <= y
    ensures DayOf(x) <= DayOf(y)
  {
  }
}
