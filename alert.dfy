/**
 * Threshold evaluation and the alert lifecycle: the alert table, the
 * threshold-checking tick that raises at most one ACTIVE alert per sensor,
 * the severity ladder, and the acknowledge/resolve patches.
 */
module Alerts {
  import opened Wrappers
  import opened Tables
  import S = Sensors

  datatype AlertLevel = Low | Medium | High | Critical

  datatype AlertStatus = Active | Resolved | Acknowledged

  /** A row of the alert table. */
  datatype Alert = Alert(
    id: int,
    title: string,
    description: string,
    level: AlertLevel,
    status: AlertStatus,
    latitude: real,
    longitude: real,
    location: string,
    sensorId: Option<int>,
    triggerValue: Option<real>,
    createdAt: int,
    resolvedAt: Option<int>,
    acknowledgedAt: Option<int>)

  /** What a caller hands to `create`; `status` defaults to ACTIVE. */
  datatype AlertData = AlertData(
    title: string,
    description: string,
    level: AlertLevel,
    status: Option<AlertStatus>,
    latitude: real,
    longitude: real,
    location: string,
    sensorId: Option<int>,
    triggerValue: Option<real>)

  /** A partial update: `None` leaves a column alone, `Some(v)` writes `v` (which may be null). */
  datatype AlertPatch = AlertPatch(
    title: Option<string>,
    description: Option<string>,
    level: Option<AlertLevel>,
    status: Option<AlertStatus>,
    latitude: Option<real>,
    longitude: Option<real>,
    location: Option<string>,
    sensorId: Option<Option<int>>,
    triggerValue: Option<Option<real>>,
    resolvedAt: Option<Option<int>>,
    acknowledgedAt: Option<Option<int>>)

  const NoChange := AlertPatch(None, None, None, None, None, None, None, None, None, None, None)

  function AlertId(a: Alert): int {
    a.id
  }

  function CreatedAt(a: Alert): int {
    a.createdAt
  }

  predicate IsActive(a: Alert) {
    a.status == Active
  }

  /** The row `create` stores: status defaults to ACTIVE, creation time is `now`, no transitions yet. */
  function NewAlert(d: AlertData, id: int, now: int): (a: Alert)
    ensures a.id == id && a.createdAt == now && a.resolvedAt == None && a.acknowledgedAt == None
    ensures a.status == (if d.status.Some? then d.status.value else Active)
  {
    Alert(id, d.title, d.description, d.level, d.status.GetOr(Active), d.latitude, d.longitude,
          d.location, d.sensorId, d.triggerValue, now, None, None)
  }

  /** What the storage layer's `update(id, patch)` does to the row. */
  function ApplyPatch(a: Alert, p: AlertPatch): Alert {
    Alert(a.id, p.title.GetOr(a.title), p.description.GetOr(a.description), p.level.GetOr(a.level),
          p.status.GetOr(a.status), p.latitude.GetOr(a.latitude), p.longitude.GetOr(a.longitude),
          p.location.GetOr(a.location), p.sensorId.GetOr(a.sensorId), p.triggerValue.GetOr(a.triggerValue),
          a.createdAt, p.resolvedAt.GetOr(a.resolvedAt), p.acknowledgedAt.GetOr(a.acknowledgedAt))
  }

  /** The patch `acknowledge` writes. */
  function AcknowledgePatch(now: int): AlertPatch {
    NoChange.(status := Some(Acknowledged), acknowledgedAt := Some(Some(now)))
  }

  /** The patch `resolve` writes. */
  function ResolvePatch(now: int): AlertPatch {
    NoChange.(status := Some(Resolved), resolvedAt := Some(Some(now)))
  }

  /**
   * Acknowledging writes only the status and acknowledgedAt; resolving writes only the status
   * and resolvedAt, so an earlier acknowledgement survives it and an alert resolved without one
   * keeps acknowledgedAt as it was. Neither looks at the current status: a RESOLVED alert can
   * be acknowledged again.
   */
  lemma {:induction false} LifecyclePatches(a: Alert, t1: int, t2: int)
    ensures ApplyPatch(a, AcknowledgePatch(t1)) == a.(status := Acknowledged, acknowledgedAt := Some(t1))
    ensures ApplyPatch(a, ResolvePatch(t2)) == a.(status := Resolved, resolvedAt := Some(t2))
    ensures var r := ApplyPatch(ApplyPatch(a, AcknowledgePatch(t1)), ResolvePatch(t2));
      r.status == Resolved && r.acknowledgedAt == Some(t1) && r.resolvedAt == Some(t2)
    ensures ApplyPatch(a, ResolvePatch(t2)).acknowledgedAt == a.acknowledgedAt
    ensures a.status == Resolved ==> ApplyPatch(a, AcknowledgePatch(t1)).status == Acknowledged
  {
  }

  // ---------------------------------------------------------------------
  // Threshold evaluation

  /** The order of the severity ladder. */
  function Rank(l: AlertLevel): nat {
    match l
    case Low => 0
    case Medium => 1
    case High => 2
    case Critical => 3
  }

  /**
   * `determineAlertLevel`: the ladder over 100 * value / threshold. The sensor type is not
   * consulted. A zero threshold (which the tick never passes) follows JavaScript's division:
   * a positive value gives +Infinity, a negative one -Infinity and zero NaN.
   */
  function DetermineAlertLevel(sensorType: S.SensorType, currentValue: real, threshold: real): AlertLevel {
    if threshold == 0.0 then
      if currentValue > 0.0 then Critical else Low
    else
      var exceedPercentage := currentValue / threshold * 100.0;
      if exceedPercentage >= 150.0 then Critical
      else if exceedPercentage >= 125.0 then High
      else if exceedPercentage >= 110.0 then Medium
      else Low
  }

  /** For a positive `c`, comparing q with k is comparing qc = q * c with k * c. */
  lemma ScaledCompare(q: real, c: real, k: real, qc: real)
    requires c > 0.0 && qc == q * c
    ensures q >= k <==> qc >= k * c
  {
    assert qc - k * c == (q - k) * c;
  }

  /**
   * For a positive threshold the level depends only on value and threshold:
   * CRITICAL from 150%, HIGH from 125%, MEDIUM from 110%, LOW below that.
   */
  lemma LevelLadder(sensorType: S.SensorType, v: real, th: real)
    requires th > 0.0
    ensures var l := DetermineAlertLevel(sensorType, v, th);
      && (l == Critical <==> 100.0 * v >= 150.0 * th)
      && (l == High <==> 125.0 * th <= 100.0 * v < 150.0 * th)
      && (l == Medium <==> 110.0 * th <= 100.0 * v < 125.0 * th)
      && (l == Low <==> 100.0 * v < 110.0 * th)
  {
    var q := v / th;
    assert q * th == v;
    var p := q * 100.0;
    assert p * th == 100.0 * v;
    ScaledCompare(p, th, 150.0, 100.0 * v);
    ScaledCompare(p, th, 125.0, 100.0 * v);
    ScaledCompare(p, th, 110.0, 100.0 * v);
  }

  /** For a fixed positive threshold, a larger value never gives a lower level, whatever the sensor types. */
  lemma LevelMonotone(t1: S.SensorType, t2: S.SensorType, v1: real, v2: real, th: real)
    requires th > 0.0 && v1 <= v2
    ensures Rank(DetermineAlertLevel(t1, v1, th)) <= Rank(DetermineAlertLevel(t2, v2, th))
  {
    LevelLadder(t1, v1, th);
    LevelLadder(t2, v2, th);
  }

  /** The worked examples: 125/100 is HIGH, 150/100 CRITICAL, 110/100 MEDIUM, 109/100 LOW. */
  lemma LevelExamples(t: S.SensorType)
    ensures DetermineAlertLevel(t, 125.0, 100.0) == High
    ensures DetermineAlertLevel(t, 150.0, 100.0) == Critical
    ensures DetermineAlertLevel(t, 110.0, 100.0) == Medium
    ensures DetermineAlertLevel(t, 109.0, 100.0) == Low
  {
    LevelLadder(t, 125.0, 100.0);
    LevelLadder(t, 150.0, 100.0);
    LevelLadder(t, 110.0, 100.0);
    LevelLadder(t, 109.0, 100.0);
  }

  /**
   * A breach below minThreshold is graded against maxThreshold, so with positive thresholds
   * and minThreshold <= maxThreshold it is always LOW, however far below the minimum it is.
   */
  lemma BelowMinBreachIsLow(sensorType: S.SensorType, v: real, minT: real, maxT: real)
    requires 0.0 < maxT && minT <= maxT && v < minT
    ensures DetermineAlertLevel(sensorType, v, maxT) == Low
  {
    LevelLadder(sensorType, v, maxT);
  }

  /**
   * The tick's test for one sensor: `None` when the sensor is skipped or within bounds,
   * `Some(above)` on a breach, where `above` is whether the value exceeds maxThreshold.
   */
  function Breach(s: S.Sensor): (r: Option<bool>)
    ensures r.Some? <==>
      && s.currentValue.Some? && s.currentValue.value != 0.0
      && s.maxThreshold.Some? && s.maxThreshold.value != 0.0
      && (|| s.currentValue.value > s.maxThreshold.value
          || (s.minThreshold.Some? && s.minThreshold.value != 0.0 && s.currentValue.value < s.minThreshold.value))
    ensures r.Some? ==> (r.value <==> s.currentValue.value > s.maxThreshold.value)
  {
    if !Truthy(s.currentValue) || !Truthy(s.maxThreshold) then None
    else
      var isThresholdExceeded := s.currentValue.value > s.maxThreshold.value;
      var isBelowMinThreshold := Truthy(s.minThreshold) && s.currentValue.value < s.minThreshold.value;
      if isThresholdExceeded || isBelowMinThreshold then Some(isThresholdExceeded) else None
  }

  /** How a template literal renders a nullable value. */
  function Text(v: Option<string>): string {
    if v.Some? then v.value else "null"
  }

  function NumberText(v: Option<real>, show: real -> string): string {
    if v.Some? then show(v.value) else "null"
  }

  /** The part of the description before the direction word. */
  function DescriptionHead(s: S.Sensor): string {
    "Sensor " + s.name + " registrou valor "
  }

  function Direction(isAboveThreshold: bool): string {
    if isAboveThreshold then "acima" else "abaixo"
  }

  /** The text between the direction word and the cited threshold; it does not depend on the direction. */
  function LimitPrefix(s: S.Sensor, show: real -> string): string {
    " do limite estabelecido. " +
    "Valor atual: " + NumberText(s.currentValue, show) + Text(s.unit) +
    ", Limite: "
  }

  /** The text after the cited threshold; it does not depend on the direction. */
  function LimitSuffix(s: S.Sensor): string {
    Text(s.unit) + ". " + "Localização: " + s.location
  }

  /** The part of the description after the direction word. */
  function DescriptionTail(s: S.Sensor, isAboveThreshold: bool, show: real -> string): string {
    var threshold := if isAboveThreshold then s.maxThreshold else s.minThreshold;
    LimitPrefix(s, show) + NumberText(threshold, show) + LimitSuffix(s)
  }

  /**
   * `generateAlertDescription`: names the direction ("acima"/"abaixo") and cites maxThreshold
   * above, minThreshold below. `show` is JavaScript's number-to-text conversion.
   */
  function GenerateAlertDescription(s: S.Sensor, isAboveThreshold: bool, show: real -> string): string {
    DescriptionHead(s) + (Direction(isAboveThreshold) + DescriptionTail(s, isAboveThreshold, show))
  }

  /**
   * The word right after the head is "acima" above and "abaixo" below, and it tells the two
   * directions apart: the two words differ in their second letter.
   */
  lemma DescriptionDirection(s: S.Sensor, show: real -> string)
    ensures var k := |DescriptionHead(s)|;
      && GenerateAlertDescription(s, true, show)[k..k + 5] == "acima"
      && GenerateAlertDescription(s, false, show)[k..k + 6] == "abaixo"
    ensures var k := |DescriptionHead(s)|;
      && GenerateAlertDescription(s, true, show)[k..k + 2] == "ac"
      && GenerateAlertDescription(s, false, show)[k..k + 2] == "ab"
    ensures GenerateAlertDescription(s, true, show) != GenerateAlertDescription(s, false, show)
  {
    SliceBetween(DescriptionHead(s), "acima", DescriptionTail(s, true, show));
    SliceBetween(DescriptionHead(s), "abaixo", DescriptionTail(s, false, show));
    Regroup3(DescriptionHead(s), "acima", DescriptionTail(s, true, show));
    Regroup3(DescriptionHead(s), "abaixo", DescriptionTail(s, false, show));
    var head, k := DescriptionHead(s), |DescriptionHead(s)|;
    var up := Direction(true) + DescriptionTail(s, true, show);
    var down := Direction(false) + DescriptionTail(s, false, show);
    assert up[..2] == "ac" && down[..2] == "ab";
    assert (head + up)[k..k + 2] == up[..2];
    assert (head + down)[k..k + 2] == down[..2];
    assert (head + up)[k + 1] != (head + down)[k + 1];
  }

  /**
   * The number cited as the limit is maxThreshold in the "above" text and minThreshold in the
   * "below" text; it sits between the same direction-independent texts, at the offset after
   * the head, the direction word and the prefix.
   */
  lemma DescriptionCitesThreshold(s: S.Sensor, above: bool, show: real -> string)
    ensures var n := NumberText(if above then s.maxThreshold else s.minThreshold, show);
      GenerateAlertDescription(s, above, show) ==
        DescriptionHead(s) + Direction(above) + LimitPrefix(s, show) + n + LimitSuffix(s)
    ensures var n := NumberText(if above then s.maxThreshold else s.minThreshold, show);
      var j := |DescriptionHead(s)| + (if above then 5 else 6) + |LimitPrefix(s, show)|;
      GenerateAlertDescription(s, above, show)[j..j + |n|] == n
  {
    var head, word, pre, suf := DescriptionHead(s), Direction(above), LimitPrefix(s, show), LimitSuffix(s);
    var n := NumberText(if above then s.maxThreshold else s.minThreshold, show);
    assert |word| == if above then 5 else 6;
    Regroup(head, word, pre, n, suf);
    SliceBetween(head + word + pre, n, suf);
  }

  /** Regrouping a five-part concatenation, kept apart so that the solver does not see the texts. */
  lemma Regroup(a: string, b: string, c: string, d: string, e: string)
    ensures a + (b + (c + d + e)) == a + b + c + d + e
  {
  }

  /** Regrouping a three-part concatenation. */
  lemma Regroup3(a: string, b: string, c: string)
    ensures a + (b + c) == a + b + c
  {
  }

  /** The middle part of a three-part concatenation is found at its offset. */
  lemma SliceBetween(a: string, b: string, c: string)
    ensures (a + b + c)[|a|..|a| + |b|] == b
  {
    assert forall i :: 0 <= i < |b| ==> (a + b + c)[|a|..|a| + |b|][i] == b[i];
  }

  /** The alert the tick creates for a breaching sensor. */
  function AlertFor(s: S.Sensor, isAboveThreshold: bool, show: real -> string): AlertData
    requires s.currentValue.Some? && s.maxThreshold.Some?
  {
    AlertData(
      "Alerta - " + s.name,
      GenerateAlertDescription(s, isAboveThreshold, show),
      DetermineAlertLevel(s.sensorType, s.currentValue.value, s.maxThreshold.value),
      None,
      s.latitude, s.longitude, s.location, Some(s.id), s.currentValue)
  }

  // ---------------------------------------------------------------------
  // The alert table and the deduplication invariant

  /** Whether some alert for that sensor is ACTIVE: the query the tick runs before creating one. */
  predicate HasActiveFor(t: map<int, Alert>, sensorId: int) {
    exists id :: id in t && IsActive(t[id]) && t[id].sensorId == Some(sensorId)
  }

  /** At most one ACTIVE alert per sensor id (alerts without a sensor are not constrained). */
  ghost predicate AtMostOneActivePerSensor(t: map<int, Alert>) {
    forall i, j ::
      i in t && j in t && IsActive(t[i]) && IsActive(t[j]) && t[i].sensorId.Some? && t[i].sensorId == t[j].sensorId
      ==> i == j
  }

  /** The alert table after the tick has looked at one sensor, and the id counter. */
  datatype TickState = TickState(alerts: map<int, Alert>, nextId: int)

  /** One iteration of the tick: a breaching sensor without an ACTIVE alert gets a new one. */
  function Raise(t: map<int, Alert>, nextId: int, s: S.Sensor, now: int, show: real -> string): TickState {
    match Breach(s)
    case None => TickState(t, nextId)
    case Some(above) =>
      if HasActiveFor(t, s.id) then TickState(t, nextId)
      else TickState(t[nextId := NewAlert(AlertFor(s, above, show), nextId, now)], nextId + 1)
  }

  /** `checkSensorThresholds`: the sensors in listing order, each seeing the alerts created before it. */
  function Tick(t: map<int, Alert>, nextId: int, sensors: seq<S.Sensor>, now: int, show: real -> string): TickState
    decreases |sensors|
  {
    if sensors == [] then TickState(t, nextId)
    else
      var r := Raise(t, nextId, sensors[0], now, show);
      Tick(r.alerts, r.nextId, sensors[1..], now, show)
  }

  /** Whether `a`, stored under `id`, is the alert the tick creates for `s`. */
  predicate CreatedFor(a: Alert, s: S.Sensor, id: int, now: int, show: real -> string) {
    Breach(s).Some? && a == NewAlert(AlertFor(s, Breach(s).value, show), id, now)
  }

  /** One iteration keeps the table well formed and, if it held, the one-ACTIVE-alert-per-sensor invariant. */
  lemma RaiseInvariants(t: map<int, Alert>, nextId: int, s: S.Sensor, now: int, show: real -> string)
    requires WellFormed(t, nextId, AlertId)
    ensures var r := Raise(t, nextId, s, now, show);
      && WellFormed(r.alerts, r.nextId, AlertId)
      && (AtMostOneActivePerSensor(t) ==> AtMostOneActivePerSensor(r.alerts))
  {
    var r := Raise(t, nextId, s, now, show);
    if r.alerts != t {
      assert nextId !in t;
      assert !HasActiveFor(t, s.id);
    }
  }

  /** One iteration either changes nothing or adds exactly one row, under the next id, and advances the counter. */
  lemma RaiseAddsAtMostOne(t: map<int, Alert>, nextId: int, s: S.Sensor, now: int, show: real -> string)
    requires WellFormed(t, nextId, AlertId)
    ensures var r := Raise(t, nextId, s, now, show);
      || r == TickState(t, nextId)
      || (&& r.nextId == nextId + 1 && nextId !in t && nextId in r.alerts
          && r.alerts == t[nextId := r.alerts[nextId]])
  {
    assert nextId !in t;
  }

  /**
   * The tick only adds rows: old rows are kept as they were, the id counter advances by at
   * most one per sensor looked at, and the table stays well formed.
   */
  lemma {:induction false} TickFrame(t: map<int, Alert>, nextId: int, sensors: seq<S.Sensor>, now: int, show: real -> string)
    requires WellFormed(t, nextId, AlertId)
    decreases |sensors|
    ensures var r := Tick(t, nextId, sensors, now, show);
      && WellFormed(r.alerts, r.nextId, AlertId)
      && nextId <= r.nextId <= nextId + |sensors|
      && (forall id :: id in t ==> id in r.alerts && r.alerts[id] == t[id])
  {
    if sensors != [] {
      var r1 := Raise(t, nextId, sensors[0], now, show);
      RaiseInvariants(t, nextId, sensors[0], now, show);
      TickFrame(r1.alerts, r1.nextId, sensors[1..], now, show);
    }
  }

  /** The new rows take exactly the ids nextId .. r.nextId - 1: one row per alert created. */
  lemma {:induction false} TickNewIds(t: map<int, Alert>, nextId: int, sensors: seq<S.Sensor>, now: int, show: real -> string)
    requires WellFormed(t, nextId, AlertId)
    decreases |sensors|
    ensures var r := Tick(t, nextId, sensors, now, show);
      && |r.alerts| == |t| + (r.nextId - nextId)
      && (forall id :: nextId <= id < r.nextId ==> id in r.alerts && id !in t)
  {
    if sensors != [] {
      var r1 := Raise(t, nextId, sensors[0], now, show);
      RaiseInvariants(t, nextId, sensors[0], now, show);
      TickNewIds(r1.alerts, r1.nextId, sensors[1..], now, show);
      TickFrame(r1.alerts, r1.nextId, sensors[1..], now, show);
      if r1.nextId != nextId {
        assert nextId !in t;
        assert |r1.alerts| == |t| + 1;
      }
    }
  }

  /** Every row the tick adds is the alert created for one of the sensors, which was breaching. */
  lemma {:induction false} TickCreates(t: map<int, Alert>, nextId: int, sensors: seq<S.Sensor>, now: int, show: real -> string)
    requires WellFormed(t, nextId, AlertId)
    decreases |sensors|
    ensures var r := Tick(t, nextId, sensors, now, show);
      forall id :: id in r.alerts && id !in t ==>
        exists k :: 0 <= k < |sensors| && CreatedFor(r.alerts[id], sensors[k], id, now, show)
  {
    if sensors != [] {
      var s := sensors[0];
      var r1 := Raise(t, nextId, s, now, show);
      RaiseInvariants(t, nextId, s, now, show);
      TickCreates(r1.alerts, r1.nextId, sensors[1..], now, show);
      TickFrame(r1.alerts, r1.nextId, sensors[1..], now, show);
      var r := Tick(t, nextId, sensors, now, show);
      forall id | id in r.alerts && id !in t
        ensures exists k :: 0 <= k < |sensors| && CreatedFor(r.alerts[id], sensors[k], id, now, show)
      {
        if id in r1.alerts {
          assert id == nextId && r.alerts[id] == r1.alerts[id];
          assert CreatedFor(r.alerts[id], sensors[0], id, now, show);
        } else {
          var k :| 0 <= k < |sensors[1..]| && CreatedFor(r.alerts[id], sensors[1..][k], id, now, show);
          assert sensors[1..][k] == sensors[k + 1];
        }
      }
    }
  }

  /** The tick keeps at most one ACTIVE alert per sensor. */
  lemma {:induction false} TickKeepsOneActive(t: map<int, Alert>, nextId: int, sensors: seq<S.Sensor>, now: int, show: real -> string)
    requires WellFormed(t, nextId, AlertId)
    requires AtMostOneActivePerSensor(t)
    decreases |sensors|
    ensures AtMostOneActivePerSensor(Tick(t, nextId, sensors, now, show).alerts)
  {
    if sensors != [] {
      var r1 := Raise(t, nextId, sensors[0], now, show);
      RaiseInvariants(t, nextId, sensors[0], now, show);
      TickKeepsOneActive(r1.alerts, r1.nextId, sensors[1..], now, show);
    }
  }

  /**
   * A sensor that already has an ACTIVE alert gets no new alert in the tick (an ACKNOWLEDGED
   * or RESOLVED alert does not count as one: see RaiseCreates).
   */
  lemma {:induction false} TickSuppresses(t: map<int, Alert>, nextId: int, sensors: seq<S.Sensor>, now: int, show: real -> string, sensorId: int)
    requires WellFormed(t, nextId, AlertId)
    requires HasActiveFor(t, sensorId)
    decreases |sensors|
    ensures var r := Tick(t, nextId, sensors, now, show);
      forall id :: id in r.alerts && id !in t ==> r.alerts[id].sensorId != Some(sensorId)
  {
    if sensors != [] {
      var r1 := Raise(t, nextId, sensors[0], now, show);
      RaiseInvariants(t, nextId, sensors[0], now, show);
      var w :| w in t && IsActive(t[w]) && t[w].sensorId == Some(sensorId);
      assert nextId !in t;
      assert w in r1.alerts && r1.alerts[w] == t[w];
      TickSuppresses(r1.alerts, r1.nextId, sensors[1..], now, show, sensorId);
      TickFrame(r1.alerts, r1.nextId, sensors[1..], now, show);
      if r1.nextId != nextId {
        assert r1.alerts[nextId].sensorId == Some(sensors[0].id);
        assert sensors[0].id != sensorId;
      }
    }
  }

  /** A second breach of the same sensor within one tick is suppressed: reading it twice is reading it once. */
  lemma RaiseTwiceIsOnce(t: map<int, Alert>, nextId: int, s: S.Sensor, now: int, show: real -> string)
    requires WellFormed(t, nextId, AlertId)
    ensures Tick(t, nextId, [s, s], now, show) == Tick(t, nextId, [s], now, show)
  {
    var r1 := Raise(t, nextId, s, now, show);
    assert [s, s][1..] == [s];
    if r1.nextId != nextId {
      assert nextId !in t;
      assert IsActive(r1.alerts[nextId]) && r1.alerts[nextId].sensorId == Some(s.id);
      assert HasActiveFor(r1.alerts, s.id);
    }
  }

  /**
   * A breaching sensor with no ACTIVE alert gets a new alert under the next id, however many
   * ACKNOWLEDGED or RESOLVED alerts it already has.
   */
  lemma RaiseCreates(t: map<int, Alert>, nextId: int, s: S.Sensor, now: int, show: real -> string, above: bool)
    requires Breach(s) == Some(above)
    requires forall id :: id in t && t[id].sensorId == Some(s.id) ==> !IsActive(t[id])
    ensures Raise(t, nextId, s, now, show)
      == TickState(t[nextId := NewAlert(AlertFor(s, above, show), nextId, now)], nextId + 1)
  {
  }

  /** After its turn a breaching sensor has an ACTIVE alert, old or new. */
  lemma RaiseCovers(t: map<int, Alert>, nextId: int, s: S.Sensor, now: int, show: real -> string)
    requires Breach(s).Some?
    ensures HasActiveFor(Raise(t, nextId, s, now, show).alerts, s.id)
  {
    if !HasActiveFor(t, s.id) {
      var r := Raise(t, nextId, s, now, show);
      assert IsActive(r.alerts[nextId]) && r.alerts[nextId].sensorId == Some(s.id);
    }
  }

  /** After the tick every breaching sensor of the list has an ACTIVE alert, old or new. */
  lemma {:induction false} TickCovers(t: map<int, Alert>, nextId: int, sensors: seq<S.Sensor>, now: int, show: real -> string)
    requires WellFormed(t, nextId, AlertId)
    decreases |sensors|
    ensures var r := Tick(t, nextId, sensors, now, show);
      forall k :: 0 <= k < |sensors| && Breach(sensors[k]).Some? ==> HasActiveFor(r.alerts, sensors[k].id)
  {
    if sensors != [] {
      var s := sensors[0];
      var r1 := Raise(t, nextId, s, now, show);
      RaiseInvariants(t, nextId, s, now, show);
      TickCovers(r1.alerts, r1.nextId, sensors[1..], now, show);
      TickFrame(r1.alerts, r1.nextId, sensors[1..], now, show);
      var r := Tick(t, nextId, sensors, now, show);
      if Breach(s).Some? {
        RaiseCovers(t, nextId, s, now, show);
        var w :| w in r1.alerts && IsActive(r1.alerts[w]) && r1.alerts[w].sensorId == Some(s.id);
        assert w in r.alerts && r.alerts[w] == r1.alerts[w];
      }
      forall k | 1 <= k < |sensors| && Breach(sensors[k]).Some?
        ensures HasActiveFor(r.alerts, sensors[k].id)
      {
        assert sensors[1..][k - 1] == sensors[k];
      }
    }
  }

  /** A sensor whose current value or maxThreshold is null or 0 never gets an alert. */
  lemma FalsyNeverAlerts(t: map<int, Alert>, nextId: int, s: S.Sensor, now: int, show: real -> string)
    requires !Truthy(s.currentValue) || !Truthy(s.maxThreshold)
    ensures Raise(t, nextId, s, now, show) == TickState(t, nextId)
  {
  }

  /**
   * An alert created by the tick is ACTIVE, points at its sensor, copies the sensor's coordinates,
   * location and current value, and takes its level from the maxThreshold ratio also when the
   * breach was below minThreshold.
   */
  lemma CreatedAlertContents(a: Alert, s: S.Sensor, id: int, now: int, show: real -> string)
    requires CreatedFor(a, s, id, now, show)
    ensures a.status == Active && a.sensorId == Some(s.id) && a.id == id && a.createdAt == now
    ensures a.latitude == s.latitude && a.longitude == s.longitude && a.location == s.location
    ensures a.triggerValue == s.currentValue && a.title == "Alerta - " + s.name
    ensures a.level == DetermineAlertLevel(s.sensorType, s.currentValue.value, s.maxThreshold.value)
    ensures a.description == GenerateAlertDescription(s, s.currentValue.value > s.maxThreshold.value, show)
  {
  }

  /** `findActive`: the ACTIVE alerts, newest first. */
  function ActiveNewestFirst(rows: seq<Alert>): (r: seq<Alert>)
    ensures multiset(r) == multiset(Filter(rows, IsActive))
    ensures forall a :: a in r <==> a in rows && IsActive(a)
    ensures forall a :: multiset(r)[a] <= multiset(rows)[a]
    ensures SortedDesc(r, CreatedAt)
  {
    forall a ensures multiset(Filter(rows, IsActive))[a] <= multiset(rows)[a] {
      FilterMultiset(rows, IsActive, a);
    }
    var active := SortDesc(Filter(rows, IsActive), CreatedAt);
    assert forall a :: a in active <==> a in multiset(Filter(rows, IsActive));
    active
  }

  /** `findAll`: every alert, newest first. */
  function NewestFirst(rows: seq<Alert>): (r: seq<Alert>)
    ensures multiset(r) == multiset(rows)
    ensures SortedDesc(r, CreatedAt)
  {
    SortDesc(rows, CreatedAt)
  }

  /** The alert table and its id counter. */
  class AlertTable {
    var table: map<int, Alert>
    var nextId: int

    ghost predicate Valid()
      reads this
    {
      WellFormed(table, nextId, AlertId)
    }

    constructor ()
      ensures Valid() && table == map[] && nextId == 1
    {
      table := map[];
      nextId := 1;
    }

    /** `findAll`. */
    function FindAll(): (r: seq<Alert>)
      reads this
      requires Valid()
      ensures |r| == |table|
      ensures forall a :: a in r ==> a.id in table && table[a.id] == a
      ensures forall id :: id in table ==> table[id] in r
      ensures SortedDesc(r, CreatedAt)
    {
      var rows := Listing(table, nextId, AlertId);
      ListingHolds(table, nextId, AlertId);
      var r := NewestFirst(rows);
      assert |r| == |rows| by { assert |multiset(r)| == |multiset(rows)|; }
      assert forall a :: a in r <==> a in multiset(rows);
      r
    }

    /** `findActive`: the ACTIVE alerts of the table, newest first. */
    function FindActive(): (r: seq<Alert>)
      reads this
      requires Valid()
      ensures forall a :: a in r ==> a.id in table && table[a.id] == a && IsActive(a)
      ensures forall id :: id in table && IsActive(table[id]) ==> table[id] in r
      ensures forall i, j :: 0 <= i < j < |r| ==> r[i].id != r[j].id
      ensures SortedDesc(r, CreatedAt)
    {
      ListingHolds(table, nextId, AlertId);
      ListingDistinct(table, nextId, AlertId, ActiveNewestFirst(Listing(table, nextId, AlertId)));
      ActiveNewestFirst(Listing(table, nextId, AlertId))
    }

    /** `findOne`: the alert with that id, or null. */
    function FindOne(id: int): (r: Option<Alert>)
      reads this
      requires Valid()
      ensures r.Some? <==> id in table
      ensures r.Some? ==> r.value == table[id] && r.value.id == id
    {
      Lookup(table, nextId, AlertId, id)
    }

    /** `create`: stores the new row under the next id. */
    method Create(data: AlertData, now: int) returns (a: Alert)
      requires Valid()
      modifies this
      ensures Valid()
      ensures a == NewAlert(data, old(nextId), now) && old(nextId) !in old(table)
      ensures table == old(table)[old(nextId) := a] && nextId == old(nextId) + 1
    {
      a := NewAlert(data, nextId, now);
      table := table[nextId := a];
      nextId := nextId + 1;
    }

    /**
     * `update`: a falsy id or a missing patch throws and changes nothing; otherwise the patch is
     * written to the row with that id, if any, and the re-read row (or null) is returned.
     */
    method Update(id: Option<int>, patch: Option<AlertPatch>) returns (r: Result<Option<Alert>>)
      requires Valid()
      modifies this
      ensures Valid() && nextId == old(nextId)
      ensures !TruthyId(id) || patch.None? ==> r == Err("ID and update data are required") && table == old(table)
      ensures TruthyId(id) && patch.Some? ==>
        && table == (if id.value in old(table)
                     then old(table)[id.value := ApplyPatch(old(table)[id.value], patch.value)]
                     else old(table))
        && r == Ok(FindOne(id.value))
    {
      if !TruthyId(id) || patch.None? {
        return Err("ID and update data are required");
      }
      if id.value in table {
        table := table[id.value := ApplyPatch(table[id.value], patch.value)];
      }
      r := Ok(FindOne(id.value));
    }

    /**
     * `acknowledge`: sets status ACKNOWLEDGED and acknowledgedAt, whatever the current status;
     * null and no change for a missing id; throws for a falsy id. Keeps one ACTIVE alert per sensor.
     */
    method Acknowledge(id: Option<int>, now: int) returns (r: Result<Option<Alert>>)
      requires Valid()
      modifies this
      ensures Valid() && nextId == old(nextId)
      ensures !TruthyId(id) ==> r.Err? && table == old(table)
      ensures TruthyId(id) && id.value !in old(table) ==> r == Ok(None) && table == old(table)
      ensures TruthyId(id) && id.value in old(table) ==>
        && table == old(table)[id.value := old(table)[id.value].(status := Acknowledged, acknowledgedAt := Some(now))]
        && r == Ok(Some(table[id.value]))
      ensures AtMostOneActivePerSensor(old(table)) ==> AtMostOneActivePerSensor(table)
    {
      r := Update(id, Some(AcknowledgePatch(now)));
    }

    /**
     * `resolve`: sets status RESOLVED and resolvedAt, whatever the current status, keeping
     * acknowledgedAt; null and no change for a missing id; throws for a falsy id.
     */
    method Resolve(id: Option<int>, now: int) returns (r: Result<Option<Alert>>)
      requires Valid()
      modifies this
      ensures Valid() && nextId == old(nextId)
      ensures !TruthyId(id) ==> r.Err? && table == old(table)
      ensures TruthyId(id) && id.value !in old(table) ==> r == Ok(None) && table == old(table)
      ensures TruthyId(id) && id.value in old(table) ==>
        && table == old(table)[id.value := old(table)[id.value].(status := Resolved, resolvedAt := Some(now))]
        && r == Ok(Some(table[id.value]))
      ensures AtMostOneActivePerSensor(old(table)) ==> AtMostOneActivePerSensor(table)
    {
      r := Update(id, Some(ResolvePatch(now)));
    }

    /** `delete`: removes that id and only that id. */
    method Delete(id: int)
      requires Valid()
      modifies this
      ensures Valid() && nextId == old(nextId)
      ensures table == old(table) - {id}
      ensures AtMostOneActivePerSensor(old(table)) ==> AtMostOneActivePerSensor(table)
    {
      table := table - {id};
    }

    /** The body of the `checkSensorThresholds` loop for one sensor: one step of the tick. */
    method CheckSensor(sensor: S.Sensor, now: int, show: real -> string) returns (created: bool)
      requires Valid()
      modifies this
      ensures Valid()
      ensures TickState(table, nextId) == Raise(old(table), old(nextId), sensor, now, show)
      ensures nextId == old(nextId) + (if created then 1 else 0)
      ensures |table| == |old(table)| + (if created then 1 else 0)
      ensures AtMostOneActivePerSensor(old(table)) ==> AtMostOneActivePerSensor(table)
    {
      RaiseInvariants(table, nextId, sensor, now, show);
      created := false;
      if !Truthy(sensor.currentValue) || !Truthy(sensor.maxThreshold) {
        return;
      }
      var isThresholdExceeded := sensor.currentValue.value > sensor.maxThreshold.value;
      var isBelowMinThreshold := Truthy(sensor.minThreshold) && sensor.currentValue.value < sensor.minThreshold.value;
      if isThresholdExceeded || isBelowMinThreshold {
        var existing := HasActiveFor(table, sensor.id);
        if !existing {
          var _ := Create(AlertFor(sensor, isThresholdExceeded, show), now);
          created := true;
        }
      }
    }

    /**
     * `checkSensorThresholds`: for each sensor in turn, a breach raises an alert unless the sensor
     * already has an ACTIVE one; returns how many alerts were created. Keeps at most one ACTIVE
     * alert per sensor.
     */
    method CheckSensorThresholds(sensors: seq<S.Sensor>, now: int, show: real -> string) returns (alertsGenerated: nat)
      requires Valid()
      modifies this
      ensures Valid()
      ensures TickState(table, nextId) == Tick(old(table), old(nextId), sensors, now, show)
      ensures alertsGenerated == nextId - old(nextId) == |table| - |old(table)|
      ensures AtMostOneActivePerSensor(old(table)) ==> AtMostOneActivePerSensor(table)
    {
      alertsGenerated := 0;
      for i := 0 to |sensors|
        invariant Valid()
        invariant Tick(table, nextId, sensors[i..], now, show) == Tick(old(table), old(nextId), sensors, now, show)
        invariant alertsGenerated == nextId - old(nextId) == |table| - |old(table)|
        invariant AtMostOneActivePerSensor(old(table)) ==> AtMostOneActivePerSensor(table)
      {
        assert sensors[i..][1..] == sensors[i + 1..];
        var created := CheckSensor(sensors[i], now, show);
        if created {
          alertsGenerated := alertsGenerated + 1;
        }
      }
      assert sensors[|sensors|..] == [];
    }
  }
}
