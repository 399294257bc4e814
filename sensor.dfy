/**
 * The sensor registry: the sensor table, guarded reads and updates, reading
 * ingestion, the simulated-reading tick and the one-time seeding of six sensors.
 */
module Sensors {
  import opened Wrappers
  import opened Tables

  datatype SensorType = Temperature | Humidity | AirQuality | Noise | Traffic | Flood | Earthquake

  datatype SensorStatus = Active | Inactive | Maintenance | Error

  /** A row of the sensor table; nullable columns are `Option`s, timestamps are milliseconds. */
  datatype Sensor = Sensor(
    id: int,
    name: string,
    sensorType: SensorType,
    latitude: real,
    longitude: real,
    location: string,
    status: SensorStatus,
    currentValue: Option<real>,
    unit: Option<string>,
    minThreshold: Option<real>,
    maxThreshold: Option<real>,
    createdAt: int,
    lastReading: Option<int>)

  /** What a caller hands to `create`: every column but the generated ones, `status` optional. */
  datatype SensorData = SensorData(
    name: string,
    sensorType: SensorType,
    latitude: real,
    longitude: real,
    location: string,
    status: Option<SensorStatus>,
    currentValue: Option<real>,
    unit: Option<string>,
    minThreshold: Option<real>,
    maxThreshold: Option<real>)

  /** A partial update: `None` leaves a column alone, `Some(v)` writes `v` (which may be null). */
  datatype SensorPatch = SensorPatch(
    name: Option<string>,
    sensorType: Option<SensorType>,
    latitude: Option<real>,
    longitude: Option<real>,
    location: Option<string>,
    status: Option<SensorStatus>,
    currentValue: Option<Option<real>>,
    unit: Option<Option<string>>,
    minThreshold: Option<Option<real>>,
    maxThreshold: Option<Option<real>>,
    lastReading: Option<Option<int>>)

  const NoChange := SensorPatch(None, None, None, None, None, None, None, None, None, None, None)

  /** The row `create` stores: the given columns, status defaulting to ACTIVE, no reading yet. */
  function NewSensor(d: SensorData, id: int, now: int): (s: Sensor)
    ensures s.id == id && s.createdAt == now && s.lastReading == None
    ensures s.status == (if d.status.Some? then d.status.value else Active)
    ensures s.name == d.name && s.currentValue == d.currentValue
    ensures s.minThreshold == d.minThreshold && s.maxThreshold == d.maxThreshold
  {
    Sensor(id, d.name, d.sensorType, d.latitude, d.longitude, d.location, d.status.GetOr(Active),
           d.currentValue, d.unit, d.minThreshold, d.maxThreshold, now, None)
  }

  /** What the storage layer's `update(id, patch)` does to the row. */
  function ApplyPatch(s: Sensor, p: SensorPatch): Sensor {
    Sensor(s.id, p.name.GetOr(s.name), p.sensorType.GetOr(s.sensorType),
           p.latitude.GetOr(s.latitude), p.longitude.GetOr(s.longitude), p.location.GetOr(s.location),
           p.status.GetOr(s.status), p.currentValue.GetOr(s.currentValue), p.unit.GetOr(s.unit),
           p.minThreshold.GetOr(s.minThreshold), p.maxThreshold.GetOr(s.maxThreshold),
           s.createdAt, p.lastReading.GetOr(s.lastReading))
  }

  /** A patch never touches the identity or the creation time, is idempotent, and the empty patch is a no-op. */
  lemma PatchProperties(s: Sensor, p: SensorPatch)
    ensures ApplyPatch(s, p).id == s.id && ApplyPatch(s, p).createdAt == s.createdAt
    ensures ApplyPatch(ApplyPatch(s, p), p) == ApplyPatch(s, p)
    ensures ApplyPatch(s, NoChange) == s
  {
  }

  /** The patch `updateSensorReading` writes. */
  function ReadingPatch(value: real, now: int): SensorPatch {
    NoChange.(currentValue := Some(Some(value)), lastReading := Some(Some(now)))
  }

  /** A reading sets the current value and the reading time, and nothing else. */
  function WithReading(s: Sensor, value: real, now: int): (r: Sensor)
    ensures r == s.(currentValue := Some(value), lastReading := Some(now))
  {
    ApplyPatch(s, ReadingPatch(value, now))
  }

  predicate IsActive(s: Sensor) {
    s.status == Active
  }

  /** The whole sensor table after one simulated-reading tick. */
  function Simulated(t: map<int, Sensor>, valueFor: int -> real, now: int): map<int, Sensor> {
    map id | id in t :: if IsActive(t[id]) then WithReading(t[id], valueFor(id), now) else t[id]
  }

  /**
   * A simulated-reading tick keeps the same sensors, leaves every sensor that is not ACTIVE
   * as it was, and changes exactly the current value and reading time of every ACTIVE one.
   */
  lemma SimulatedProperties(t: map<int, Sensor>, valueFor: int -> real, now: int, id: int)
    requires id in t
    ensures Simulated(t, valueFor, now).Keys == t.Keys
    ensures !IsActive(t[id]) ==> Simulated(t, valueFor, now)[id] == t[id]
    ensures IsActive(t[id]) ==>
      var r := Simulated(t, valueFor, now)[id];
      r.currentValue == Some(valueFor(id)) && r.lastReading == Some(now) &&
      r.(currentValue := t[id].currentValue, lastReading := t[id].lastReading) == t[id]
  {
  }

  /** The table once the readings of the first `n` of `ids` have been written, one after the other. */
  ghost function ReadingsFor(t: map<int, Sensor>, ids: seq<int>, n: nat, valueFor: int -> real, now: int): map<int, Sensor>
    requires n <= |ids|
  {
    if n == 0 then t
    else
      var before, id := ReadingsFor(t, ids, n - 1, valueFor, now), ids[n - 1];
      if id in before then before[id := WithReading(before[id], valueFor(id), now)] else before
  }

  /**
   * Writing the readings of the first `n` of `ids` one by one gives every listed sensor its
   * reading once, however often it is listed, and leaves the others alone.
   */
  lemma {:induction false} ReadingsForEach(t: map<int, Sensor>, ids: seq<int>, n: nat, valueFor: int -> real, now: int)
    requires n <= |ids|
    ensures ReadingsFor(t, ids, n, valueFor, now).Keys == t.Keys
    ensures forall id :: id in t ==>
      ReadingsFor(t, ids, n, valueFor, now)[id] == if id in ids[..n] then WithReading(t[id], valueFor(id), now) else t[id]
  {
    if n > 0 {
      ReadingsForEach(t, ids, n - 1, valueFor, now);
      assert ids[..n] == ids[..n - 1] + [ids[n - 1]];
      assert forall id :: id in ids[..n] <==> id in ids[..n - 1] || id == ids[n - 1];
    }
  }

  /** When `ids` lists exactly the ACTIVE sensors, writing all their readings is the simulated-reading tick. */
  lemma ReadingsForAll(t: map<int, Sensor>, ids: seq<int>, valueFor: int -> real, now: int)
    requires forall id :: id in ids <==> id in t && IsActive(t[id])
    ensures ReadingsFor(t, ids, |ids|, valueFor, now) == Simulated(t, valueFor, now)
  {
    ReadingsForEach(t, ids, |ids|, valueFor, now);
    assert ids[..|ids|] == ids;
    var r, s := ReadingsFor(t, ids, |ids|, valueFor, now), Simulated(t, valueFor, now);
    forall id | id in r ensures r[id] == s[id] {
      assert id in ids <==> IsActive(t[id]);
    }
  }

  /** The ids the query `status = ACTIVE` returns: ACTIVE sensors only, in id order. */
  function ActiveList(t: map<int, Sensor>, nextId: int): (ids: seq<int>)
    ensures forall id :: id in ids ==> id in t && IsActive(t[id])
  {
    KeysWhere(t, KeysFrom(t, 1, nextId), IsActive)
  }

  /** Over a well-formed table the query misses no ACTIVE sensor and lists each once, in id order. */
  lemma ActiveListComplete(t: map<int, Sensor>, nextId: int)
    requires WellFormed(t, nextId, SensorId)
    ensures forall id :: id in t && IsActive(t[id]) ==> id in ActiveList(t, nextId)
    ensures Increasing(ActiveList(t, nextId))
  {
  }

  /** The six sensors seeded into an empty table. */
  function FakeSensors(): (fakes: seq<SensorData>)
    ensures |fakes| == 6
    ensures forall i :: 0 <= i < |fakes| ==>
      fakes[i].status == None && fakes[i].currentValue == None &&
      fakes[i].minThreshold.Some? && fakes[i].maxThreshold.Some? &&
      fakes[i].minThreshold.value < fakes[i].maxThreshold.value
  {
    [ SensorData("Sensor Temperatura Centro", Temperature, -23.5505, -46.6333,
                 "Centro de São Paulo", None, None, Some("°C"), Some(5.0), Some(40.0)),
      SensorData("Sensor Qualidade do Ar Vila Madalena", AirQuality, -23.5598, -46.6890,
                 "Vila Madalena", None, None, Some("AQI"), Some(0.0), Some(150.0)),
      SensorData("Sensor Tráfego Av. Paulista", Traffic, -23.5613, -46.6565,
                 "Avenida Paulista", None, None, Some("veículos/min"), Some(0.0), Some(100.0)),
      SensorData("Sensor Umidade Ibirapuera", Humidity, -23.5873, -46.6578,
                 "Parque Ibirapuera", None, None, Some("%"), Some(30.0), Some(90.0)),
      SensorData("Sensor Ruído Liberdade", Noise, -23.5587, -46.6347,
                 "Bairro da Liberdade", None, None, Some("dB"), Some(30.0), Some(85.0)),
      SensorData("Sensor Enchente Marginal", Flood, -23.5290, -46.6658,
                 "Marginal Tietê", None, None, Some("cm"), Some(0.0), Some(200.0)) ]
  }

  /** The rows created from the first `n` of `fakes`, stored under ids nextId, nextId + 1, ... in that order. */
  function SeedRows(fakes: seq<SensorData>, nextId: int, n: nat, now: int): map<int, Sensor>
    requires n <= |fakes|
  {
    if n == 0 then map[]
    else
      var prev := SeedRows(fakes, nextId, n - 1, now);
      prev[nextId + n - 1 := NewSensor(fakes[n - 1], nextId + n - 1, now)]
  }

  /** The seeded rows occupy exactly the `n` ids from nextId on, each row under its own id. */
  lemma {:induction false} SeedRowsShape(fakes: seq<SensorData>, nextId: int, n: nat, now: int)
    requires n <= |fakes|
    ensures forall k :: k in SeedRows(fakes, nextId, n, now) <==> nextId <= k < nextId + n
    ensures forall k :: k in SeedRows(fakes, nextId, n, now) ==> SeedRows(fakes, nextId, n, now)[k].id == k
    ensures |SeedRows(fakes, nextId, n, now)| == n
  {
    if n > 0 {
      SeedRowsShape(fakes, nextId, n - 1, now);
    }
  }

  /** Creating the next row extends the seeded rows by one. */
  lemma SeedRowsStep(fakes: seq<SensorData>, nextId: int, i: nat, now: int)
    requires i < |fakes|
    ensures SeedRows(fakes, nextId, i + 1, now) ==
      SeedRows(fakes, nextId, i, now)[nextId + i := NewSensor(fakes[i], nextId + i, now)]
  {
  }

  /** The row under id nextId + i is the one created from `fakes[i]`. */
  lemma {:induction false} SeedRowsAt(fakes: seq<SensorData>, nextId: int, n: nat, now: int, i: nat)
    requires i < n <= |fakes|
    ensures nextId + i in SeedRows(fakes, nextId, n, now)
    ensures SeedRows(fakes, nextId, n, now)[nextId + i] == NewSensor(fakes[i], nextId + i, now)
  {
    if i < n - 1 {
      SeedRowsAt(fakes, nextId, n - 1, now, i);
    }
  }

  /** The sensor table after `initializeFakeSensors`: untouched unless empty. */
  function Seeded(t: map<int, Sensor>, nextId: int, now: int): map<int, Sensor> {
    if |t| > 0 then t else SeedRows(FakeSensors(), nextId, |FakeSensors()|, now)
  }

  /** The id counter after `initializeFakeSensors`. */
  function SeededNextId(t: map<int, Sensor>, nextId: int): int {
    if |t| > 0 then nextId else nextId + 6
  }

  /**
   * Seeding an empty table stores exactly six ACTIVE sensors without readings, each with
   * minThreshold < maxThreshold; seeding a non-empty table changes nothing; hence seeding
   * twice is seeding once.
   */
  lemma {:induction false} SeededProperties(t: map<int, Sensor>, nextId: int, now: int, later: int)
    ensures |t| > 0 ==> Seeded(t, nextId, now) == t
    ensures |t| == 0 ==> |Seeded(t, nextId, now)| == 6
    ensures |t| == 0 ==> forall k :: k in Seeded(t, nextId, now) <==> nextId <= k < nextId + 6
    ensures |t| == 0 ==> SeededNextId(t, nextId) == nextId + 6
    ensures |t| == 0 ==> forall id :: id in Seeded(t, nextId, now) ==>
      var s := Seeded(t, nextId, now)[id];
      s.id == id && s.status == Active && s.currentValue == None &&
      s.minThreshold.Some? && s.maxThreshold.Some? && s.minThreshold.value < s.maxThreshold.value
    ensures var t1 := Seeded(t, nextId, now);
      Seeded(t1, SeededNextId(t, nextId), later) == t1
  {
    if |t| == 0 {
      var fakes := FakeSensors();
      var r := SeedRows(fakes, nextId, |fakes|, now);
      SeedRowsShape(fakes, nextId, |fakes|, now);
      forall id | id in r
        ensures r[id].id == id && r[id].status == Active && r[id].currentValue == None
        ensures r[id].minThreshold.Some? && r[id].maxThreshold.Some?
        ensures r[id].minThreshold.value < r[id].maxThreshold.value
      {
        SeedRowsAt(fakes, nextId, |fakes|, now, id - nextId);
      }
    }
  }

  function SensorId(s: Sensor): int {
    s.id
  }

  /** The sensor table and its id counter (the storage layer's autoincrement). */
  class SensorRegistry {
    var table: map<int, Sensor>
    var nextId: int

    ghost predicate Valid()
      reads this
    {
      WellFormed(table, nextId, SensorId)
    }

    constructor ()
      ensures Valid() && table == map[] && nextId == 1
    {
      table := map[];
      nextId := 1;
    }

    /** `findAll`: the sensor table as the storage layer lists it. */
    function FindAll(): (r: seq<Sensor>)
      reads this
      requires Valid()
      ensures |r| == |table|
      ensures forall s :: s in r ==> s.id in table && table[s.id] == s
      ensures forall id :: id in table ==> table[id] in r
      ensures forall i, j :: 0 <= i < j < |r| ==> r[i].id < r[j].id
    {
      ListingHolds(table, nextId, SensorId);
      Listing(table, nextId, SensorId)
    }

    /** `findOne`: a falsy id throws; otherwise the sensor with that id, or null. */
    function FindOne(id: Option<int>): (r: Result<Option<Sensor>>)
      reads this
      requires Valid()
      ensures r.Err? <==> !TruthyId(id)
      ensures r.Ok? ==> (r.value.Some? <==> id.value in table)
      ensures r.Ok? && r.value.Some? ==> r.value.value == table[id.value] && r.value.value.id == id.value
    {
      if !TruthyId(id) then Err("ID is required to find a sensor")
      else if id.value in table then Ok(Some(table[id.value]))
      else Ok(None)
    }

    /** `create`: stores the new row under the next id. */
    method Create(data: SensorData, now: int) returns (s: Sensor)
      requires Valid()
      modifies this
      ensures Valid()
      ensures s == NewSensor(data, old(nextId), now)
      ensures old(nextId) !in old(table)
      ensures table == old(table)[old(nextId) := s] && nextId == old(nextId) + 1
    {
      s := NewSensor(data, nextId, now);
      table := table[nextId := s];
      nextId := nextId + 1;
    }

    /**
     * `update`: a falsy id or a missing patch throws and changes nothing; otherwise the
     * patch is written to the row with that id, if any, and the re-read row is returned.
     */
    method Update(id: Option<int>, patch: Option<SensorPatch>) returns (r: Result<Option<Sensor>>)
      requires Valid()
      modifies this
      ensures Valid() && nextId == old(nextId)
      ensures !TruthyId(id) ==> r == Err("ID is required to update a sensor") && table == old(table)
      ensures TruthyId(id) && patch.None? ==> r == Err("Update data is required") && table == old(table)
      ensures TruthyId(id) && patch.Some? ==>
        && table == (if id.value in old(table)
                     then old(table)[id.value := ApplyPatch(old(table)[id.value], patch.value)]
                     else old(table))
        && r == Ok(if id.value in table then Some(table[id.value]) else None)
    {
      if !TruthyId(id) {
        return Err("ID is required to update a sensor");
      }
      if patch.None? {
        return Err("Update data is required");
      }
      if id.value in table {
        table := table[id.value := ApplyPatch(table[id.value], patch.value)];
      }
      r := FindOne(id);
    }

    /** `delete`: removes that id and only that id. */
    method Delete(id: int)
      requires Valid()
      modifies this
      ensures Valid() && nextId == old(nextId)
      ensures table == old(table) - {id}
    {
      table := table - {id};
    }

    /** `updateSensorReading`: writes the value and the reading time to that sensor, if it exists. */
    method UpdateSensorReading(id: int, value: real, now: int)
      requires Valid()
      modifies this
      ensures Valid() && nextId == old(nextId)
      ensures table == if id in old(table) then old(table)[id := WithReading(old(table)[id], value, now)]
                       else old(table)
    {
      if id in table {
        table := table[id := ApplyPatch(table[id], ReadingPatch(value, now))];
      }
    }

    /**
     * `simulateSensorReadings`: every ACTIVE sensor gets the reading `valueFor(id)` taken
     * at `now`; sensors with any other status are left as they are.
     */
    method SimulateSensorReadings(valueFor: int -> real, now: int)
      requires Valid()
      modifies this
      ensures Valid() && nextId == old(nextId)
      ensures table == Simulated(old(table), valueFor, now)
    {
      var ids := ActiveList(table, nextId);
      ActiveListComplete(table, nextId);
      ReadingsForAll(table, ids, valueFor, now);
      ReadAll(ids, valueFor, now);
    }

    /** The loop of the simulation: writes the reading of each listed sensor, one after the other. */
    method ReadAll(ids: seq<int>, valueFor: int -> real, now: int)
      requires Valid()
      modifies this
      ensures Valid() && nextId == old(nextId)
      ensures table == ReadingsFor(old(table), ids, |ids|, valueFor, now)
    {
      for i := 0 to |ids|
        invariant Valid() && nextId == old(nextId)
        invariant table == ReadingsFor(old(table), ids, i, valueFor, now)
      {
        UpdateSensorReading(ids[i], valueFor(ids[i]), now);
      }
    }

    /** `initializeFakeSensors`: seeds the six sensors when the table is empty, otherwise does nothing. */
    method InitializeFakeSensors(now: int)
      requires Valid()
      modifies this
      ensures Valid()
      ensures table == Seeded(old(table), old(nextId), now)
      ensures nextId == SeededNextId(old(table), old(nextId))
    {
      if |table| > 0 {
        return;
      }
      assert table == map[] by { assert table.Keys == {} by { assert |table.Keys| == 0; } }
      CreateAll(FakeSensors(), now);
    }

    /** The seeding loop: creates one row per entry of `fakes`, in order, into an empty table. */
    method CreateAll(fakes: seq<SensorData>, now: int)
      requires Valid() && table == map[]
      modifies this
      ensures Valid()
      ensures table == SeedRows(fakes, old(nextId), |fakes|, now)
      ensures nextId == old(nextId) + |fakes|
    {
      for i := 0 to |fakes|
        invariant Valid()
        invariant nextId == old(nextId) + i
        invariant table == SeedRows(fakes, old(nextId), i, now)
      {
        SeedRowsStep(fakes, old(nextId), i, now);
        var _ := Create(fakes[i], now);
      }
    }
  }
}
