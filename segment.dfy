/**
 * The segment Argus Monitor publishes in shared memory, as far as the
 * plugin reads it, and the search for the water-temperature record in it.
 */
module Segment {
  import opened Wrappers

  /** Unsigned 32-bit integers (`u32`, `DWORD`). */
  const U32Limit: int := 0x1_0000_0000
  type U32 = x: int | 0 <= x < U32Limit

  /** The value of `Signature` in a live segment. */
  const ArgusSignature: U32 := 0x4D677241

  /** Index of the temperature category in the per-category tables. */
  const SensorTypeTemperature: nat := 1

  /** The label of the record the plugin reports. */
  const WaterSensorLabel: string := "T Sensor"

  /** One sensor record: its label (the characters before the terminator) and its reading. */
  datatype SensorRecord = SensorRecord(Label: string, Value: real)

  /** Capacity of the segment's statically sized record table. */
  const MaxSensors: nat := 512

  /** The record table: always `MaxSensors` records, so an index into it stays valid across restarts. */
  type SensorTable = t: seq<SensorRecord> | |t| == MaxSensors
    witness seq(MaxSensors, _ => SensorRecord("", 0.0))

  /**
   * What one read of the mapped segment sees: the signature, the publisher's
   * cycle counter, the offset and count of each category's records, and
   * the flat record table.
   */
  datatype Snapshot = Snapshot(
    Signature: U32,
    CycleCounter: U32,
    OffsetForSensorType: seq<U32>,
    SensorCount: seq<U32>,
    SensorData: SensorTable)

  /**
   * The temperature category exists and its records lie inside the table,
   * with `offset + i` never leaving the range of a u32.
   */
  predicate HasTemperatureRange(s: Snapshot)
  {
    SensorTypeTemperature < |s.OffsetForSensorType| &&
    SensorTypeTemperature < |s.SensorCount| &&
    s.OffsetForSensorType[SensorTypeTemperature] + s.SensorCount[SensorTypeTemperature] <= |s.SensorData| &&
    s.OffsetForSensorType[SensorTypeTemperature] + s.SensorCount[SensorTypeTemperature] <= U32Limit
  }

  function TemperatureOffset(s: Snapshot): nat
    requires HasTemperatureRange(s)
  {
    s.OffsetForSensorType[SensorTypeTemperature]
  }

  function TemperatureCount(s: Snapshot): nat
    requires HasTemperatureRange(s)
  {
    s.SensorCount[SensorTypeTemperature]
  }

  /** Record `k` is a temperature record labelled "T Sensor". */
  predicate IsWaterSensorAt(s: Snapshot, k: nat)
    requires HasTemperatureRange(s)
  {
    TemperatureOffset(s) <= k < TemperatureOffset(s) + TemperatureCount(s) &&
    s.SensorData[k].Label == WaterSensorLabel
  }

  /** Record `k` is the first temperature record labelled "T Sensor". */
  predicate IsFirstWaterSensor(s: Snapshot, k: nat)
    requires HasTemperatureRange(s)
  {
    IsWaterSensorAt(s, k) &&
    forall j :: TemperatureOffset(s) <= j < k ==> s.SensorData[j].Label != WaterSensorLabel
  }

  /** Some temperature record is labelled "T Sensor". */
  ghost predicate HasWaterSensor(s: Snapshot)
    requires HasTemperatureRange(s)
  {
    exists k :: IsWaterSensorAt(s, k)
  }

  /**
   * Index of the first record in `sensorData[offset .. offset + count]`
   * labelled "T Sensor", or `None` when that range holds none.
   */
  function FindSensor(sensorData: seq<SensorRecord>, offset: nat, count: nat): (r: Option<nat>)
    requires offset + count <= |sensorData|
    ensures r.Some? ==> offset <= r.value < offset + count && sensorData[r.value].Label == WaterSensorLabel
    ensures r.Some? ==> forall j :: offset <= j < r.value ==> sensorData[j].Label != WaterSensorLabel
    ensures r.None? <==> forall j :: offset <= j < offset + count ==> sensorData[j].Label != WaterSensorLabel
    decreases count
  {
    if count == 0 then None
    else if sensorData[offset].Label == WaterSensorLabel then Some(offset)
    else FindSensor(sensorData, offset + 1, count - 1)
  }

  /** The scan of a snapshot's temperature range. */
  function FindWaterSensor(s: Snapshot): (r: Option<nat>)
    requires HasTemperatureRange(s)
    ensures r.Some? <==> HasWaterSensor(s)
    ensures r.Some? ==> IsFirstWaterSensor(s, r.value)
  {
    var r := FindSensor(s.SensorData, TemperatureOffset(s), TemperatureCount(s));
    assert r.Some? ==> IsWaterSensorAt(s, r.value);
    assert r.None? ==> forall k :: !IsWaterSensorAt(s, k);
    r
  }

  /**
   * The scan never looks outside its range: two tables whose labels agree
   * on `[offset, offset + count)` give the same answer, whatever lies
   * elsewhere (other categories may hold records with the same label).
   */
  lemma FindSensorIgnoresOutside(a: seq<SensorRecord>, b: seq<SensorRecord>, offset: nat, count: nat)
    requires offset + count <= |a| && offset + count <= |b|
    requires forall j :: offset <= j < offset + count ==> a[j].Label == b[j].Label
    ensures FindSensor(a, offset, count) == FindSensor(b, offset, count)
  {
  }
}
