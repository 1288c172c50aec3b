/**
 * The entry points the monitoring host calls: how many sources the plugin
 * has (`GetSourcesNum`) and the current reading (`GetSourceData`).
 */
module PluginApi {
  import opened Segment
  import opened Poller

  /** The largest finite single-precision float, the host's "invalid reading" marker. */
  const FltMax: real := 340282346638528859811704183484516925440.0

  /** The plugin always exposes exactly one source. */
  function GetSourcesNum(): (n: nat)
    ensures n == 1
  {
    1
  }

  /**
   * The reading of the cached record in the live table `sensorData` when
   * there is one and it is non-zero; otherwise 0 (not `FltMax`). The source
   * index is ignored.
   */
  function GetSourceData(index: nat, t: ThreadValue, sensorData: SensorTable): (r: real)
    requires SensorInTable(t)
    ensures r != 0.0 <==> t.waterSensor.Some? && sensorData[t.waterSensor.value].Value != 0.0
    ensures r != 0.0 ==> r == sensorData[t.waterSensor.value].Value
    ensures t.waterSensor.None? ==> r == 0.0 && r != FltMax
  {
    if t.waterSensor.Some? && sensorData[t.waterSensor.value].Value != 0.0
    then sensorData[t.waterSensor.value].Value
    else 0.0
  }

  /** After shutdown the plugin reports 0, whatever the segment holds. */
  lemma ReadAfterShutdownIsZero(index: nat, sensorData: SensorTable)
    ensures GetSourceData(index, DefaultThread, sensorData) == 0.0
  {
  }

  /**
   * Reads between two polls follow the live table: the value reported is
   * the record's value at the time of each read, a reading of 0 included.
   */
  lemma ReadsFollowLiveValue(t: ThreadValue, a: SensorTable, b: SensorTable)
    requires t.waterSensor.Some? && t.waterSensor.value < MaxSensors
    ensures GetSourceData(0, t, a) == a[t.waterSensor.value].Value
    ensures GetSourceData(0, t, b) == b[t.waterSensor.value].Value
  {
  }

  /**
   * A poll that resolves the sensor makes the next read report the first
   * "T Sensor" temperature record's reading (or 0 when that reading is 0).
   */
  lemma ResolvedReadReportsFirstMatch(t: ThreadValue, s: Snapshot)
    requires Rescans(t, s) && HasTemperatureRange(s) && HasWaterSensor(s)
    requires SensorInTable(t)
    ensures Step(t, s).waterSensor.Some?
    ensures IsFirstWaterSensor(s, Step(t, s).waterSensor.value)
    ensures GetSourceData(0, Step(t, s), s.SensorData) == s.SensorData[Step(t, s).waterSensor.value].Value
  {
  }

  /** A record table whose first record is `(name, value)` and whose other records are blank. */
  function ScenarioTable(name: string, value: real): SensorTable
  {
    seq(MaxSensors, i => if i == 0 then SensorRecord(name, value) else SensorRecord("", 0.0))
  }

  /**
   * The publisher starts with "T Sensor" reading 42, then restarts with a
   * layout whose temperature range has no "T Sensor": the restart is
   * detected, but the cached index now names the new layout's "CPU"
   * record, whose reading 55 is then reported.
   */
  lemma RestartScenario()
    ensures
      var t0 := DefaultThread.(poll := true);
      var offsets := seq(SensorTypeTemperature + 1, _ => 0);
      var counts := seq(SensorTypeTemperature + 1, i => if i == SensorTypeTemperature then 1 else 0);
      var before := Snapshot(ArgusSignature, 10, offsets, counts, ScenarioTable("T Sensor", 42.0));
      var after := Snapshot(ArgusSignature, 3, offsets, counts, ScenarioTable("CPU", 55.0));
      var t1 := Step(t0, before);
      var t2 := Step(t1, after);
      GetSourceData(0, t0, before.SensorData) == 0.0 &&
      GetSourceData(0, t1, before.SensorData) == 42.0 &&
      t2.dataAvailable && t2.lastCycleCounter == 3 &&
      GetSourceData(0, t2, after.SensorData) == 55.0
  {
  }
}
