/**
 * The polling thread's state and one iteration of its loop
 * (`Argus_Thread_Update`), plus the state reset on shutdown
 * (`Argus_Thread_Deinit`).
 */
module Poller {
  import opened Wrappers
  import opened Segment
  import opened ArgusApi

  /**
   * The value of the thread state. `waterSensor` is the cached record: an
   * index into the segment's record table, or `None` for a null pointer.
   */
  datatype ThreadValue = ThreadValue(
    poll: bool,
    dataAvailable: bool,
    lastCycleCounter: U32,
    thread: Option<Handle>,
    waterSensor: Option<nat>)

  /** The zero value `{}` of the thread state. */
  const DefaultThread := ThreadValue(false, false, 0, None, None)

  /**
   * Nothing to do: the sensor was resolved and the counter has not gone
   * below the value sampled when it was.
   */
  predicate Steady(t: ThreadValue, s: Snapshot)
  {
    t.dataAvailable && t.lastCycleCounter <= s.CycleCounter
  }

  /** The iteration scans the temperature records. */
  predicate Rescans(t: ThreadValue, s: Snapshot)
  {
    !Steady(t, s) && s.Signature == ArgusSignature
  }

  /**
   * What one iteration of the poll loop does to the thread state, given what
   * it reads from the segment. The restart clause (counter below the sampled
   * value) is a special case of the clause after it, kept as its headline.
   */
  function Step(t: ThreadValue, s: Snapshot): (r: ThreadValue)
    requires Rescans(t, s) ==> HasTemperatureRange(s)
    ensures r.poll == t.poll && r.thread == t.thread
    ensures Steady(t, s) ==> r == t
    ensures s.CycleCounter < t.lastCycleCounter ==>
      r.lastCycleCounter == s.CycleCounter && r.dataAvailable == (s.Signature == ArgusSignature)
    ensures !Steady(t, s) ==>
      r.lastCycleCounter == s.CycleCounter && r.dataAvailable == (s.Signature == ArgusSignature)
    ensures !Rescans(t, s) ==> r.waterSensor == t.waterSensor
    ensures Rescans(t, s) && HasWaterSensor(s) ==> r.waterSensor.Some? && IsFirstWaterSensor(s, r.waterSensor.value)
    ensures Rescans(t, s) && !HasWaterSensor(s) ==> r.waterSensor == t.waterSensor
  {
    if Steady(t, s) then t
    else if s.Signature != ArgusSignature then
      t.(dataAvailable := false, lastCycleCounter := s.CycleCounter)
    else
      var found := FindWaterSensor(s);
      t.(dataAvailable := true, lastCycleCounter := s.CycleCounter,
         waterSensor := if found.Some? then found else t.waterSensor)
  }

  /** The thread state the plugin keeps. */
  class ThreadState {
    var poll: bool
    var dataAvailable: bool
    var lastCycleCounter: U32
    var thread: Option<Handle>
    var waterSensor: Option<nat>

    function Value(): ThreadValue
      reads this
    {
      ThreadValue(poll, dataAvailable, lastCycleCounter, thread, waterSensor)
    }

    constructor ()
      ensures Value() == DefaultThread
    {
      poll, dataAvailable, lastCycleCounter, thread, waterSensor := false, false, 0, None, None;
    }
  }

  /**
   * One iteration of the poll loop: attach if not attached, then check for a
   * publisher restart and, when the sensor is not resolved, resample the
   * counter and, on a valid signature, scan the temperature records.
   * `openFile`, `mapView` and `openMutex` are what the attach attempt's
   * system calls return; `s` is what the iteration reads through `argus.data`.
   * The code dereferences `argus.data` without checking the attach result,
   * so the segment must be mapped once the attach attempt is over.
   */
  method PollStep(ts: ThreadState, argus: ArgusState,
                  openFile: Option<Handle>, mapView: Option<View>, openMutex: Option<Handle>,
                  s: Snapshot)
    requires argus.Valid()
    requires argus.initialized || AttachSucceeds(openFile, mapView, openMutex)
    requires Rescans(ts.Value(), s) ==> HasTemperatureRange(s)
    modifies ts, argus
    ensures argus.Valid() && argus.Attached()
    ensures old(argus.initialized) ==> unchanged(argus)
    ensures !old(argus.initialized) ==>
      argus.file == openFile && argus.data == mapView && argus.dataMutex == openMutex && argus.released == old(argus.released)
    ensures ts.Value() == Step(old(ts.Value()), s)
  {
    if !argus.initialized {
      var attached := argus.Init(openFile, mapView, openMutex);
    }

    // a counter below the sampled one means the publisher restarted
    ts.dataAvailable := ts.dataAvailable && ts.lastCycleCounter <= s.CycleCounter;
    if !ts.dataAvailable {
      ts.lastCycleCounter := s.CycleCounter;
      ts.dataAvailable := s.Signature == ArgusSignature;
      if ts.dataAvailable {
        var sensorOffset: U32 := s.OffsetForSensorType[SensorTypeTemperature];
        var sensorCount: U32 := s.SensorCount[SensorTypeTemperature];
        var i: U32 := 0;
        while i < sensorCount
          invariant i <= sensorCount
          invariant ts.poll == old(ts.poll) && ts.thread == old(ts.thread)
          invariant ts.dataAvailable && ts.lastCycleCounter == s.CycleCounter
          invariant ts.waterSensor == old(ts.waterSensor)
          invariant forall j :: sensorOffset <= j < sensorOffset + i ==> s.SensorData[j].Label != WaterSensorLabel
          modifies ts
        {
          if s.SensorData[sensorOffset + i].Label == WaterSensorLabel {
            ts.waterSensor := Some(sensorOffset + i);
            break;
          }
          i := i + 1;
        }
      }
    }
  }

  /** Stops polling and resets both states to their zero values. */
  method ThreadDeinit(ts: ThreadState, argus: ArgusState)
    modifies ts, argus
    ensures ts.Value() == DefaultThread
    ensures argus.Detached()
    ensures argus.released == old(argus.released) + ReleaseCalls(old(argus.file), old(argus.data), old(argus.dataMutex))
  {
    ts.poll := false;
    ts.poll, ts.dataAvailable, ts.lastCycleCounter, ts.thread, ts.waterSensor := false, false, 0, None, None;
    argus.Deinit();
  }

  /** Every iteration of a run of polls over `snaps` can read what it needs. */
  predicate RunDefined(t: ThreadValue, snaps: seq<Snapshot>)
    decreases |snaps|
  {
    snaps == [] ||
    ((Rescans(t, snaps[0]) ==> HasTemperatureRange(snaps[0])) && RunDefined(Step(t, snaps[0]), snaps[1..]))
  }

  /** The thread state after polling `snaps` in order. */
  function Run(t: ThreadValue, snaps: seq<Snapshot>): ThreadValue
    requires RunDefined(t, snaps)
    decreases |snaps|
  {
    if snaps == [] then t else Run(Step(t, snaps[0]), snaps[1..])
  }

  /** The cached record, if any, lies inside the record table. */
  predicate SensorInTable(t: ThreadValue)
  {
    t.waterSensor.Some? ==> t.waterSensor.value < MaxSensors
  }

  /** A poll keeps the cached index inside the table: a scan only stores indices of records it read. */
  lemma StepKeepsSensorInTable(t: ThreadValue, s: Snapshot)
    requires Rescans(t, s) ==> HasTemperatureRange(s)
    requires SensorInTable(t)
    ensures SensorInTable(Step(t, s))
  {
  }

  /** Every run of polls from a state whose cached index lies in the table keeps it there. */
  lemma {:induction false} RunKeepsSensorInTable(t: ThreadValue, snaps: seq<Snapshot>)
    requires RunDefined(t, snaps)
    requires SensorInTable(t)
    ensures SensorInTable(Run(t, snaps))
    decreases |snaps|
  {
    if snaps != [] {
      StepKeepsSensorInTable(t, snaps[0]);
      RunKeepsSensorInTable(Step(t, snaps[0]), snaps[1..]);
    }
  }

  /** Polling a segment that has not changed a second time changes nothing. */
  lemma StepIsIdempotent(t: ThreadValue, s: Snapshot)
    requires Rescans(t, s) ==> HasTemperatureRange(s)
    ensures !Rescans(Step(t, s), s)
    ensures Step(Step(t, s), s) == Step(t, s)
  {
  }

  /**
   * Once resolved, the state stays put for as long as the counter reads at
   * least the value sampled at resolution, whatever it does in between.
   */
  lemma {:induction false} SteadyRunIsNoOp(t: ThreadValue, snaps: seq<Snapshot>)
    requires t.dataAvailable
    requires forall i :: 0 <= i < |snaps| ==> t.lastCycleCounter <= snaps[i].CycleCounter
    ensures RunDefined(t, snaps)
    ensures Run(t, snaps) == t
    decreases |snaps|
  {
    if snaps != [] {
      assert Step(t, snaps[0]) == t;
      SteadyRunIsNoOp(t, snaps[1..]);
    }
  }

  /**
   * A sensor resolved while the counter read 0 is never re-resolved: no
   * later counter value is below 0, so restarts go undetected.
   */
  lemma ResolvedAtZeroNeverRescans(t: ThreadValue, snaps: seq<Snapshot>)
    requires t.dataAvailable && t.lastCycleCounter == 0
    ensures RunDefined(t, snaps) && Run(t, snaps) == t
  {
    SteadyRunIsNoOp(t, snaps);
  }

  /**
   * A restart whose scan finds no "T Sensor" leaves the old index in place
   * and still reports the sensor as available.
   */
  lemma RestartWithoutMatchKeepsOldSensor(t: ThreadValue, s: Snapshot)
    requires s.CycleCounter < t.lastCycleCounter && s.Signature == ArgusSignature
    requires HasTemperatureRange(s) && !HasWaterSensor(s)
    ensures Step(t, s).waterSensor == t.waterSensor
    ensures Step(t, s).dataAvailable
  {
  }
}
