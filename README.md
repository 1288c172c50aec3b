# Argus Monitor source plugin for MSI Afterburner: a Dafny model

The plugin reads sensor data that Argus Monitor publishes in a named
shared-memory segment. It finds the temperature record labelled
"T Sensor" and reports its reading to MSI Afterburner as the plugin's one
monitoring source. This project models that logic in `src/main.cpp`:

- attaching to the segment and detaching from it (`Argus_Init`, `Argus_Deinit`);
- one iteration of the polling thread's loop (`Argus_Thread_Update`): attach if
  needed, detect a publisher restart through the cycle counter, check the
  signature, and scan the temperature records;
- the shutdown reset (`Argus_Thread_Deinit`);
- the host entry points `GetSourcesNum` and `GetSourceData`.

Modules:

- `Wrappers` defines `Option`, used for handles and pointers that may be null.
- `Segment` models the published segment as a `Snapshot` value and defines the
  first-match search `FindSensor`, which specifies the scan.
- `ArgusApi` holds the class `ArgusState`, with `Init` and `Deinit` updating
  its fields in place. Each system call is an input: the handle or view it
  returns, or `None` when it fails. A ghost log `released` records the
  release calls `Deinit` issues, so "a failed attach leaks nothing" can be stated.
- `Poller` holds the class `ThreadState`. `Step` is the specification of one
  loop iteration. `PollStep` is that iteration written imperatively, with the
  scan as a loop with `break`. `ThreadDeinit` is the shutdown reset. The
  lemmas there cover runs of several polls (`Run`).
- `PluginApi` holds `GetSourcesNum`, `GetSourceData`, and scenario lemmas that
  combine polls and reads.

`GetSourceData` takes two inputs: the value of the thread state it reads,
and the live record table that the cached pointer points into. A read
therefore sees the record's value at the time of the call. Its precondition,
that any cached index lies inside the table, is kept by every poll
(`StepKeepsSensorInTable`, `RunKeepsSensorInTable`). So every read after any
run of polls from the initial state is defined.

Where the code and its own comments (src/main.cpp:190-192, 258) suggest different behaviour, the model follows the code:

- After a restart, `waterSensor` is not cleared. If the new scan finds no
  "T Sensor", the old index stays cached and `dataAvailable` is still set. The
  host is then shown whatever record now sits at that index
  (`RestartWithoutMatchKeepsOldSensor`, `RestartScenario`).
- `dataAvailable` becomes true whenever the signature matches, even when the
  scan finds nothing.
- Restart detection compares the counter with the value sampled when the
  sensor was last resolved, not with the previous poll's value. A decrease
  between two polls that stays at or above the sampled value goes unnoticed.
  A sensor resolved while the counter read 0 is never re-resolved
  (`SteadyRunIsNoOp`, `ResolvedAtZeroNeverRescans`).
- With no reading, `GetSourceData` returns 0, not the host's invalid marker
  `FLT_MAX` that the comment at `src/main.cpp:258` names. A genuine reading
  of 0 is also reported as 0.
- The loop ignores the result of `Argus_Init` and then dereferences
  `as.data`. When the publisher is not running, that pointer is null. So
  `PollStep` requires the segment to be mapped once the attach attempt is
  over: either the state was already attached, or all three acquisitions
  succeed. The hazard is written as a precondition, not guarded.

`SENSOR_TYPE_TEMPERATURE` is taken to be 1, its position after
`SENSOR_TYPE_INVALID` in the Argus sensor-type enumeration;
`argus_monitor_data_api.h` is not part of this model, and nothing proved
depends on the value: the scenario in `RestartScenario` builds its category
tables from the constant. The record table is statically sized, so a cached
index stays inside it across publisher restarts. The model gives the table
the type `SensorTable`, whose length is always `MaxSensors`. That value is
taken to be 512, from the same header; only `RestartScenario` needs a
particular value, and it needs only that the value is at least 1. The scan's precondition is `HasTemperatureRange`:
the temperature category exists, and its records lie inside the table with
`offset + count` within u32 range, so `sensorOffset + i` neither wraps nor
reads past the table. The real segment's fixed-size arrays guarantee this
only if the publisher writes consistent offsets. That is why the condition is
a precondition, and only of iterations that scan.

## Model

| member | source | states |
|---|---|---|
| `Segment.FindSensor` | src/main.cpp:165-178 | the result is the index of the first record in `[offset, offset+count)` labelled "T Sensor"; it is `None` exactly when no record in that range has the label |
| `Segment.FindWaterSensor` | src/main.cpp:165-178 | the scan of the temperature category finds a record exactly when the category holds a "T Sensor" record, and what it finds is the first one |
| `Segment.FindSensorIgnoresOutside` | src/main.cpp:166-173 | the scan's answer depends only on the labels inside the category's sub-range; duplicates in other categories do not affect it |
| `ArgusApi.ReleaseCalls` | src/main.cpp:96-106 | a fully attached state releases the mutex, then the view, then the mapping; a detached state releases nothing, and only a detached state does |
| `ArgusApi.ArgusState.constructor` | src/main.cpp:44-50 | a new state is detached and has released nothing |
| `ArgusApi.ArgusState.Init` | src/main.cpp:74-94 | succeeds exactly when the mapping, the view and the mutex are all obtained, and then holds all three with `initialized` set; on failure every field is back at its zero value, and from a detached start exactly the view and mapping acquired before the failure are released |
| `ArgusApi.ArgusState.Deinit` | src/main.cpp:96-109 | always ends detached, having released the held mutex, view and mapping in that order; on a detached state it releases nothing |
| `ArgusApi.DeinitIsIdempotent` | src/main.cpp:96-109 | detaching twice releases only what the first call released and ends detached |
| `Poller.Step` | src/main.cpp:151-180 | steady state (resolved, counter not below the sampled one) changes nothing; otherwise the counter is resampled and `dataAvailable` becomes whether the signature is `0x4D677241`, even when the scan finds nothing; without a scan `waterSensor` is unchanged; with one it becomes the first "T Sensor" record of the category, or keeps its old value when there is none; `poll` and `thread` never change |
| `Poller.ThreadState.constructor` | src/main.cpp:52-59 | a new thread state has the zero value |
| `Poller.PollStep` | src/main.cpp:149-180 | an attach is attempted only when not initialized; provided the segment is then mapped, the state ends fully attached, and the thread state ends as `Step` of the old one; the scan loop keeps the invariant that no record examined so far is labelled "T Sensor" |
| `Poller.ThreadDeinit` | src/main.cpp:198-209 | the thread state ends at its zero value (`poll` false, not available, counter 0, no sensor) and the segment state ends detached, with its resources released |
| `Poller.StepKeepsSensorInTable` | src/main.cpp:169-176 | a poll only ever caches the index of a record it read, so a cached index stays inside the fixed-size table |
| `Poller.RunKeepsSensorInTable` | src/main.cpp:147-178 | after any run of polls starting from a state whose cached index lies in the table, the cached index still lies in the table, so every later read is defined |
| `Poller.StepIsIdempotent` | src/main.cpp:155-160 | after any poll, a second poll of the same segment does not scan, and it leaves the state as the first poll left it |
| `Poller.SteadyRunIsNoOp` | src/main.cpp:147-160 | from a resolved state, any run of polls whose counters stay at or above the sampled counter leaves the state unchanged and never scans |
| `Poller.ResolvedAtZeroNeverRescans` | src/main.cpp:155-158 | a sensor resolved at counter 0 stays resolved through every later run of polls, whatever the counter does |
| `Poller.RestartWithoutMatchKeepsOldSensor` | src/main.cpp:155-178 | a detected restart whose scan finds no "T Sensor" keeps the old cached index and reports data as available |
| `PluginApi.GetSourcesNum` | src/main.cpp:220-224 | there is always exactly one source |
| `PluginApi.GetSourceData` | src/main.cpp:248-260 | the result is non-zero exactly when a record is cached and its live value is non-zero, and is then that value; with no cached record it is 0, not `FLT_MAX`; the index is ignored |
| `PluginApi.ReadAfterShutdownIsZero` | src/main.cpp:203-208 | after the thread state is reset, reads report 0 |
| `PluginApi.ReadsFollowLiveValue` | src/main.cpp:253-256 | two reads with no poll between them each report the cached record's value at the time of the read, including a value of 0 |
| `PluginApi.ResolvedReadReportsFirstMatch` | src/main.cpp:155-178 | a poll that scans a category holding a "T Sensor" record caches the first one, and the next read reports its value |
| `PluginApi.RestartScenario` | src/main.cpp:155-178 | publisher up with "T Sensor" at 42: the read goes from 0 to 42 after one poll; after a restart without that label, the restart is detected but the read reports the new layout's record at the old index (55) |

## Left out

- The system calls `OpenFileMappingW`, `MapViewOfFile`, `OpenMutexW`, `CloseHandle` and `UnmapViewOfFile`. Each becomes an input or a logged release; the mapping name and size are not modelled.
- `Argus_Thread_Init`, `CreateThread`, the `while (ts.poll)` loop itself, `Sleep(250)`, and the wait for the thread and the closing of its handle in `Argus_Thread_Deinit`. These are threading and timing. One iteration is modelled, and `Run` composes iterations in lemmas.
- The cross-process mutex wait and release around the scan (lines 162-163). This is mutual exclusion with the publisher, so the scan reads one consistent snapshot.
- Reads of the segment that the publisher may write in between. One iteration reads `CycleCounter` at lines 155 and 158 and `Signature` at line 159, and `GetSourceData` reads `Value` twice at lines 255-256, all without a lock. The model has each iteration read one `Snapshot`, and each `GetSourceData` call read one record table, so every read within one call sees the same values.
- The unsynchronised sharing of `poll` and `waterSensor` between the host's threads and the polling thread. This is concurrency. A read is modelled as seeing one thread-state value.
- The `f32` conversion in `GetSourceData`. Readings are reals, and the conversion is the identity, so rounding is not modelled.
- `GetSourceDesc` (static metadata; its `fltMaxLimit` is 0 and its `fltMinLimit` is 100, which look swapped). Also `DllMain` dispatch and the `Defer` helper. The helper appears only as the cleanup at the end of `ArgusState.Init`, which runs on every failing path.
- Record fields other than the label and the value, and the label's fixed width and wide-character type. `wcscmp` equality is modelled as string equality.
- Poller.PollStep: requires the segment to be mapped after the attach attempt, because the code dereferences a null `as.data` otherwise.
