/** The ingestion service: per-message reconciliation of stations, devices,
    sensor types and sensors against four in-memory caches, and the two write
    queues (readings and device voltages) flushed to the store in batches. */
module Ingestion {
  import opened JsText
  import opened Registry
  import opened Decoder
  import opened Store

  /** A queue that reaches this many rows triggers a flush of both queues. */
  const BatchSize: nat := 100

  // ---------------------------------------------------------------------------
  // The calls the ensure-functions make, as values
  // ---------------------------------------------------------------------------

  /** The calls made to make sure one id exists: none when it is cached,
      otherwise a single upsert, answered with `answer`. */
  function EnsureCalls(cached: bool, request: Request, answer: bool): seq<Call>
  {
    if cached then [] else [Call(request, answer)]
  }

  /** The calls `ensureDeviceExists` makes: the station first; the device only
      when the station is known to exist (`stationOk`). */
  function DeviceCalls(deviceId: string, stationId: string, known: Caches, stationOk: bool, deviceOk: bool): seq<Call>
  {
    EnsureCalls(stationId in known.stations, UpsertStation(stationId), stationOk)
    + (if stationOk then EnsureCalls(deviceId in known.devices, UpsertDevice(deviceId, stationId), deviceOk) else [])
  }

  /** The upserts `handleSensorReading` makes before it queues a reading: none for
      an empty sensor or type id; otherwise the type first, and the sensor only
      when the type is known to exist (`typeOk`). */
  function ReadingCalls(sensorId: string, sensorTypeId: string, stationId: string, known: Caches,
                        typeOk: bool, sensorOk: bool): seq<Call>
  {
    if sensorId == "" || sensorTypeId == "" then []
    else EnsureCalls(sensorTypeId in known.sensorTypes, UpsertSensorType(sensorTypeId), typeOk)
         + (if typeOk then EnsureCalls(sensorId in known.sensors, UpsertSensor(sensorId, sensorTypeId, stationId), sensorOk)
            else [])
  }

  /** A sub-reading whose sensor and type are already cached: it needs no upsert. */
  predicate CachedReading(s: SubReading, known: Caches)
  {
    s.sensorId != "" && s.sensorTypeId != "" && s.sensorId in known.sensors && s.sensorTypeId in known.sensorTypes
  }

  function ReadingOf(s: SubReading, timestampMs: int): Reading
  {
    Reading(s.sensorId, s.value, timestampMs)
  }

  /** The rows queued for a list of sub-readings: one per accepted sub-reading,
      in order, all stamped with the frame's timestamp. */
  function AcceptedRows(subs: seq<SubReading>, accepted: seq<bool>, timestampMs: int): seq<Reading>
    requires |subs| == |accepted|
  {
    if subs == [] then []
    else AcceptedRows(subs[..|subs| - 1], accepted[..|accepted| - 1], timestampMs)
         + (if accepted[|accepted| - 1] then [ReadingOf(subs[|subs| - 1], timestampMs)] else [])
  }

  // ---------------------------------------------------------------------------
  // What the service does, as functions of its state and of the store's answers
  // ---------------------------------------------------------------------------

  /** The part of the service's state that decides what it does next: the four
      caches and the two queues. */
  datatype Snapshot = Snapshot(known: Caches, readings: seq<Reading>, voltages: seq<VoltageReading>)

  /** The store's answers to the inserts of one flush. */
  datatype FlushAnswers = FlushAnswers(readingsOk: bool, voltagesOk: bool)

  /** The store's answers to the requests one sub-reading may cause: the type
      upsert, the sensor upsert and a flush. An answer to a request that is not
      made plays no part. */
  datatype ReadingAnswers = ReadingAnswers(typeOk: bool, sensorOk: bool, flush: FlushAnswers)

  /** The store's answers to the requests one frame may cause, one
      `ReadingAnswers` per sub-reading of the frame. */
  datatype FrameAnswers = FrameAnswers(stationOk: bool, deviceOk: bool, voltageFlush: FlushAnswers,
                                       readings: seq<ReadingAnswers>)

  /** The inserts of a flush: one per non-empty queue, readings first. */
  function FlushCalls(rows: seq<Reading>, voltageRows: seq<VoltageReading>, a: FlushAnswers): seq<Call>
  {
    (if rows == [] then [] else [Call(InsertReadings(rows), a.readingsOk)])
    + (if voltageRows == [] then [] else [Call(InsertVoltageReadings(voltageRows), a.voltagesOk)])
  }

  /** The queues after a reading row is queued: a readings queue that reaches
      `BatchSize` is flushed, and the voltage queue with it. */
  function QueueReading(s: Snapshot, row: Reading): Snapshot
  {
    if |s.readings| + 1 >= BatchSize then s.(readings := [], voltages := [])
    else s.(readings := s.readings + [row])
  }

  /** The calls queueing a reading row makes: the flush, when it triggers one. */
  function QueueReadingCalls(s: Snapshot, row: Reading, a: FlushAnswers): seq<Call>
  {
    if |s.readings| + 1 >= BatchSize then FlushCalls(s.readings + [row], s.voltages, a) else []
  }

  /** The queues after a voltage row is queued, as for a reading row. */
  function QueueVoltage(s: Snapshot, row: VoltageReading): Snapshot
  {
    if |s.voltages| + 1 >= BatchSize then s.(readings := [], voltages := [])
    else s.(voltages := s.voltages + [row])
  }

  function QueueVoltageCalls(s: Snapshot, row: VoltageReading, a: FlushAnswers): seq<Call>
  {
    if |s.voltages| + 1 >= BatchSize then FlushCalls(s.readings, s.voltages + [row], a) else []
  }

  /** A sub-reading's type exists once made sure of: it was cached, or its upsert succeeded. */
  predicate TypeExists(r: SubReading, known: Caches, a: ReadingAnswers)
  {
    r.sensorTypeId in known.sensorTypes || a.typeOk
  }

  /** A sub-reading's sensor exists once made sure of: its type exists, and the
      sensor was cached or its upsert succeeded. */
  predicate SensorExists(r: SubReading, known: Caches, a: ReadingAnswers)
  {
    TypeExists(r, known, a) && (r.sensorId in known.sensors || a.sensorOk)
  }

  /** A sub-reading's row is queued when both its ids are non-empty and its type
      and sensor exist. */
  predicate Accepts(r: SubReading, known: Caches, a: ReadingAnswers)
  {
    r.sensorId != "" && r.sensorTypeId != "" && SensorExists(r, known, a)
  }

  /** The upserts made for a sub-reading. */
  function SubReadingUpserts(r: SubReading, stationId: string, known: Caches, a: ReadingAnswers): seq<Call>
  {
    ReadingCalls(r.sensorId, r.sensorTypeId, stationId, known, TypeExists(r, known, a), SensorExists(r, known, a))
  }

  /** The caches after a sub-reading's upserts: the ids that now exist are added. */
  function Reconciled(r: SubReading, known: Caches, a: ReadingAnswers): Caches
  {
    if r.sensorId == "" || r.sensorTypeId == "" || !TypeExists(r, known, a) then known
    else known.(sensorTypes := known.sensorTypes + {r.sensorTypeId},
                sensors := if SensorExists(r, known, a) then known.sensors + {r.sensorId} else known.sensors)
  }

  /** Every call one sub-reading causes: its upserts, then the flush that
      queueing its row may trigger. */
  function SubReadingCalls(r: SubReading, stationId: string, timestampMs: int, s: Snapshot, a: ReadingAnswers): seq<Call>
  {
    SubReadingUpserts(r, stationId, s.known, a)
    + (if Accepts(r, s.known, a) then QueueReadingCalls(s, ReadingOf(r, timestampMs), a.flush) else [])
  }

  /** The state after one sub-reading. */
  function AfterSubReading(r: SubReading, timestampMs: int, s: Snapshot, a: ReadingAnswers): Snapshot
  {
    var reconciled := s.(known := Reconciled(r, s.known, a));
    if Accepts(r, s.known, a) then QueueReading(reconciled, ReadingOf(r, timestampMs)) else reconciled
  }

  /** The state after a list of sub-readings, handled in order. */
  function AfterSubReadings(subs: seq<SubReading>, timestampMs: int, s: Snapshot, answers: seq<ReadingAnswers>): Snapshot
    requires |subs| == |answers|
  {
    if subs == [] then s
    else
      var n := |subs| - 1;
      AfterSubReading(subs[n], timestampMs, AfterSubReadings(subs[..n], timestampMs, s, answers[..n]), answers[n])
  }

  /** The calls a list of sub-readings causes, in order. */
  function SubReadingsCalls(subs: seq<SubReading>, stationId: string, timestampMs: int, s: Snapshot,
                            answers: seq<ReadingAnswers>): seq<Call>
    requires |subs| == |answers|
  {
    if subs == [] then []
    else
      var n := |subs| - 1;
      SubReadingsCalls(subs[..n], stationId, timestampMs, s, answers[..n])
      + SubReadingCalls(subs[n], stationId, timestampMs, AfterSubReadings(subs[..n], timestampMs, s, answers[..n]), answers[n])
  }

  /** Which sub-readings of a list have their row queued. */
  function Acceptances(subs: seq<SubReading>, timestampMs: int, s: Snapshot, answers: seq<ReadingAnswers>): (accepted: seq<bool>)
    requires |subs| == |answers|
    ensures |accepted| == |subs|
  {
    if subs == [] then []
    else
      var n := |subs| - 1;
      Acceptances(subs[..n], timestampMs, s, answers[..n])
      + [Accepts(subs[n], AfterSubReadings(subs[..n], timestampMs, s, answers[..n]).known, answers[n])]
  }

  /** A frame's station exists once made sure of: cached, or its upsert succeeded. */
  predicate StationExists(f: Frame, known: Caches, a: FrameAnswers)
  {
    f.stationId in known.stations || a.stationOk
  }

  /** A frame's device exists once made sure of: its station exists, and the
      device was cached or its upsert succeeded. */
  predicate DeviceExists(f: Frame, known: Caches, a: FrameAnswers)
  {
    StationExists(f, known, a) && (f.deviceId in known.devices || a.deviceOk)
  }

  /** The caches after a frame's station and device upserts. */
  function DeviceReconciled(f: Frame, known: Caches, a: FrameAnswers): Caches
  {
    known.(stations := if StationExists(f, known, a) then known.stations + {f.stationId} else known.stations,
           devices := if DeviceExists(f, known, a) then known.devices + {f.deviceId} else known.devices)
  }

  /** The voltage row a frame queues: one when its voltage is a number. */
  function VoltageRows(f: Frame): seq<VoltageReading>
  {
    if f.voltage.Number? then [VoltageReading(f.deviceId, f.voltage, f.timestampMs)] else []
  }

  /** The state after a frame's voltage row, when there is one, is queued. */
  function AfterVoltage(f: Frame, s: Snapshot): Snapshot
  {
    if f.voltage.Number? then QueueVoltage(s, VoltageReading(f.deviceId, f.voltage, f.timestampMs)) else s
  }

  function VoltageCalls(f: Frame, s: Snapshot, a: FlushAnswers): seq<Call>
  {
    if f.voltage.Number? then QueueVoltageCalls(s, VoltageReading(f.deviceId, f.voltage, f.timestampMs), a) else []
  }

  /** The calls for the measurements of a frame whose device exists: the
      voltage's, then those of every sub-reading in order. */
  function MeasurementCalls(f: Frame, s: Snapshot, voltageFlush: FlushAnswers, answers: seq<ReadingAnswers>): seq<Call>
    requires |answers| == |FrameReadings(f)|
  {
    VoltageCalls(f, s, voltageFlush)
    + SubReadingsCalls(FrameReadings(f), f.stationId, f.timestampMs, AfterVoltage(f, s), answers)
  }

  /** Every call a decoded frame causes: its station and device upserts, then,
      when the device exists, its measurements' calls. */
  function FrameCalls(f: Frame, s: Snapshot, a: FrameAnswers): seq<Call>
    requires |a.readings| == |FrameReadings(f)|
  {
    DeviceCalls(f.deviceId, f.stationId, s.known, StationExists(f, s.known, a), DeviceExists(f, s.known, a))
    + (if DeviceExists(f, s.known, a)
       then MeasurementCalls(f, s.(known := DeviceReconciled(f, s.known, a)), a.voltageFlush, a.readings)
       else [])
  }

  /** The state after a decoded frame. */
  function AfterFrame(f: Frame, s: Snapshot, a: FrameAnswers): Snapshot
    requires |a.readings| == |FrameReadings(f)|
  {
    var reconciled := s.(known := DeviceReconciled(f, s.known, a));
    if DeviceExists(f, s.known, a)
    then AfterSubReadings(FrameReadings(f), f.timestampMs, AfterVoltage(f, reconciled), a.readings)
    else reconciled
  }

  /** Which sub-readings of a decoded frame have their row queued: none when the
      device does not exist. */
  function FrameAcceptances(f: Frame, s: Snapshot, a: FrameAnswers): (accepted: seq<bool>)
    requires |a.readings| == |FrameReadings(f)|
    ensures |accepted| == |FrameReadings(f)|
  {
    var reconciled := s.(known := DeviceReconciled(f, s.known, a));
    if DeviceExists(f, s.known, a)
    then Acceptances(FrameReadings(f), f.timestampMs, AfterVoltage(f, reconciled), a.readings)
    else seq(|FrameReadings(f)|, _ => false)
  }

  // ---------------------------------------------------------------------------
  // The service
  // ---------------------------------------------------------------------------

  class Service {
    var knownStations: set<string>
    var knownDevices: set<string>
    var knownSensorTypes: set<string>
    var knownSensors: set<string>
    var readingsBatch: seq<Reading>
    var voltageReadingsBatch: seq<VoltageReading>
    const store: Store

    /** Every row ever queued, in queueing order. */
    ghost var enqueuedReadings: seq<Reading>
    ghost var enqueuedVoltageReadings: seq<VoltageReading>

    function Known(): Caches
      reads this
    {
      Caches(knownStations, knownDevices, knownSensorTypes, knownSensors)
    }

    function Snap(): Snapshot
      reads this
    {
      Snapshot(Known(), readingsBatch, voltageReadingsBatch)
    }

    /** The caches hold exactly the preloaded ids and the ids the store confirmed;
        every queued row is either still queued or was handed to exactly one
        insert, in queueing order. */
    ghost predicate Consistent()
      reads this, store
    {
      && store.Valid()
      && Known() == store.existing
      && store.inserted + readingsBatch == enqueuedReadings
      && store.insertedVoltages + voltageReadingsBatch == enqueuedVoltageReadings
    }

    /** Consistent, and both queues are below the flush threshold. */
    ghost predicate Valid()
      reads this, store
    {
      Consistent() && |readingsBatch| < BatchSize && |voltageReadingsBatch| < BatchSize
    }

    /** Referential integrity: every request was sent once the ids it refers to
        were known to exist, and every queued row refers to a cached id. */
    ghost predicate Integrity()
      reads this, store
    {
      && store.ordered
      && (forall i :: 0 <= i < |readingsBatch| ==> readingsBatch[i].sensorId in knownSensors)
      && (forall i :: 0 <= i < |voltageReadingsBatch| ==> voltageReadingsBatch[i].deviceId in knownDevices)
    }

    /** The service after the preload: caches seeded with the ids already in the store. */
    constructor (stations: set<string>, devices: set<string>, sensorTypes: set<string>, sensors: set<string>)
      ensures Valid() && Integrity() && fresh(store) && store.log == []
      ensures Known() == Caches(stations, devices, sensorTypes, sensors) && store.initial == Known()
      ensures readingsBatch == [] && voltageReadingsBatch == []
    {
      knownStations, knownDevices, knownSensorTypes, knownSensors := stations, devices, sensorTypes, sensors;
      readingsBatch, voltageReadingsBatch := [], [];
      store := new Store(Caches(stations, devices, sensorTypes, sensors));
      enqueuedReadings, enqueuedVoltageReadings := [], [];
    }

    /** Flushes both queues: each non-empty queue is emptied and its rows handed
        to one insert; the rows leave the queue whatever the store answers. */
    method ProcessBatches() returns (ghost answers: FlushAnswers)
      requires Consistent()
      modifies this`readingsBatch, this`voltageReadingsBatch, store
      ensures Valid() && (old(Integrity()) ==> Integrity())
      ensures readingsBatch == [] && voltageReadingsBatch == []
      ensures store.inserted == old(store.inserted) + old(readingsBatch)
      ensures store.insertedVoltages == old(store.insertedVoltages) + old(voltageReadingsBatch)
      ensures store.log == old(store.log) + FlushCalls(old(readingsBatch), old(voltageReadingsBatch), answers)
    {
      ghost var readingsOk, readingCalls := FlushReadings();
      ghost var flushedLog := store.log;
      ghost var voltagesOk, voltageCalls := FlushVoltageReadings();
      answers := FlushAnswers(readingsOk, voltagesOk);
      Extends(old(store.log), flushedLog, store.log, readingCalls, voltageCalls);
    }

    /** The readings half of a flush: a non-empty queue is emptied and handed to one insert. */
    method FlushReadings() returns (ghost ok: bool, ghost calls: seq<Call>)
      requires Consistent()
      modifies this`readingsBatch, store
      ensures Consistent() && (old(Integrity()) ==> Integrity())
      ensures readingsBatch == [] && voltageReadingsBatch == old(voltageReadingsBatch)
      ensures store.inserted == old(store.inserted) + old(readingsBatch)
      ensures store.insertedVoltages == old(store.insertedVoltages)
      ensures store.log == old(store.log) + calls
      ensures calls == if old(readingsBatch) == [] then [] else [Call(InsertReadings(old(readingsBatch)), ok)]
    {
      ok, calls := false, [];
      if |readingsBatch| > 0 {
        var batchToProcess := readingsBatch;
        readingsBatch := [];
        ok := store.Execute(InsertReadings(batchToProcess));
        calls := [Call(InsertReadings(batchToProcess), ok)];
      }
    }

    /** The voltage half of a flush, the same for the voltage queue. */
    method FlushVoltageReadings() returns (ghost ok: bool, ghost calls: seq<Call>)
      requires Consistent()
      modifies this`voltageReadingsBatch, store
      ensures Consistent() && (old(Integrity()) ==> Integrity())
      ensures voltageReadingsBatch == [] && readingsBatch == old(readingsBatch)
      ensures store.insertedVoltages == old(store.insertedVoltages) + old(voltageReadingsBatch)
      ensures store.inserted == old(store.inserted)
      ensures store.log == old(store.log) + calls
      ensures calls == if old(voltageReadingsBatch) == [] then [] else [Call(InsertVoltageReadings(old(voltageReadingsBatch)), ok)]
    {
      ok, calls := false, [];
      if |voltageReadingsBatch| > 0 {
        var batchToProcess := voltageReadingsBatch;
        voltageReadingsBatch := [];
        ok := store.Execute(InsertVoltageReadings(batchToProcess));
        calls := [Call(InsertVoltageReadings(batchToProcess), ok)];
      }
    }

    method EnsureStation(stationId: string) returns (ok: bool)
      requires Valid()
      modifies this`knownStations, store
      ensures Valid() && (old(Integrity()) ==> Integrity())
      ensures store.log == old(store.log) + EnsureCalls(stationId in old(knownStations), UpsertStation(stationId), ok)
      ensures stationId in old(knownStations) ==> ok
      ensures knownStations == if ok then old(knownStations) + {stationId} else old(knownStations)
    {
      if stationId in knownStations {
        return true;
      }
      ok := store.Execute(UpsertStation(stationId));
      if ok {
        knownStations := knownStations + {stationId};
      }
    }

    /** Rejects an empty type id with no call; otherwise as `EnsureStation`. */
    method EnsureSensorType(sensorTypeId: string) returns (ok: bool)
      requires Valid()
      modifies this`knownSensorTypes, store
      ensures Valid() && (old(Integrity()) ==> Integrity())
      ensures store.log == old(store.log)
        + (if sensorTypeId == "" then []
           else EnsureCalls(sensorTypeId in old(knownSensorTypes), UpsertSensorType(sensorTypeId), ok))
      ensures sensorTypeId == "" ==> !ok
      ensures sensorTypeId != "" && sensorTypeId in old(knownSensorTypes) ==> ok
      ensures knownSensorTypes == if ok then old(knownSensorTypes) + {sensorTypeId} else old(knownSensorTypes)
    {
      if sensorTypeId == "" {
        return false;
      }
      if sensorTypeId in knownSensorTypes {
        return true;
      }
      ok := store.Execute(UpsertSensorType(sensorTypeId));
      if ok {
        knownSensorTypes := knownSensorTypes + {sensorTypeId};
      }
    }

    /** Makes sure the station exists first; a failed station means no device upsert. */
    method EnsureDevice(deviceId: string, stationId: string) returns (ghost stationOk: bool, ok: bool)
      requires Valid()
      modifies this`knownStations, this`knownDevices, store
      ensures Valid() && (old(Integrity()) ==> Integrity())
      ensures store.log == old(store.log) + DeviceCalls(deviceId, stationId, old(Known()), stationOk, ok)
      ensures stationId in old(knownStations) ==> stationOk
      ensures !stationOk ==> !ok
      ensures stationOk && deviceId in old(knownDevices) ==> ok
      ensures knownStations == if stationOk then old(knownStations) + {stationId} else old(knownStations)
      ensures knownDevices == if ok then old(knownDevices) + {deviceId} else old(knownDevices)
    {
      ghost var known := Known();
      var stationExists := EnsureStation(stationId);
      stationOk := stationExists;
      ghost var stationCalls := EnsureCalls(stationId in known.stations, UpsertStation(stationId), stationOk);
      ghost var afterStation := store.log;
      if !stationExists {
        ok := false;
      } else if deviceId in knownDevices {
        ok := true;
      } else {
        ok := store.Execute(UpsertDevice(deviceId, stationId));
        if ok {
          knownDevices := knownDevices + {deviceId};
        }
      }
      ghost var deviceCalls := if stationOk then EnsureCalls(deviceId in known.devices, UpsertDevice(deviceId, stationId), ok) else [];
      assert store.log == afterStation + deviceCalls;
      Extends(old(store.log), afterStation, store.log, stationCalls, deviceCalls);
    }

    /** The sensor upsert. Referential integrity is kept when the caller has made
        sure of the sensor's type and station beforehand. */
    method EnsureSensor(sensorId: string, sensorTypeId: string, stationId: string) returns (ok: bool)
      requires Valid()
      modifies this`knownSensors, store
      ensures Valid()
      ensures old(Integrity()) && Prerequisites(UpsertSensor(sensorId, sensorTypeId, stationId), old(Known())) ==> Integrity()
      ensures store.log == old(store.log)
        + EnsureCalls(sensorId in old(knownSensors), UpsertSensor(sensorId, sensorTypeId, stationId), ok)
      ensures sensorId in old(knownSensors) ==> ok
      ensures knownSensors == if ok then old(knownSensors) + {sensorId} else old(knownSensors)
    {
      if sensorId in knownSensors {
        return true;
      }
      ok := store.Execute(UpsertSensor(sensorId, sensorTypeId, stationId));
      if ok {
        knownSensors := knownSensors + {sensorId};
      }
    }

    /** Queues a voltage row; a queue that reaches the threshold flushes both queues. */
    method HandleVoltageReading(deviceId: string, voltage: Num, timestampMs: int) returns (ghost answers: FlushAnswers)
      requires Valid()
      modifies this`voltageReadingsBatch, this`readingsBatch, this`enqueuedVoltageReadings, store
      ensures Valid()
      ensures old(Integrity()) && deviceId in old(knownDevices) ==> Integrity()
      ensures enqueuedVoltageReadings == old(enqueuedVoltageReadings) + [VoltageReading(deviceId, voltage, timestampMs)]
      ensures Snap() == QueueVoltage(old(Snap()), VoltageReading(deviceId, voltage, timestampMs))
      ensures store.log == old(store.log) + QueueVoltageCalls(old(Snap()), VoltageReading(deviceId, voltage, timestampMs), answers)
    {
      voltageReadingsBatch := voltageReadingsBatch + [VoltageReading(deviceId, voltage, timestampMs)];
      enqueuedVoltageReadings := enqueuedVoltageReadings + [VoltageReading(deviceId, voltage, timestampMs)];
      answers := FlushAnswers(false, false);
      if |voltageReadingsBatch| >= BatchSize {
        answers := ProcessBatches();
      }
    }

    /** Queues a reading row; a queue that reaches the threshold flushes both queues. */
    method PushReading(row: Reading) returns (ghost answers: FlushAnswers)
      requires Valid()
      modifies this`readingsBatch, this`voltageReadingsBatch, this`enqueuedReadings, store
      ensures Valid()
      ensures old(Integrity()) && row.sensorId in old(knownSensors) ==> Integrity()
      ensures enqueuedReadings == old(enqueuedReadings) + [row]
      ensures Snap() == QueueReading(old(Snap()), row)
      ensures store.log == old(store.log) + QueueReadingCalls(old(Snap()), row, answers)
    {
      readingsBatch := readingsBatch + [row];
      enqueuedReadings := enqueuedReadings + [row];
      answers := FlushAnswers(false, false);
      if |readingsBatch| >= BatchSize {
        answers := ProcessBatches();
      }
    }

    /** Makes sure of the type, then of the sensor, then queues the reading; any
        failure drops the reading. A queue that reaches the threshold flushes both
        queues. */
    method HandleSensorReading(sensorId: string, sensorTypeId: string, value: Num, stationId: string, timestampMs: int)
      returns (ghost answers: ReadingAnswers)
      requires Valid()
      modifies this`knownSensorTypes, this`knownSensors, this`readingsBatch, this`voltageReadingsBatch, this`enqueuedReadings, store
      ensures Valid()
      ensures old(Integrity()) && stationId in old(knownStations) ==> Integrity()
      ensures var r := SubReading(sensorId, sensorTypeId, value);
        && store.log == old(store.log) + SubReadingCalls(r, stationId, timestampMs, old(Snap()), answers)
        && Snap() == AfterSubReading(r, timestampMs, old(Snap()), answers)
        && enqueuedReadings == old(enqueuedReadings)
             + (if Accepts(r, old(Known()), answers) then [Reading(sensorId, value, timestampMs)] else [])
    {
      var ready, typeOk, sensorOk, upserts := EnsureReadingEntities(sensorId, sensorTypeId, stationId);
      ghost var flush := FlushAnswers(false, false);
      ghost var afterUpserts := store.log;
      ghost var pushed := Snap();
      if ready {
        flush := PushReading(Reading(sensorId, value, timestampMs));
      }
      answers := ReadingAnswers(typeOk, sensorOk, flush);
      ghost var flushCalls := if ready then QueueReadingCalls(pushed, Reading(sensorId, value, timestampMs), flush) else [];
      Extends(old(store.log), afterUpserts, store.log, upserts, flushCalls);
    }

    /** The upserts that come before a reading is queued: none for an empty
        sensor id; otherwise the type first, and the sensor only once the type
        exists. `ready` says whether the reading may be queued. */
    method EnsureReadingEntities(sensorId: string, sensorTypeId: string, stationId: string)
      returns (ready: bool, ghost typeOk: bool, ghost sensorOk: bool, ghost calls: seq<Call>)
      requires Valid()
      modifies this`knownSensorTypes, this`knownSensors, store
      ensures Valid()
      ensures old(Integrity()) && stationId in old(knownStations) ==> Integrity()
      ensures var r, a := SubReading(sensorId, sensorTypeId, NaN), ReadingAnswers(typeOk, sensorOk, FlushAnswers(false, false));
        && store.log == old(store.log) + calls
        && calls == SubReadingUpserts(r, stationId, old(Known()), a)
        && ready == Accepts(r, old(Known()), a)
        && Known() == Reconciled(r, old(Known()), a)
    {
      ready, typeOk, sensorOk, calls := false, false, false, [];
      if sensorId != "" {
        ghost var known := Known();
        ghost var intact := old(Integrity()) && stationId in old(knownStations);
        var confirmedType := EnsureSensorType(sensorTypeId);
        typeOk := confirmedType;
        assert intact ==> Integrity() && stationId in knownStations;
        ghost var typeCalls := if sensorTypeId == "" then [] else EnsureCalls(sensorTypeId in known.sensorTypes, UpsertSensorType(sensorTypeId), typeOk);
        ghost var afterType := store.log;
        ghost var sensorCalls: seq<Call> := [];
        if confirmedType {
          assert intact ==> Prerequisites(UpsertSensor(sensorId, sensorTypeId, stationId), Known()) by {
            assert sensorTypeId in knownSensorTypes;
          }
          var sensorExists := EnsureSensor(sensorId, sensorTypeId, stationId);
          sensorOk := sensorExists;
          sensorCalls := EnsureCalls(sensorId in known.sensors, UpsertSensor(sensorId, sensorTypeId, stationId), sensorOk);
          ready := sensorExists;
        }
        assert store.log == afterType + sensorCalls;
        Extends(old(store.log), afterType, store.log, typeCalls, sensorCalls);
        calls := typeCalls + sensorCalls;
        ReadingCallsSplit(sensorId, sensorTypeId, stationId, known, typeOk, sensorOk);
      }
    }

    /** Handles the sub-readings of one channel in order, each as
        `HandleSensorReading` does. */
    method HandleSubReadings(subs: seq<SubReading>, stationId: string, timestampMs: int)
      returns (ghost answers: seq<ReadingAnswers>)
      requires Valid()
      modifies this`knownSensorTypes, this`knownSensors, this`readingsBatch, this`voltageReadingsBatch, this`enqueuedReadings, store
      ensures Valid()
      ensures old(Integrity()) && stationId in old(knownStations) ==> Integrity()
      ensures |answers| == |subs|
      ensures store.log == old(store.log) + SubReadingsCalls(subs, stationId, timestampMs, old(Snap()), answers)
      ensures Snap() == AfterSubReadings(subs, timestampMs, old(Snap()), answers)
      ensures enqueuedReadings == old(enqueuedReadings)
        + AcceptedRows(subs, Acceptances(subs, timestampMs, old(Snap()), answers), timestampMs)
    {
      answers := [];
      var k := 0;
      while k < |subs|
        invariant 0 <= k <= |subs| && |answers| == k
        invariant Valid()
        invariant old(Integrity()) && stationId in old(knownStations) ==> Integrity()
        invariant store.log == old(store.log) + SubReadingsCalls(subs[..k], stationId, timestampMs, old(Snap()), answers)
        invariant Snap() == AfterSubReadings(subs[..k], timestampMs, old(Snap()), answers)
        invariant enqueuedReadings == old(enqueuedReadings)
          + AcceptedRows(subs[..k], Acceptances(subs[..k], timestampMs, old(Snap()), answers), timestampMs)
      {
        var r := subs[k];
        ghost var state, queued, logBefore := Snap(), enqueuedReadings, store.log;
        ghost var a := HandleSensorReading(r.sensorId, r.sensorTypeId, r.value, stationId, timestampMs);
        assert SubReading(r.sensorId, r.sensorTypeId, r.value) == r;
        SubReadingStep(subs, k, stationId, timestampMs, old(Snap()), answers, a,
                       old(store.log), logBefore, store.log, state, Snap(),
                       old(enqueuedReadings), queued, enqueuedReadings);
        answers := answers + [a];
        k := k + 1;
      }
      TakeAll(subs);
    }

    /** One channel of a frame: skipped without any call when it has fewer than
        three fields or its model enum does not parse or is not registered;
        otherwise its sub-readings are handled in descriptor order. */
    method HandleChannel(raw: string, stationId: string, timestampMs: int)
      returns (ghost answers: seq<ReadingAnswers>)
      requires Valid()
      modifies this`knownSensorTypes, this`knownSensors, this`readingsBatch, this`voltageReadingsBatch, this`enqueuedReadings, store
      ensures Valid()
      ensures old(Integrity()) && stationId in old(knownStations) ==> Integrity()
      ensures |answers| == |ChannelReadings(raw)|
      ensures store.log == old(store.log) + SubReadingsCalls(ChannelReadings(raw), stationId, timestampMs, old(Snap()), answers)
      ensures Snap() == AfterSubReadings(ChannelReadings(raw), timestampMs, old(Snap()), answers)
      ensures enqueuedReadings == old(enqueuedReadings)
        + AcceptedRows(ChannelReadings(raw), Acceptances(ChannelReadings(raw), timestampMs, old(Snap()), answers), timestampMs)
    {
      match ParseChannel(raw) {
        case None =>
          answers := [];
        case Some(ch) =>
          answers := HandleSubReadings(DescriptorReadings(ch, ch.model.types), stationId, timestampMs);
      }
    }

    /** Handles the channels of one frame in order: a channel that does not
        resolve is skipped, the sub-readings of the others are handled in
        descriptor order. */
    method HandleChannels(channels: seq<string>, stationId: string, timestampMs: int)
      returns (ghost answers: seq<ReadingAnswers>)
      requires Valid()
      modifies this`knownSensorTypes, this`knownSensors, this`readingsBatch, this`voltageReadingsBatch, this`enqueuedReadings, store
      ensures Valid()
      ensures old(Integrity()) && stationId in old(knownStations) ==> Integrity()
      ensures |answers| == |ChannelsReadings(channels)|
      ensures store.log == old(store.log) + SubReadingsCalls(ChannelsReadings(channels), stationId, timestampMs, old(Snap()), answers)
      ensures Snap() == AfterSubReadings(ChannelsReadings(channels), timestampMs, old(Snap()), answers)
      ensures enqueuedReadings == old(enqueuedReadings)
        + AcceptedRows(ChannelsReadings(channels), Acceptances(ChannelsReadings(channels), timestampMs, old(Snap()), answers), timestampMs)
    {
      answers := [];
      ghost var done: seq<SubReading> := [];
      var k := 0;
      while k < |channels|
        invariant 0 <= k <= |channels|
        invariant done == ChannelsReadings(channels[..k]) && |answers| == |done|
        invariant Valid()
        invariant old(Integrity()) && stationId in old(knownStations) ==> Integrity()
        invariant store.log == old(store.log) + SubReadingsCalls(done, stationId, timestampMs, old(Snap()), answers)
        invariant Snap() == AfterSubReadings(done, timestampMs, old(Snap()), answers)
        invariant enqueuedReadings == old(enqueuedReadings)
          + AcceptedRows(done, Acceptances(done, timestampMs, old(Snap()), answers), timestampMs)
      {
        ghost var subs := ChannelReadings(channels[k]);
        ghost var state, logBefore, queued := Snap(), store.log, enqueuedReadings;
        ghost var a := HandleChannel(channels[k], stationId, timestampMs);
        ChannelStep(channels, k, done, subs, stationId, timestampMs, old(Snap()), answers, a);
        Extends(old(store.log), logBefore, store.log,
                SubReadingsCalls(done, stationId, timestampMs, old(Snap()), answers),
                SubReadingsCalls(subs, stationId, timestampMs, state, a));
        Extends(old(enqueuedReadings), queued, enqueuedReadings,
                AcceptedRows(done, Acceptances(done, timestampMs, old(Snap()), answers), timestampMs),
                AcceptedRows(subs, Acceptances(subs, timestampMs, state, a), timestampMs));
        done, answers := done + subs, answers + a;
        k := k + 1;
      }
      TakeAll(channels);
    }

    /** One uplink message, given as the frame text carried base64-encoded in
        its `data` field. A frame with fewer than four fields or a bad timestamp
        is dropped without any call or change; any other is processed as
        `ProcessFrame` does. */
    method ProcessMessage(decoded: string) returns (ghost answers: FrameAnswers)
      requires Valid()
      modifies this, store
      ensures Valid() && (old(Integrity()) ==> Integrity())
      ensures DecodeFrame(decoded).Failure? ==>
        && store.log == old(store.log) && Snap() == old(Snap())
        && enqueuedReadings == old(enqueuedReadings) && enqueuedVoltageReadings == old(enqueuedVoltageReadings)
      ensures DecodeFrame(decoded).Success? ==>
        var f := DecodeFrame(decoded).value;
        && |answers.readings| == |FrameReadings(f)|
        && store.log == old(store.log) + FrameCalls(f, old(Snap()), answers)
        && Snap() == AfterFrame(f, old(Snap()), answers)
        && enqueuedVoltageReadings == old(enqueuedVoltageReadings)
             + (if DeviceExists(f, old(Known()), answers) then VoltageRows(f) else [])
        && enqueuedReadings == old(enqueuedReadings)
             + AcceptedRows(FrameReadings(f), FrameAcceptances(f, old(Snap()), answers), f.timestampMs)
    {
      answers := FrameAnswers(false, false, FlushAnswers(false, false), []);
      var frame := DecodeFrame(decoded);
      if frame.Success? {
        answers := ProcessFrame(frame.value);
      }
    }

    /** A decoded frame. The device, and before it its station, is made sure of;
        when that fails the frame is dropped. Then the voltage is queued when it
        is a number, and the channels are handled in order. */
    method ProcessFrame(f: Frame) returns (ghost answers: FrameAnswers)
      requires Valid()
      modifies this, store
      ensures Valid() && (old(Integrity()) ==> Integrity())
      ensures |answers.readings| == |FrameReadings(f)|
      ensures store.log == old(store.log) + FrameCalls(f, old(Snap()), answers)
      ensures Snap() == AfterFrame(f, old(Snap()), answers)
      ensures enqueuedVoltageReadings == old(enqueuedVoltageReadings)
        + (if DeviceExists(f, old(Known()), answers) then VoltageRows(f) else [])
      ensures enqueuedReadings == old(enqueuedReadings)
        + AcceptedRows(FrameReadings(f), FrameAcceptances(f, old(Snap()), answers), f.timestampMs)
    {
      var stationOk, deviceExists := EnsureDevice(f.deviceId, f.stationId);
      ghost var afterDevice, reconciled := store.log, Snap();
      ghost var voltageFlush := FlushAnswers(false, false);
      ghost var readings := seq(|FrameReadings(f)|, _ => ReadingAnswers(false, false, FlushAnswers(false, false)));
      if deviceExists {
        voltageFlush, readings := HandleMeasurements(f);
      }
      answers := FrameAnswers(stationOk, deviceExists, voltageFlush, readings);
      FrameStep(f, old(Snap()), reconciled, answers);
      ghost var later := if deviceExists then MeasurementCalls(f, reconciled, voltageFlush, readings) else [];
      Extends(old(store.log), afterDevice, store.log,
              DeviceCalls(f.deviceId, f.stationId, old(Known()), stationOk, deviceExists), later);
      if !deviceExists {
        FrameProcessed(f, old(Snap()), answers);
        AcceptedRowsNone(FrameReadings(f), FrameAcceptances(f, old(Snap()), answers), f.timestampMs);
      }
    }

    /** The measurements of a frame whose device exists: the voltage is queued
        when it is a number, then the channels are handled in order. */
    method HandleMeasurements(f: Frame) returns (ghost voltageFlush: FlushAnswers, ghost answers: seq<ReadingAnswers>)
      requires Valid()
      modifies this`knownSensorTypes, this`knownSensors, this`readingsBatch, this`voltageReadingsBatch,
               this`enqueuedReadings, this`enqueuedVoltageReadings, store
      ensures Valid()
      ensures old(Integrity()) && f.stationId in old(knownStations) && f.deviceId in old(knownDevices) ==> Integrity()
      ensures |answers| == |FrameReadings(f)|
      ensures store.log == old(store.log) + MeasurementCalls(f, old(Snap()), voltageFlush, answers)
      ensures Snap() == AfterSubReadings(FrameReadings(f), f.timestampMs, AfterVoltage(f, old(Snap())), answers)
      ensures enqueuedVoltageReadings == old(enqueuedVoltageReadings) + VoltageRows(f)
      ensures enqueuedReadings == old(enqueuedReadings)
        + AcceptedRows(FrameReadings(f), Acceptances(FrameReadings(f), f.timestampMs, AfterVoltage(f, old(Snap())), answers), f.timestampMs)
    {
      voltageFlush := FlushAnswers(false, false);
      if f.voltage.Number? {
        voltageFlush := HandleVoltageReading(f.deviceId, f.voltage, f.timestampMs);
      }
      ghost var afterVoltage := store.log;
      answers := HandleChannels(f.channels, f.stationId, f.timestampMs);
      Extends(old(store.log), afterVoltage, store.log, VoltageCalls(f, old(Snap()), voltageFlush),
              SubReadingsCalls(FrameReadings(f), f.stationId, f.timestampMs, AfterVoltage(f, old(Snap())), answers));
    }
  }

  // ---------------------------------------------------------------------------
  // Properties of the traces
  // ---------------------------------------------------------------------------

  lemma AcceptedRowsSnoc(subs: seq<SubReading>, accepted: seq<bool>, s: SubReading, a: bool, timestampMs: int)
    requires |subs| == |accepted|
    ensures AcceptedRows(subs + [s], accepted + [a], timestampMs)
         == AcceptedRows(subs, accepted, timestampMs) + (if a then [ReadingOf(s, timestampMs)] else [])
  {
    assert (subs + [s])[..|subs|] == subs;
    assert (accepted + [a])[..|accepted|] == accepted;
  }

  /** The reconciliation of one reading is the type step followed, when the type
      is known to exist, by the sensor step. */
  lemma ReadingCallsSplit(sensorId: string, sensorTypeId: string, stationId: string, known: Caches,
                          typeOk: bool, sensorOk: bool)
    requires sensorId != ""
    requires sensorTypeId == "" ==> !typeOk
    ensures var typeCalls := if sensorTypeId == "" then [] else EnsureCalls(sensorTypeId in known.sensorTypes, UpsertSensorType(sensorTypeId), typeOk);
      ReadingCalls(sensorId, sensorTypeId, stationId, known, typeOk, sensorOk)
        == typeCalls + if typeOk then EnsureCalls(sensorId in known.sensors, UpsertSensor(sensorId, sensorTypeId, stationId), sensorOk) else []
  {
  }

  /** `ensureDeviceExists` never upserts a device before its station is known to
      exist; a failed station upsert is its only call; cached ids need no call. */
  lemma DeviceCallsOrdered(deviceId: string, stationId: string, known: Caches, stationOk: bool, deviceOk: bool)
    requires stationId in known.stations ==> stationOk
    ensures PrerequisitesFirst(DeviceCalls(deviceId, stationId, known, stationOk, deviceOk), known)
    ensures stationId !in known.stations && !stationOk
        ==> DeviceCalls(deviceId, stationId, known, stationOk, deviceOk) == [Call(UpsertStation(stationId), false)]
    ensures stationId in known.stations && deviceId in known.devices
        ==> DeviceCalls(deviceId, stationId, known, stationOk, deviceOk) == []
  {
    var calls := DeviceCalls(deviceId, stationId, known, stationOk, deviceOk);
    var station := Call(UpsertStation(stationId), stationOk);
    var device := Call(UpsertDevice(deviceId, stationId), deviceOk);
    PrerequisitesFirstShort(station, device, known);
    PrerequisitesFirstShort(device, device, known);
    if stationId !in known.stations && stationOk && deviceId !in known.devices {
      assert calls == [station, device];
      assert stationId in known.Union(Record(NoIds, station)).stations;
    }
  }

  /** `handleSensorReading` never upserts a sensor before its type (and, when the
      caller made sure of it, its station) is known to exist; a failed type upsert
      is its only call; a cached sensor and type need no call. */
  lemma ReadingCallsOrdered(sensorId: string, sensorTypeId: string, stationId: string, known: Caches,
                            typeOk: bool, sensorOk: bool)
    requires sensorTypeId in known.sensorTypes ==> typeOk
    ensures stationId in known.stations
        ==> PrerequisitesFirst(ReadingCalls(sensorId, sensorTypeId, stationId, known, typeOk, sensorOk), known)
    ensures sensorId != "" && sensorTypeId != "" && sensorTypeId !in known.sensorTypes && !typeOk
        ==> ReadingCalls(sensorId, sensorTypeId, stationId, known, typeOk, sensorOk) == [Call(UpsertSensorType(sensorTypeId), false)]
    ensures CachedReading(SubReading(sensorId, sensorTypeId, NaN), known)
        ==> ReadingCalls(sensorId, sensorTypeId, stationId, known, typeOk, sensorOk) == []
  {
    var calls := ReadingCalls(sensorId, sensorTypeId, stationId, known, typeOk, sensorOk);
    var sensorType := Call(UpsertSensorType(sensorTypeId), typeOk);
    var sensor := Call(UpsertSensor(sensorId, sensorTypeId, stationId), sensorOk);
    PrerequisitesFirstShort(sensorType, sensor, known);
    PrerequisitesFirstShort(sensor, sensor, known);
    if sensorId != "" && sensorTypeId != "" && sensorTypeId !in known.sensorTypes && typeOk && sensorId !in known.sensors {
      assert calls == [sensorType, sensor];
      assert sensorTypeId in known.Union(Record(NoIds, sensorType)).sensorTypes;
    }
  }

  /** The first `k + 1` elements are the first `k` and then element `k`. */
  lemma TakeSnoc<T>(s: seq<T>, k: nat)
    requires k < |s|
    ensures s[..k + 1] == s[..k] + [s[k]]
  {
  }

  lemma TakeAll<T>(s: seq<T>)
    ensures s[..|s|] == s
  {
  }

  /** Growing a sequence in two steps appends both pieces at once. */
  lemma Extends<T>(start: seq<T>, middle: seq<T>, end: seq<T>, first: seq<T>, second: seq<T>)
    requires middle == start + first && end == middle + second
    ensures end == start + (first + second)
  {
  }

  lemma ChannelsReadingsPrefix(channels: seq<string>, k: nat)
    requires k < |channels|
    ensures ChannelsReadings(channels[..k + 1]) == ChannelsReadings(channels[..k]) + ChannelReadings(channels[k])
  {
    assert channels[..k + 1] == channels[..k] + [channels[k]];
    FlatMapSnoc(ChannelReadings, channels[..k], channels[k]);
  }

  /** What handling a list of sub-readings guarantees about each of them: an
      accepted one has its sensor and type cached afterwards, and one whose
      sensor and type were cached before is accepted. */
  predicate Processed(subs: seq<SubReading>, accepted: seq<bool>, before: Caches, after: Caches)
  {
    && |subs| == |accepted|
    && (forall i :: 0 <= i < |subs| && accepted[i] ==>
          subs[i].sensorId in after.sensors && subs[i].sensorTypeId in after.sensorTypes)
    && (forall i :: 0 <= i < |subs| && CachedReading(subs[i], before) ==> accepted[i])
  }

  /** `Processed` extends by one sub-reading that was handled as `HandleSensorReading` does. */
  lemma ProcessedSnoc(subs: seq<SubReading>, accepted: seq<bool>, s: SubReading, a: bool,
                      before: Caches, middle: Caches, after: Caches)
    requires Processed(subs, accepted, before, middle)
    requires middle.sensors <= after.sensors && middle.sensorTypes <= after.sensorTypes
    requires a ==> s.sensorId in after.sensors && s.sensorTypeId in after.sensorTypes
    requires CachedReading(s, before) ==> a
    ensures Processed(subs + [s], accepted + [a], before, after)
  {
  }

  /** `Processed` survives a smaller cache before and a larger cache after. */
  lemma ProcessedWeaken(subs: seq<SubReading>, accepted: seq<bool>, before: Caches, after: Caches,
                        earlier: Caches, later: Caches)
    requires Processed(subs, accepted, before, after)
    requires earlier.sensors <= before.sensors && earlier.sensorTypes <= before.sensorTypes
    requires after.sensors <= later.sensors && after.sensorTypes <= later.sensorTypes
    ensures Processed(subs, accepted, earlier, later)
  {
  }

  lemma {:induction false} AcceptedRowsAppend(a: seq<SubReading>, acceptedA: seq<bool>,
                                              b: seq<SubReading>, acceptedB: seq<bool>, timestampMs: int)
    requires |a| == |acceptedA| && |b| == |acceptedB|
    ensures AcceptedRows(a + b, acceptedA + acceptedB, timestampMs)
         == AcceptedRows(a, acceptedA, timestampMs) + AcceptedRows(b, acceptedB, timestampMs)
  {
    if b == [] {
      assert a + b == a && acceptedA + acceptedB == acceptedA;
    } else {
      var n := |b| - 1;
      assert (a + b)[..|a + b| - 1] == a + b[..n];
      assert (acceptedA + acceptedB)[..|acceptedA + acceptedB| - 1] == acceptedA + acceptedB[..n];
      AcceptedRowsAppend(a, acceptedA, b[..n], acceptedB[..n], timestampMs);
    }
  }

  /** Every queued row of a frame carries the frame's timestamp and is the reading
      of an accepted sub-reading; there are never more rows than sub-readings. */
  lemma {:induction false} AcceptedRowsOrigin(subs: seq<SubReading>, accepted: seq<bool>, timestampMs: int)
    requires |subs| == |accepted|
    ensures |AcceptedRows(subs, accepted, timestampMs)| <= |subs|
    ensures forall r :: r in AcceptedRows(subs, accepted, timestampMs) ==>
      r.timestampMs == timestampMs && exists i :: 0 <= i < |subs| && accepted[i] && r == ReadingOf(subs[i], timestampMs)
  {
    if subs != [] {
      var n := |subs| - 1;
      AcceptedRowsOrigin(subs[..n], accepted[..n], timestampMs);
      forall r | r in AcceptedRows(subs, accepted, timestampMs)
        ensures exists i :: 0 <= i < |subs| && accepted[i] && r == ReadingOf(subs[i], timestampMs)
      {
        if r in AcceptedRows(subs[..n], accepted[..n], timestampMs) {
          var i :| 0 <= i < n && accepted[..n][i] && r == ReadingOf(subs[..n][i], timestampMs);
          assert accepted[i] && subs[i] == subs[..n][i];
        } else {
          assert accepted[n] && r == ReadingOf(subs[n], timestampMs);
        }
      }
    }
  }

  /** When every sub-reading is accepted, the rows are exactly the sub-readings,
      in order, stamped with the timestamp. */
  lemma {:induction false} AcceptedRowsAll(subs: seq<SubReading>, accepted: seq<bool>, timestampMs: int)
    requires |subs| == |accepted| && forall i :: 0 <= i < |accepted| ==> accepted[i]
    ensures |AcceptedRows(subs, accepted, timestampMs)| == |subs|
    ensures forall i :: 0 <= i < |subs| ==> AcceptedRows(subs, accepted, timestampMs)[i] == ReadingOf(subs[i], timestampMs)
  {
    if subs != [] {
      var n := |subs| - 1;
      AcceptedRowsAll(subs[..n], accepted[..n], timestampMs);
    }
  }

  // ---------------------------------------------------------------------------
  // Properties of the reference functions
  // ---------------------------------------------------------------------------

  /** How a frame starts: a failed station upsert is the frame's only call and
      changes nothing; a cached station with an uncached device upserts the
      device first; a cached station and device go straight to the
      measurements. */
  lemma FrameStationFirst(f: Frame, s: Snapshot, a: FrameAnswers)
    requires |a.readings| == |FrameReadings(f)|
    ensures f.stationId !in s.known.stations && !a.stationOk ==>
      && !DeviceExists(f, s.known, a)
      && FrameCalls(f, s, a) == [Call(UpsertStation(f.stationId), false)]
      && AfterFrame(f, s, a) == s
    ensures f.stationId in s.known.stations && f.deviceId !in s.known.devices ==>
      && |FrameCalls(f, s, a)| >= 1
      && FrameCalls(f, s, a)[0] == Call(UpsertDevice(f.deviceId, f.stationId), a.deviceOk)
      && (!a.deviceOk ==> FrameCalls(f, s, a) == [Call(UpsertDevice(f.deviceId, f.stationId), false)])
    ensures f.stationId in s.known.stations && f.deviceId in s.known.devices ==>
      && DeviceExists(f, s.known, a)
      && FrameCalls(f, s, a) == MeasurementCalls(f, s, a.voltageFlush, a.readings)
  {
    if f.stationId in s.known.stations && f.deviceId in s.known.devices {
      assert s.known.(stations := s.known.stations + {f.stationId}, devices := s.known.devices + {f.deviceId}) == s.known;
      assert s.(known := DeviceReconciled(f, s.known, a)) == s;
    }
  }

  /** What one sub-reading does, by case: empty ids make no call and change
      nothing; a cached sensor and type make no upsert and always queue the
      row; an uncached type and sensor are upserted type first, and the row is
      queued exactly when both upserts succeed. */
  lemma SubReadingCases(r: SubReading, stationId: string, timestampMs: int, s: Snapshot, a: ReadingAnswers)
    ensures r.sensorId == "" || r.sensorTypeId == "" ==>
      && !Accepts(r, s.known, a)
      && SubReadingCalls(r, stationId, timestampMs, s, a) == []
      && AfterSubReading(r, timestampMs, s, a) == s
    ensures CachedReading(r, s.known) ==>
      && Accepts(r, s.known, a)
      && SubReadingCalls(r, stationId, timestampMs, s, a) == QueueReadingCalls(s, ReadingOf(r, timestampMs), a.flush)
      && AfterSubReading(r, timestampMs, s, a) == QueueReading(s, ReadingOf(r, timestampMs))
    ensures r.sensorId != "" && r.sensorTypeId != "" && r.sensorTypeId !in s.known.sensorTypes && r.sensorId !in s.known.sensors ==>
      && SubReadingUpserts(r, stationId, s.known, a)
         == [Call(UpsertSensorType(r.sensorTypeId), a.typeOk)]
            + (if a.typeOk then [Call(UpsertSensor(r.sensorId, r.sensorTypeId, stationId), a.sensorOk)] else [])
      && (Accepts(r, s.known, a) <==> a.typeOk && a.sensorOk)
  {
    if CachedReading(r, s.known) {
      var known := s.known;
      assert known.(sensorTypes := known.sensorTypes + {r.sensorTypeId}, sensors := known.sensors + {r.sensorId}) == known;
    }
    if r.sensorId == "" || r.sensorTypeId == "" {
      assert s.(known := s.known) == s;
    }
  }

  /** Handling sub-readings never forgets a cached id, an accepted sub-reading
      has its sensor and type cached afterwards, and a sub-reading whose sensor
      and type were cached beforehand is always accepted. */
  lemma {:induction false} AcceptancesProcessed(subs: seq<SubReading>, timestampMs: int, s: Snapshot,
                                                answers: seq<ReadingAnswers>)
    requires |subs| == |answers|
    ensures s.known.SubsetOf(AfterSubReadings(subs, timestampMs, s, answers).known)
    ensures Processed(subs, Acceptances(subs, timestampMs, s, answers), s.known,
                      AfterSubReadings(subs, timestampMs, s, answers).known)
  {
    if subs != [] {
      var n := |subs| - 1;
      var middle := AfterSubReadings(subs[..n], timestampMs, s, answers[..n]);
      var after := AfterSubReadings(subs, timestampMs, s, answers);
      AcceptancesProcessed(subs[..n], timestampMs, s, answers[..n]);
      assert after.known == Reconciled(subs[n], middle.known, answers[n]);
      assert subs[..n] + [subs[n]] == subs;
      ProcessedSnoc(subs[..n], Acceptances(subs[..n], timestampMs, s, answers[..n]), subs[n],
                    Accepts(subs[n], middle.known, answers[n]), s.known, middle.known, after.known);
    }
  }

  /** What `Processed` promises for a whole frame: nothing is accepted when the
      device does not exist; otherwise every sub-reading of the frame was
      handled as `AcceptancesProcessed` says, against the caches before the
      frame. */
  lemma FrameProcessed(f: Frame, s: Snapshot, a: FrameAnswers)
    requires |a.readings| == |FrameReadings(f)|
    ensures s.known.SubsetOf(AfterFrame(f, s, a).known)
    ensures !DeviceExists(f, s.known, a) ==>
      forall i :: 0 <= i < |FrameReadings(f)| ==> !FrameAcceptances(f, s, a)[i]
    ensures DeviceExists(f, s.known, a) ==>
      Processed(FrameReadings(f), FrameAcceptances(f, s, a), s.known, AfterFrame(f, s, a).known)
  {
    var voltage := AfterVoltage(f, s.(known := DeviceReconciled(f, s.known, a)));
    AcceptancesProcessed(FrameReadings(f), f.timestampMs, voltage, a.readings);
    if DeviceExists(f, s.known, a) {
      ProcessedWeaken(FrameReadings(f), FrameAcceptances(f, s, a), voltage.known, AfterFrame(f, s, a).known,
                      s.known, AfterFrame(f, s, a).known);
    }
  }

  /** Handling two lists of sub-readings one after the other is handling their
      concatenation: the same state, the same calls and the same acceptances. */
  lemma SubReadingsAppend(xs: seq<SubReading>, ys: seq<SubReading>, stationId: string, timestampMs: int,
                          s: Snapshot, ax: seq<ReadingAnswers>, ay: seq<ReadingAnswers>)
    requires |xs| == |ax| && |ys| == |ay|
    ensures var middle := AfterSubReadings(xs, timestampMs, s, ax);
      && AfterSubReadings(xs + ys, timestampMs, s, ax + ay) == AfterSubReadings(ys, timestampMs, middle, ay)
      && SubReadingsCalls(xs + ys, stationId, timestampMs, s, ax + ay)
         == SubReadingsCalls(xs, stationId, timestampMs, s, ax) + SubReadingsCalls(ys, stationId, timestampMs, middle, ay)
      && Acceptances(xs + ys, timestampMs, s, ax + ay)
         == Acceptances(xs, timestampMs, s, ax) + Acceptances(ys, timestampMs, middle, ay)
  {
    AfterSubReadingsAppend(xs, ys, timestampMs, s, ax, ay);
    SubReadingsCallsAppend(xs, ys, stationId, timestampMs, s, ax, ay);
    AcceptancesAppend(xs, ys, timestampMs, s, ax, ay);
  }

  /** The three folds over a list with one more sub-reading at the end. */
  lemma SubReadingsSnoc(subs: seq<SubReading>, r: SubReading, stationId: string, timestampMs: int, s: Snapshot,
                        answers: seq<ReadingAnswers>, a: ReadingAnswers)
    requires |subs| == |answers|
    ensures var middle := AfterSubReadings(subs, timestampMs, s, answers);
      && AfterSubReadings(subs + [r], timestampMs, s, answers + [a]) == AfterSubReading(r, timestampMs, middle, a)
      && SubReadingsCalls(subs + [r], stationId, timestampMs, s, answers + [a])
         == SubReadingsCalls(subs, stationId, timestampMs, s, answers) + SubReadingCalls(r, stationId, timestampMs, middle, a)
      && Acceptances(subs + [r], timestampMs, s, answers + [a])
         == Acceptances(subs, timestampMs, s, answers) + [Accepts(r, middle.known, a)]
  {
    assert (subs + [r])[..|subs|] == subs && (answers + [a])[..|answers|] == answers;
  }

  /** A non-empty list is its prefix followed by its last element. */
  lemma SplitLast<T>(xs: seq<T>, ys: seq<T>)
    requires ys != []
    ensures xs + ys == (xs + ys[..|ys| - 1]) + [ys[|ys| - 1]]
  {
  }

  /** The folds over `xs + ys`, for a non-empty `ys`, unfolded at the last
      element of `ys`, given the state the prefix `xs + ys[..n]` leads to. */
  lemma AppendLast(xs: seq<SubReading>, ys: seq<SubReading>, stationId: string, timestampMs: int,
                   s: Snapshot, ax: seq<ReadingAnswers>, ay: seq<ReadingAnswers>, reached: Snapshot)
    requires |xs| == |ax| && |ys| == |ay| && ys != []
    requires reached == AfterSubReadings(xs + ys[..|ys| - 1], timestampMs, s, ax + ay[..|ay| - 1])
    ensures var n := |ys| - 1;
      && AfterSubReadings(xs + ys, timestampMs, s, ax + ay) == AfterSubReading(ys[n], timestampMs, reached, ay[n])
      && SubReadingsCalls(xs + ys, stationId, timestampMs, s, ax + ay)
         == SubReadingsCalls(xs + ys[..n], stationId, timestampMs, s, ax + ay[..n])
            + SubReadingCalls(ys[n], stationId, timestampMs, reached, ay[n])
      && Acceptances(xs + ys, timestampMs, s, ax + ay)
         == Acceptances(xs + ys[..n], timestampMs, s, ax + ay[..n]) + [Accepts(ys[n], reached.known, ay[n])]
  {
    var n := |ys| - 1;
    SplitLast(xs, ys);
    SplitLast(ax, ay);
    SubReadingsSnoc(xs + ys[..n], ys[n], stationId, timestampMs, s, ax + ay[..n], ay[n]);
  }

  lemma {:induction false} AfterSubReadingsAppend(xs: seq<SubReading>, ys: seq<SubReading>, timestampMs: int,
                                                  s: Snapshot, ax: seq<ReadingAnswers>, ay: seq<ReadingAnswers>)
    requires |xs| == |ax| && |ys| == |ay|
    ensures AfterSubReadings(xs + ys, timestampMs, s, ax + ay)
         == AfterSubReadings(ys, timestampMs, AfterSubReadings(xs, timestampMs, s, ax), ay)
  {
    if ys == [] {
      assert xs + ys == xs && ax + ay == ax;
    } else {
      var n := |ys| - 1;
      AfterSubReadingsAppend(xs, ys[..n], timestampMs, s, ax, ay[..n]);
      AppendLast(xs, ys, "", timestampMs, s, ax, ay, AfterSubReadings(xs + ys[..n], timestampMs, s, ax + ay[..n]));
    }
  }

  lemma {:induction false} SubReadingsCallsAppend(xs: seq<SubReading>, ys: seq<SubReading>, stationId: string, timestampMs: int,
                                                  s: Snapshot, ax: seq<ReadingAnswers>, ay: seq<ReadingAnswers>)
    requires |xs| == |ax| && |ys| == |ay|
    ensures SubReadingsCalls(xs + ys, stationId, timestampMs, s, ax + ay)
         == SubReadingsCalls(xs, stationId, timestampMs, s, ax)
            + SubReadingsCalls(ys, stationId, timestampMs, AfterSubReadings(xs, timestampMs, s, ax), ay)
  {
    if ys == [] {
      assert xs + ys == xs && ax + ay == ax;
    } else {
      var n := |ys| - 1;
      var middle := AfterSubReadings(xs, timestampMs, s, ax);
      AfterSubReadingsAppend(xs, ys[..n], timestampMs, s, ax, ay[..n]);
      SubReadingsCallsAppend(xs, ys[..n], stationId, timestampMs, s, ax, ay[..n]);
      var reached := AfterSubReadings(ys[..n], timestampMs, middle, ay[..n]);
      AppendLast(xs, ys, stationId, timestampMs, s, ax, ay, reached);
      CallsUnfold(ys, stationId, timestampMs, middle, ay);
      Extends(SubReadingsCalls(xs, stationId, timestampMs, s, ax),
              SubReadingsCalls(xs + ys[..n], stationId, timestampMs, s, ax + ay[..n]),
              SubReadingsCalls(xs + ys, stationId, timestampMs, s, ax + ay),
              SubReadingsCalls(ys[..n], stationId, timestampMs, middle, ay[..n]),
              SubReadingCalls(ys[n], stationId, timestampMs, reached, ay[n]));
    }
  }

  /** The calls of a non-empty list: those of its prefix, then those of its last element. */
  lemma CallsUnfold(ys: seq<SubReading>, stationId: string, timestampMs: int, s: Snapshot, ay: seq<ReadingAnswers>)
    requires |ys| == |ay| && ys != []
    ensures var n := |ys| - 1;
      SubReadingsCalls(ys, stationId, timestampMs, s, ay)
      == SubReadingsCalls(ys[..n], stationId, timestampMs, s, ay[..n])
         + SubReadingCalls(ys[n], stationId, timestampMs, AfterSubReadings(ys[..n], timestampMs, s, ay[..n]), ay[n])
  {
  }

  lemma {:induction false} AcceptancesAppend(xs: seq<SubReading>, ys: seq<SubReading>, timestampMs: int,
                                             s: Snapshot, ax: seq<ReadingAnswers>, ay: seq<ReadingAnswers>)
    requires |xs| == |ax| && |ys| == |ay|
    ensures Acceptances(xs + ys, timestampMs, s, ax + ay)
         == Acceptances(xs, timestampMs, s, ax) + Acceptances(ys, timestampMs, AfterSubReadings(xs, timestampMs, s, ax), ay)
  {
    if ys == [] {
      assert xs + ys == xs && ax + ay == ax;
    } else {
      var n := |ys| - 1;
      var middle := AfterSubReadings(xs, timestampMs, s, ax);
      AfterSubReadingsAppend(xs, ys[..n], timestampMs, s, ax, ay[..n]);
      AcceptancesAppend(xs, ys[..n], timestampMs, s, ax, ay[..n]);
      var reached := AfterSubReadings(ys[..n], timestampMs, middle, ay[..n]);
      AppendLast(xs, ys, "", timestampMs, s, ax, ay, reached);
      Extends(Acceptances(xs, timestampMs, s, ax),
              Acceptances(xs + ys[..n], timestampMs, s, ax + ay[..n]),
              Acceptances(xs + ys, timestampMs, s, ax + ay),
              Acceptances(ys[..n], timestampMs, middle, ay[..n]),
              [Accepts(ys[n], reached.known, ay[n])]);
    }
  }

  // ---------------------------------------------------------------------------
  // Steps of the loops
  // ---------------------------------------------------------------------------

  /** One more sub-reading handled: if the log, state and rows so far are
      those of the sub-readings before it, and the handler extends them by the
      calls, state and row of this one, they are those of one more. */
  lemma SubReadingStep(subs: seq<SubReading>, k: nat, stationId: string, timestampMs: int, s: Snapshot,
                       answers: seq<ReadingAnswers>, a: ReadingAnswers,
                       log0: seq<Call>, logBefore: seq<Call>, logAfter: seq<Call>, state: Snapshot, after: Snapshot,
                       rows0: seq<Reading>, rowsBefore: seq<Reading>, rowsAfter: seq<Reading>)
    requires k < |subs| && |answers| == k
    requires logBefore == log0 + SubReadingsCalls(subs[..k], stationId, timestampMs, s, answers)
    requires state == AfterSubReadings(subs[..k], timestampMs, s, answers)
    requires rowsBefore == rows0 + AcceptedRows(subs[..k], Acceptances(subs[..k], timestampMs, s, answers), timestampMs)
    requires logAfter == logBefore + SubReadingCalls(subs[k], stationId, timestampMs, state, a)
    requires after == AfterSubReading(subs[k], timestampMs, state, a)
    requires rowsAfter == rowsBefore + (if Accepts(subs[k], state.known, a) then [ReadingOf(subs[k], timestampMs)] else [])
    ensures logAfter == log0 + SubReadingsCalls(subs[..k + 1], stationId, timestampMs, s, answers + [a])
    ensures after == AfterSubReadings(subs[..k + 1], timestampMs, s, answers + [a])
    ensures rowsAfter == rows0 + AcceptedRows(subs[..k + 1], Acceptances(subs[..k + 1], timestampMs, s, answers + [a]), timestampMs)
  {
    var prefix := subs[..k + 1];
    assert prefix[..k] == subs[..k] && prefix[k] == subs[k];
    assert (answers + [a])[..k] == answers;
    TakeSnoc(subs, k);
    AcceptedRowsSnoc(subs[..k], Acceptances(subs[..k], timestampMs, s, answers), subs[k],
                     Accepts(subs[k], state.known, a), timestampMs);
    Extends(log0, logBefore, logAfter,
            SubReadingsCalls(subs[..k], stationId, timestampMs, s, answers),
            SubReadingCalls(subs[k], stationId, timestampMs, state, a));
    Extends(rows0, rowsBefore, rowsAfter,
            AcceptedRows(subs[..k], Acceptances(subs[..k], timestampMs, s, answers), timestampMs),
            if Accepts(subs[k], state.known, a) then [ReadingOf(subs[k], timestampMs)] else []);
  }

  /** One more channel handled: its sub-readings, state, calls and rows extend
      those of the channels before it. */
  lemma ChannelStep(channels: seq<string>, k: nat, done: seq<SubReading>, subs: seq<SubReading>, stationId: string,
                    timestampMs: int, s: Snapshot, answers: seq<ReadingAnswers>, a: seq<ReadingAnswers>)
    requires k < |channels| && done == ChannelsReadings(channels[..k]) && subs == ChannelReadings(channels[k])
    requires |answers| == |done| && |a| == |subs|
    ensures done + subs == ChannelsReadings(channels[..k + 1])
    ensures var middle := AfterSubReadings(done, timestampMs, s, answers);
      && AfterSubReadings(done + subs, timestampMs, s, answers + a) == AfterSubReadings(subs, timestampMs, middle, a)
      && SubReadingsCalls(done + subs, stationId, timestampMs, s, answers + a)
         == SubReadingsCalls(done, stationId, timestampMs, s, answers) + SubReadingsCalls(subs, stationId, timestampMs, middle, a)
      && AcceptedRows(done + subs, Acceptances(done + subs, timestampMs, s, answers + a), timestampMs)
         == AcceptedRows(done, Acceptances(done, timestampMs, s, answers), timestampMs)
            + AcceptedRows(subs, Acceptances(subs, timestampMs, middle, a), timestampMs)
  {
    ChannelsReadingsPrefix(channels, k);
    SubReadingsAppend(done, subs, stationId, timestampMs, s, answers, a);
    var middle := AfterSubReadings(done, timestampMs, s, answers);
    AcceptedRowsAppend(done, Acceptances(done, timestampMs, s, answers), subs, Acceptances(subs, timestampMs, middle, a), timestampMs);
  }

  /** The frame functions, once the device calls are known to have been
      answered `a.stationOk` and `a.deviceOk` and to have left the state
      `reconciled`. */
  lemma FrameStep(f: Frame, s: Snapshot, reconciled: Snapshot, a: FrameAnswers)
    requires |a.readings| == |FrameReadings(f)|
    requires f.stationId in s.known.stations ==> a.stationOk
    requires !a.stationOk ==> !a.deviceOk
    requires a.stationOk && f.deviceId in s.known.devices ==> a.deviceOk
    requires reconciled == s.(known := s.known.(
      stations := if a.stationOk then s.known.stations + {f.stationId} else s.known.stations,
      devices := if a.deviceOk then s.known.devices + {f.deviceId} else s.known.devices))
    ensures StationExists(f, s.known, a) == a.stationOk && DeviceExists(f, s.known, a) == a.deviceOk
    ensures FrameCalls(f, s, a) == DeviceCalls(f.deviceId, f.stationId, s.known, a.stationOk, a.deviceOk)
      + (if a.deviceOk then MeasurementCalls(f, reconciled, a.voltageFlush, a.readings) else [])
    ensures AfterFrame(f, s, a)
      == if a.deviceOk then AfterSubReadings(FrameReadings(f), f.timestampMs, AfterVoltage(f, reconciled), a.readings)
         else reconciled
    ensures a.deviceOk ==>
      FrameAcceptances(f, s, a) == Acceptances(FrameReadings(f), f.timestampMs, AfterVoltage(f, reconciled), a.readings)
  {
  }

  /** No row is queued when no sub-reading is accepted. */
  lemma {:induction false} AcceptedRowsNone(subs: seq<SubReading>, accepted: seq<bool>, timestampMs: int)
    requires |subs| == |accepted| && forall i :: 0 <= i < |accepted| ==> !accepted[i]
    ensures AcceptedRows(subs, accepted, timestampMs) == []
  {
    if subs != [] {
      var n := |subs| - 1;
      AcceptedRowsNone(subs[..n], accepted[..n], timestampMs);
    }
  }
}
