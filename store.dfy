/** The database the service writes to, seen from the service: six kinds of
    request (four idempotent upserts and two bulk inserts), each answered with
    success or an error. The store's answers are not modelled; every request and
    its answer is recorded in a log, and the properties of the service are
    stated over that log. */
module Store {
  import opened JsText

  /** A row of the sensor readings table; the ISO timestamp is kept as epoch milliseconds. */
  datatype Reading = Reading(sensorId: string, value: Num, timestampMs: int)

  /** A row of the device voltage readings table. */
  datatype VoltageReading = VoltageReading(deviceId: string, voltage: Num, timestampMs: int)

  /** What the service asks of the store. An upsert ignores a duplicate key; an
      insert hands over a whole batch at once. */
  datatype Request =
    | UpsertStation(stationId: string)
    | UpsertSensorType(sensorTypeId: string)
    | UpsertDevice(deviceId: string, stationOfDevice: string)
    | UpsertSensor(sensorId: string, typeOfSensor: string, stationOfSensor: string)
    | InsertReadings(rows: seq<Reading>)
    | InsertVoltageReadings(voltageRows: seq<VoltageReading>)

  /** One request and the store's answer: `ok` is false when the store reported an error. */
  datatype Call = Call(request: Request, ok: bool)

  /** One set of ids per entity table: the shape of the service's caches and of
      what the log has confirmed. */
  datatype Caches = Caches(stations: set<string>, devices: set<string>, sensorTypes: set<string>, sensors: set<string>)
  {
    function Union(other: Caches): Caches
    {
      Caches(stations + other.stations, devices + other.devices,
             sensorTypes + other.sensorTypes, sensors + other.sensors)
    }

    predicate SubsetOf(other: Caches)
    {
      stations <= other.stations && devices <= other.devices
      && sensorTypes <= other.sensorTypes && sensors <= other.sensors
    }
  }

  const NoIds := Caches({}, {}, {}, {})

  /** The store, reduced to the log of what it was asked and what it answered,
      with running summaries of that log. */
  class Store {
    ghost var log: seq<Call>
    /** Ids known to exist before the first request (those the service preloads). */
    ghost const initial: Caches
    /** Ids known to exist now: the initial ones and those confirmed by the log. */
    ghost var existing: Caches
    /** Rows handed to inserts so far, per table, in order, whatever the store
        answered: what `Execute` appends for each insert request. */
    ghost var inserted: seq<Reading>
    ghost var insertedVoltages: seq<VoltageReading>
    /** Whether every request so far was sent after the ids it refers to existed. */
    ghost var ordered: bool

    /** The id summaries agree with the log. */
    ghost predicate Valid()
      reads this
    {
      && existing == initial.Union(Confirmed(log))
      && ordered == PrerequisitesFirst(log, initial)
    }

    constructor (ghost initial: Caches)
      ensures Valid() && log == [] && this.initial == initial && existing == initial
      ensures inserted == [] && insertedVoltages == [] && ordered
    {
      this.initial := initial;
      log, existing, inserted, insertedVoltages, ordered := [], initial, [], [], true;
      new;
      assert initial.Union(NoIds) == initial;
    }

    /** Sends one request; the answer is the store's to give. */
    method Execute(request: Request) returns (ok: bool)
      requires Valid()
      modifies this
      ensures Valid()
      ensures log == old(log) + [Call(request, ok)]
      ensures existing == Record(old(existing), Call(request, ok))
      ensures inserted == old(inserted) + RowsOf(Call(request, ok))
      ensures insertedVoltages == old(insertedVoltages) + VoltageRowsOf(Call(request, ok))
      ensures ordered == (old(ordered) && Prerequisites(request, old(existing)))
    {
      ok :| true;
      var call := Call(request, ok);
      AppendCall(log, call, initial);
      RecordUnion(initial, Confirmed(log), call);
      ordered := ordered && Prerequisites(request, existing);
      log := log + [call];
      existing := Record(existing, call);
      inserted := inserted + RowsOf(call);
      insertedVoltages := insertedVoltages + VoltageRowsOf(call);
    }
  }

  // ---------------------------------------------------------------------------
  // Reading the log
  // ---------------------------------------------------------------------------

  /** The ids one call confirms: the key of a successful upsert. */
  function Record(known: Caches, call: Call): Caches
  {
    if !call.ok then known
    else match call.request
      case UpsertStation(id) => known.(stations := known.stations + {id})
      case UpsertDevice(id, _) => known.(devices := known.devices + {id})
      case UpsertSensorType(id) => known.(sensorTypes := known.sensorTypes + {id})
      case UpsertSensor(id, _, _) => known.(sensors := known.sensors + {id})
      case _ => known
  }

  /** The ids the store has confirmed to exist over a whole log. */
  function Confirmed(log: seq<Call>): Caches
  {
    if log == [] then NoIds else Record(Confirmed(log[..|log| - 1]), log[|log| - 1])
  }

  /** The rows one call hands to the readings table. */
  function RowsOf(c: Call): seq<Reading>
  {
    if c.request.InsertReadings? then c.request.rows else []
  }

  /** The rows one call hands to the voltage readings table. */
  function VoltageRowsOf(c: Call): seq<VoltageReading>
  {
    if c.request.InsertVoltageReadings? then c.request.voltageRows else []
  }

  /** Referential integrity of one request, given the ids known to exist: a device
      names an existing station; a sensor an existing type and station; a reading
      an existing sensor; a voltage reading an existing device. */
  predicate Prerequisites(request: Request, known: Caches)
  {
    match request
    case UpsertDevice(_, stationId) => stationId in known.stations
    case UpsertSensor(_, sensorTypeId, stationId) => sensorTypeId in known.sensorTypes && stationId in known.stations
    case InsertReadings(rows) => forall r :: r in rows ==> r.sensorId in known.sensors
    case InsertVoltageReadings(rows) => forall v :: v in rows ==> v.deviceId in known.devices
    case _ => true
  }

  /** Every request of the log was sent only once the ids it refers to were known
      to exist: preloaded (`pre`) or confirmed by an earlier call. */
  predicate PrerequisitesFirst(log: seq<Call>, pre: Caches)
  {
    log == [] ||
    (PrerequisitesFirst(log[..|log| - 1], pre)
     && Prerequisites(log[|log| - 1].request, pre.Union(Confirmed(log[..|log| - 1]))))
  }

  // ---------------------------------------------------------------------------
  // Properties of the log
  // ---------------------------------------------------------------------------

  /** Appending one call to the log: what it then confirms, and whether it still
      keeps prerequisites first. */
  lemma AppendCall(log: seq<Call>, c: Call, pre: Caches)
    ensures Confirmed(log + [c]) == Record(Confirmed(log), c)
    ensures PrerequisitesFirst(log + [c], pre) <==> PrerequisitesFirst(log, pre) && Prerequisites(c.request, pre.Union(Confirmed(log)))
  {
    assert (log + [c])[..|log|] == log;
  }

  /** Prerequisites first, for logs of one and two calls. */
  lemma PrerequisitesFirstShort(c1: Call, c2: Call, pre: Caches)
    ensures PrerequisitesFirst([c1], pre) <==> Prerequisites(c1.request, pre)
    ensures PrerequisitesFirst([c1, c2], pre)
        <==> Prerequisites(c1.request, pre) && Prerequisites(c2.request, pre.Union(Record(NoIds, c1)))
  {
    AppendCall([], c1, pre);
    AppendCall([c1], c2, pre);
    assert [] + [c1] == [c1] && [c1] + [c2] == [c1, c2];
    assert pre.Union(NoIds) == pre;
  }

  /** Recording a call on top of known ids confirms the same id as recording it alone. */
  lemma RecordUnion(initial: Caches, confirmed: Caches, c: Call)
    ensures initial.Union(Record(confirmed, c)) == Record(initial.Union(confirmed), c)
  {
  }

  /** Confirmed ids are never forgotten: a longer log confirms at least as much. */
  lemma {:induction false} ConfirmedMonotone(log: seq<Call>, more: seq<Call>)
    ensures Confirmed(log).SubsetOf(Confirmed(log + more))
  {
    if more != [] {
      var longer := log + more;
      assert longer[..|longer| - 1] == log + more[..|more| - 1];
      ConfirmedMonotone(log, more[..|more| - 1]);
    } else {
      assert log + more == log;
    }
  }

  /** A station id is confirmed exactly when some upsert of that station succeeded. */
  lemma {:induction false} ConfirmedStation(log: seq<Call>, id: string)
    ensures id in Confirmed(log).stations <==> exists i :: 0 <= i < |log| && log[i] == Call(UpsertStation(id), true)
  {
    if log != [] {
      var prefix := log[..|log| - 1];
      ConfirmedStation(prefix, id);
      if id in Confirmed(prefix).stations {
        var i :| 0 <= i < |prefix| && prefix[i] == Call(UpsertStation(id), true);
        assert log[i] == prefix[i];
      }
      if exists i :: 0 <= i < |log| && log[i] == Call(UpsertStation(id), true) {
        var i :| 0 <= i < |log| && log[i] == Call(UpsertStation(id), true);
        if i < |prefix| {
          assert prefix[i] == log[i];
        }
      }
    }
  }

  /** A sensor id is confirmed exactly when some upsert of that sensor succeeded. */
  lemma {:induction false} ConfirmedSensor(log: seq<Call>, id: string)
    ensures id in Confirmed(log).sensors <==>
      exists i, t, s :: 0 <= i < |log| && log[i] == Call(UpsertSensor(id, t, s), true)
  {
    if log != [] {
      var prefix := log[..|log| - 1];
      ConfirmedSensor(prefix, id);
      if id in Confirmed(prefix).sensors {
        var i, t, s :| 0 <= i < |prefix| && prefix[i] == Call(UpsertSensor(id, t, s), true);
        assert log[i] == prefix[i];
      }
      if exists i, t, s :: 0 <= i < |log| && log[i] == Call(UpsertSensor(id, t, s), true) {
        var i, t, s :| 0 <= i < |log| && log[i] == Call(UpsertSensor(id, t, s), true);
        if i < |prefix| {
          assert prefix[i] == log[i];
        }
      }
    }
  }

  /** A log that keeps prerequisites first keeps them at every position, against
      what was confirmed before that position. */
  lemma {:induction false} PrerequisitesAt(log: seq<Call>, pre: Caches, i: nat)
    requires PrerequisitesFirst(log, pre) && i < |log|
    ensures Prerequisites(log[i].request, pre.Union(Confirmed(log[..i])))
  {
    var prefix := log[..|log| - 1];
    if i < |log| - 1 {
      PrerequisitesAt(prefix, pre, i);
      assert prefix[..i] == log[..i];
    }
  }
}
