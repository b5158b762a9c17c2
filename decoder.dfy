/** The frame decoder: turns the decoded text of one uplink,
    `stationId|deviceId|voltage|timestampSeconds|channel|...` with each channel
    `sensorId,modelEnum,value0,value1,...`, into a frame and its sub-readings. */
module Decoder {
  import opened Wrappers
  import opened JsText
  import opened Registry

  const FieldSeparator := '|'
  const ValueSeparator := ','

  /** The largest absolute time a JavaScript `Date` holds, in milliseconds;
      `toISOString` throws beyond it. */
  const MaxTimeMs := 8_640_000_000_000_000

  datatype DecodeError = TooFewFields | InvalidTimestamp | TimestampOutOfRange

  /** A decoded frame: the raw channel strings are interpreted later, one by one. */
  datatype Frame = Frame(stationId: string, deviceId: string, voltage: Num, timestampMs: int, channels: seq<string>)

  /** One value of one channel, addressed to its logical sensor. */
  datatype SubReading = SubReading(sensorId: string, sensorTypeId: string, value: Num)

  /** A channel whose model enum is registered: its physical id, its model and all
      of its comma-separated fields (the id and the enum included). */
  datatype Channel = Channel(sensorId: string, model: SensorModel, fields: seq<string>)

  predicate ValidTime(ms: int)
  {
    -MaxTimeMs <= ms <= MaxTimeMs
  }

  /** Splits the frame, reads the timestamp in seconds and converts it to
      milliseconds; the channels are left as raw strings. */
  function DecodeFrame(decoded: string): (r: Result<Frame, DecodeError>)
    ensures |Split(decoded, FieldSeparator)| < 4 ==> r == Failure(TooFewFields)
    ensures r.Success? ==> ValidTime(r.value.timestampMs)
  {
    var parts := Split(decoded, FieldSeparator);
    if |parts| < 4 then Failure(TooFewFields)
    else
      match ParseInt(parts[3])
      case None => Failure(InvalidTimestamp)
      case Some(seconds) =>
        if !ValidTime(seconds * 1000) then Failure(TimestampOutOfRange)
        else Success(Frame(parts[0], parts[1], ParseFloat(parts[2]), seconds * 1000, parts[4..]))
  }

  /** Splits a channel and resolves its model; `None` when the channel has fewer
      than three fields, its enum is not an integer, or the enum is not registered. */
  function ParseChannel(raw: string): (r: Option<Channel>)
    ensures r.Some? ==> |r.value.fields| >= 3 && WellFormed(r.value.model)
  {
    var fields := Split(raw, ValueSeparator);
    if |fields| < 3 then None
    else
      match ParseInt(fields[1])
      case None => None
      case Some(modelEnum) =>
        match Lookup(modelEnum)
        case None => None
        case Some(model) => Some(Channel(fields[0], model, fields))
  }

  /** The logical sensor id: the physical id followed by the suffix, the physical
      id itself when the suffix is empty. */
  function DerivedId(sensorId: string, suffix: string): (r: string)
    ensures r == sensorId + suffix
    ensures |r| == |sensorId| + |suffix| && r[..|sensorId|] == sensorId
  {
    if suffix == "" then sensorId else sensorId + suffix
  }

  /** The sub-reading one descriptor selects: `None` when the channel is too short
      or the value is the absent-value literal `nan`. */
  function ReadValue(ch: Channel, d: Descriptor): Option<SubReading>
  {
    var at := d.index + 2;
    if |ch.fields| <= at then None
    else if IsNanLiteral(ch.fields[at]) then None
    else Some(SubReading(DerivedId(ch.sensorId, d.idSuffix), d.sensorTypeId, ParseFloat(ch.fields[at])))
  }

  function OptionToSeq<T>(o: Option<T>): seq<T>
  {
    if o.Some? then [o.value] else []
  }

  /** The sub-readings of a channel for the given descriptors, in descriptor order. */
  function DescriptorReadings(ch: Channel, ds: seq<Descriptor>): seq<SubReading>
  {
    if ds == [] then []
    else DescriptorReadings(ch, ds[..|ds| - 1]) + OptionToSeq(ReadValue(ch, ds[|ds| - 1]))
  }

  function ChannelReadings(raw: string): seq<SubReading>
  {
    match ParseChannel(raw)
    case None => []
    case Some(ch) => DescriptorReadings(ch, ch.model.types)
  }

  /** The sub-readings of a frame's channels, channel after channel. */
  function ChannelsReadings(channels: seq<string>): seq<SubReading>
  {
    FlatMap(ChannelReadings, channels)
  }

  /** `xs.flatMap(f)`: the lists `f` gives for the elements of `xs`, concatenated in order. */
  function FlatMap<T, U>(f: T -> seq<U>, xs: seq<T>): seq<U>
  {
    if xs == [] then [] else FlatMap(f, xs[..|xs| - 1]) + f(xs[|xs| - 1])
  }

  function FrameReadings(f: Frame): seq<SubReading>
  {
    ChannelsReadings(f.channels)
  }

  // ---------------------------------------------------------------------------
  // Encoders, the inverse direction
  // ---------------------------------------------------------------------------

  function EncodeChannel(sensorId: string, modelEnum: int, values: seq<string>): string
  {
    Join([sensorId, Show(modelEnum)] + values, ValueSeparator)
  }

  function EncodeFrame(stationId: string, deviceId: string, voltage: string, seconds: int, channels: seq<string>): string
  {
    Join([stationId, deviceId, voltage, Show(seconds)] + channels, FieldSeparator)
  }

  // ---------------------------------------------------------------------------
  // Properties
  // ---------------------------------------------------------------------------

  /** Decoding reads back the station id, device id, voltage and timestamp of an
      encoded frame, and hands its channels on unchanged. */
  lemma DecodeEncodeFrame(stationId: string, deviceId: string, voltage: string, seconds: int, channels: seq<string>)
    requires FieldSeparator !in stationId && FieldSeparator !in deviceId && FieldSeparator !in voltage
    requires forall i :: 0 <= i < |channels| ==> FieldSeparator !in channels[i]
    requires ValidTime(seconds * 1000)
    ensures DecodeFrame(EncodeFrame(stationId, deviceId, voltage, seconds, channels))
         == Success(Frame(stationId, deviceId, ParseFloat(voltage), seconds * 1000, channels))
  {
    var parts := [stationId, deviceId, voltage, Show(seconds)] + channels;
    assert forall i :: 0 <= i < |parts| ==> FieldSeparator !in parts[i] by {
      ShowHasNoSeparator(seconds, FieldSeparator);
    }
    SplitJoin(parts, FieldSeparator);
    ParseIntShowExact(seconds);
    assert parts[3] == Show(seconds) && parts[4..] == channels;
    DecodeParts(EncodeFrame(stationId, deviceId, voltage, seconds, channels), parts, seconds);
  }

  /** What `DecodeFrame` makes of a frame that splits into `parts` with a valid timestamp. */
  lemma DecodeParts(decoded: string, parts: seq<string>, seconds: int)
    requires Split(decoded, FieldSeparator) == parts && |parts| >= 4
    requires ParseInt(parts[3]) == Some(seconds) && ValidTime(seconds * 1000)
    ensures DecodeFrame(decoded) == Success(Frame(parts[0], parts[1], ParseFloat(parts[2]), seconds * 1000, parts[4..]))
  {
  }

  lemma ShowHasNoSeparator(n: int, sep: char)
    requires sep == FieldSeparator || sep == ValueSeparator
    ensures sep !in Show(n)
  {
    var m: nat := if n < 0 then -n else n;
    assert forall i :: 0 <= i < |ShowNat(m)| ==> '0' <= ShowNat(m)[i] <= '9';
  }

  /** An encoded channel with a registered enum and at least one value resolves
      to that model, with its fields in encoding order. */
  lemma ParseEncodedChannel(sensorId: string, modelEnum: int, values: seq<string>)
    requires modelEnum in RegisteredEnums && |values| >= 1
    requires ValueSeparator !in sensorId
    requires forall i :: 0 <= i < |values| ==> ValueSeparator !in values[i]
    ensures ParseChannel(EncodeChannel(sensorId, modelEnum, values))
         == Some(Channel(sensorId, Lookup(modelEnum).value, [sensorId, Show(modelEnum)] + values))
  {
    var fields := [sensorId, Show(modelEnum)] + values;
    assert forall i :: 0 <= i < |fields| ==> ValueSeparator !in fields[i] by {
      ShowHasNoSeparator(modelEnum, ValueSeparator);
    }
    SplitJoin(fields, ValueSeparator);
    ParseIntShowExact(modelEnum);
    assert fields[1] == Show(modelEnum);
    ParseFields(EncodeChannel(sensorId, modelEnum, values), fields, modelEnum);
  }

  /** An encoded frame whose timestamp, in milliseconds, is beyond what `Date`
      can format is rejected as `TimestampOutOfRange`. */
  lemma DecodeEncodeFrameOutOfRange(stationId: string, deviceId: string, voltage: string, seconds: int, channels: seq<string>)
    requires FieldSeparator !in stationId && FieldSeparator !in deviceId && FieldSeparator !in voltage
    requires forall i :: 0 <= i < |channels| ==> FieldSeparator !in channels[i]
    requires !ValidTime(seconds * 1000)
    ensures DecodeFrame(EncodeFrame(stationId, deviceId, voltage, seconds, channels)) == Failure(TimestampOutOfRange)
  {
    var parts := [stationId, deviceId, voltage, Show(seconds)] + channels;
    assert forall i :: 0 <= i < |parts| ==> FieldSeparator !in parts[i] by {
      ShowHasNoSeparator(seconds, FieldSeparator);
    }
    SplitJoin(parts, FieldSeparator);
    ParseIntShowExact(seconds);
    assert parts[3] == Show(seconds);
  }

  /** A frame whose fourth field starts with a character that can begin no
      integer is rejected as `InvalidTimestamp`, whatever its other fields. */
  lemma DecodeFrameTimestampWithoutDigits(fields: seq<string>)
    requires |fields| >= 4 && forall i :: 0 <= i < |fields| ==> FieldSeparator !in fields[i]
    requires fields[3] != [] && !IsJsWhitespace(fields[3][0])
    requires fields[3][0] != '-' && fields[3][0] != '+' && fields[3][0] != '0' && DigitValue(fields[3][0]) >= 10
    ensures DecodeFrame(Join(fields, FieldSeparator)) == Failure(InvalidTimestamp)
  {
    SplitJoin(fields, FieldSeparator);
    ParseIntWithoutDigits(fields[3]);
    DecodeRejectsTimestamp(Join(fields, FieldSeparator), fields);
  }

  lemma DecodeRejectsTimestamp(decoded: string, parts: seq<string>)
    requires Split(decoded, FieldSeparator) == parts && |parts| >= 4 && ParseInt(parts[3]) == None
    ensures DecodeFrame(decoded) == Failure(InvalidTimestamp)
  {
  }

  /** An encoded channel whose model enum is not registered is skipped. */
  lemma ParseEncodedChannelUnregistered(sensorId: string, modelEnum: int, values: seq<string>)
    requires modelEnum !in RegisteredEnums && |values| >= 1
    requires ValueSeparator !in sensorId
    requires forall i :: 0 <= i < |values| ==> ValueSeparator !in values[i]
    ensures ParseChannel(EncodeChannel(sensorId, modelEnum, values)) == None
  {
    var fields := [sensorId, Show(modelEnum)] + values;
    assert forall i :: 0 <= i < |fields| ==> ValueSeparator !in fields[i] by {
      ShowHasNoSeparator(modelEnum, ValueSeparator);
    }
    SplitJoin(fields, ValueSeparator);
    ParseIntShowExact(modelEnum);
    assert fields[1] == Show(modelEnum);
  }

  /** What `ParseChannel` makes of a channel that splits into `fields` with a registered enum. */
  lemma ParseFields(raw: string, fields: seq<string>, modelEnum: int)
    requires Split(raw, ValueSeparator) == fields && |fields| >= 3
    requires ParseInt(fields[1]) == Some(modelEnum) && modelEnum in RegisteredEnums
    ensures ParseChannel(raw) == Some(Channel(fields[0], Lookup(modelEnum).value, fields))
  {
  }

  lemma FlatMapSnoc<T, U>(f: T -> seq<U>, xs: seq<T>, x: T)
    ensures FlatMap(f, xs + [x]) == FlatMap(f, xs) + f(x)
  {
    assert (xs + [x])[..|xs|] == xs;
  }

  /** Mapping consecutive lists gives consecutive results. */
  lemma {:induction false} FlatMapAppend<T, U>(f: T -> seq<U>, a: seq<T>, b: seq<T>)
    ensures FlatMap(f, a + b) == FlatMap(f, a) + FlatMap(f, b)
    decreases |b|
  {
    if b == [] {
      assert a + b == a;
    } else {
      var b', c := b[..|b| - 1], b[|b| - 1];
      assert a + b == (a + b') + [c];
      assert b == b' + [c];
      FlatMapSnoc(f, a + b', c);
      FlatMapAppend(f, a, b');
      FlatMapSnoc(f, b', c);
    }
  }

  /** A skipped channel leaves the sub-readings of all other channels untouched. */
  lemma SkippedChannelIsolated(before: seq<string>, skipped: string, after: seq<string>)
    requires ChannelReadings(skipped) == []
    ensures ChannelsReadings(before + [skipped] + after) == ChannelsReadings(before) + ChannelsReadings(after)
  {
    FlatMapAppend(ChannelReadings, before + [skipped], after);
    FlatMapSnoc(ChannelReadings, before, skipped);
  }

  /** Every sub-reading of a channel is read by one of its model's descriptors. */
  lemma {:induction false} DescriptorReadingsOrigin(ch: Channel, ds: seq<Descriptor>, i: nat)
    requires i < |DescriptorReadings(ch, ds)|
    ensures exists k :: 0 <= k < |ds| && ReadValue(ch, ds[k]) == Some(DescriptorReadings(ch, ds)[i])
    decreases |ds|
  {
    var init := ds[..|ds| - 1];
    if i < |DescriptorReadings(ch, init)| {
      DescriptorReadingsOrigin(ch, init, i);
      var k :| 0 <= k < |init| && ReadValue(ch, init[k]) == Some(DescriptorReadings(ch, init)[i]);
      assert ds[k] == init[k];
    } else {
      assert ReadValue(ch, ds[|ds| - 1]) == Some(DescriptorReadings(ch, ds)[i]);
    }
  }

  /** Reading two lists of descriptors one after the other is reading their concatenation. */
  lemma {:induction false} DescriptorReadingsAppend(ch: Channel, xs: seq<Descriptor>, ys: seq<Descriptor>)
    ensures DescriptorReadings(ch, xs + ys) == DescriptorReadings(ch, xs) + DescriptorReadings(ch, ys)
    decreases |ys|
  {
    if ys == [] {
      assert xs + ys == xs;
    } else {
      var n := |ys| - 1;
      assert (xs + ys)[..|xs + ys| - 1] == xs + ys[..n];
      DescriptorReadingsAppend(ch, xs, ys[..n]);
    }
  }

  /** Each descriptor contributes exactly its own value, wherever it stands:
      a missing field or `nan` skips that descriptor alone, and the descriptors
      before and after it are read as if it were absent. In particular, every
      value a descriptor reads is among the channel's sub-readings. */
  lemma DescriptorReadingsAt(ch: Channel, ds: seq<Descriptor>, k: nat)
    requires k < |ds|
    ensures DescriptorReadings(ch, ds)
         == DescriptorReadings(ch, ds[..k]) + OptionToSeq(ReadValue(ch, ds[k])) + DescriptorReadings(ch, ds[k + 1..])
    ensures ReadValue(ch, ds[k]).Some? ==> ReadValue(ch, ds[k]).value in DescriptorReadings(ch, ds)
  {
    assert ds == ds[..k] + [ds[k]] + ds[k + 1..];
    assert [ds[k]][..0] == [];
    DescriptorReadingsAppend(ch, ds[..k] + [ds[k]], ds[k + 1..]);
    DescriptorReadingsAppend(ch, ds[..k], [ds[k]]);
  }

  predicate SensorIdsDistinct(rs: seq<SubReading>)
  {
    forall i, j :: 0 <= i < j < |rs| ==> rs[i].sensorId != rs[j].sensorId
  }

  /** Every sensor id in `rs` is the physical id followed by one of the first `n` suffixes. */
  predicate SuffixedIds(rs: seq<SubReading>, sensorId: string, ts: seq<Descriptor>, n: nat)
    requires n <= |ts|
  {
    forall i :: 0 <= i < |rs| ==> exists k :: 0 <= k < n && rs[i].sensorId == sensorId + ts[k].idSuffix
  }

  lemma {:induction false} DescriptorPrefixIdsDistinct(ch: Channel, n: nat)
    requires WellFormed(ch.model) && n <= |ch.model.types|
    ensures SuffixedIds(DescriptorReadings(ch, ch.model.types[..n]), ch.sensorId, ch.model.types, n)
    ensures SensorIdsDistinct(DescriptorReadings(ch, ch.model.types[..n]))
  {
    var ts := ch.model.types;
    if n == 0 {
      assert ts[..0] == [];
    } else {
      DescriptorPrefixIdsDistinct(ch, n - 1);
      assert ts[..n][..n - 1] == ts[..n - 1];
      var before := DescriptorReadings(ch, ts[..n - 1]);
      var added := OptionToSeq(ReadValue(ch, ts[n - 1]));
      var rs := DescriptorReadings(ch, ts[..n]);
      assert rs == before + added;
      forall i | 0 <= i < |rs|
        ensures exists k :: 0 <= k < n && rs[i].sensorId == ch.sensorId + ts[k].idSuffix
      {
        if i >= |before| {
          assert rs[i].sensorId == ch.sensorId + ts[n - 1].idSuffix;
        } else {
          assert rs[i] == before[i];
          var k :| 0 <= k < n - 1 && before[i].sensorId == ch.sensorId + ts[k].idSuffix;
          assert 0 <= k < n && rs[i].sensorId == ch.sensorId + ts[k].idSuffix;
        }
      }
      forall i, j | 0 <= i < j < |rs|
        ensures rs[i].sensorId != rs[j].sensorId
      {
        assert rs[i] == before[i];
        if j >= |before| {
          assert rs[j].sensorId == ch.sensorId + ts[n - 1].idSuffix;
          var k :| 0 <= k < n - 1 && before[i].sensorId == ch.sensorId + ts[k].idSuffix;
          DistinctSuffixesDistinctIds(ch.model, ch.sensorId, k, n - 1);
        } else {
          assert rs[j] == before[j];
        }
      }
    }
  }

  /** The logical sensors of one channel are pairwise distinct: a multi-value
      sensor yields one logical sensor per value. */
  lemma ChannelSensorIdsDistinct(raw: string)
    ensures SensorIdsDistinct(ChannelReadings(raw))
  {
    match ParseChannel(raw)
    case None =>
    case Some(ch) =>
      DescriptorPrefixIdsDistinct(ch, |ch.model.types|);
      assert ch.model.types[..|ch.model.types|] == ch.model.types;
      assert ChannelReadings(raw) == DescriptorReadings(ch, ch.model.types);
  }

  /** A two-value SHT30 channel (enum 100) yields a temperature reading for
      `<id>_T` and then a humidity reading for `<id>_H`; a `nan` value, in any
      letter case, drops only its own reading. */
  lemma Sht30Channel(sensorId: string, temperature: string, humidity: string)
    requires ValueSeparator !in sensorId && ValueSeparator !in temperature && ValueSeparator !in humidity
    ensures var rs := ChannelReadings(EncodeChannel(sensorId, 100, [temperature, humidity]));
      var t := SubReading(sensorId + "_T", Temperature, ParseFloat(temperature));
      var h := SubReading(sensorId + "_H", Humidity, ParseFloat(humidity));
      rs == (if IsNanLiteral(temperature) then [] else [t]) + (if IsNanLiteral(humidity) then [] else [h])
  {
    var values := [temperature, humidity];
    var dt, dh := Descriptor(Temperature, "_T", 0), Descriptor(Humidity, "_H", 1);
    var ch := Channel(sensorId, SensorModel("SHT30", [dt, dh]), [sensorId, Show(100)] + values);
    Sht30Resolves(sensorId, values);
    TwoDescriptorReadings(ch, dt, dh);
    assert ch.fields[2] == temperature && ch.fields[3] == humidity;
  }

  lemma Sht30Resolves(sensorId: string, values: seq<string>)
    requires ValueSeparator !in sensorId && |values| >= 1
    requires forall i :: 0 <= i < |values| ==> ValueSeparator !in values[i]
    ensures var model := SensorModel("SHT30", [Descriptor(Temperature, "_T", 0), Descriptor(Humidity, "_H", 1)]);
      ChannelReadings(EncodeChannel(sensorId, 100, values))
        == DescriptorReadings(Channel(sensorId, model, [sensorId, Show(100)] + values), model.types)
  {
    var model := SensorModel("SHT30", [Descriptor(Temperature, "_T", 0), Descriptor(Humidity, "_H", 1)]);
    assert Lookup(100) == Some(model);
    ParseEncodedChannel(sensorId, 100, values);
    var ch := Channel(sensorId, model, [sensorId, Show(100)] + values);
    assert ParseChannel(EncodeChannel(sensorId, 100, values)) == Some(ch);
  }

  lemma TwoDescriptorReadings(ch: Channel, d0: Descriptor, d1: Descriptor)
    ensures DescriptorReadings(ch, [d0, d1]) == OptionToSeq(ReadValue(ch, d0)) + OptionToSeq(ReadValue(ch, d1))
  {
    assert [d0, d1][..1] == [d0];
    assert [d0][..0] == [];
    assert DescriptorReadings(ch, [d0]) == OptionToSeq(ReadValue(ch, d0));
  }
}
