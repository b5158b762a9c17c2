# ChirpStack → Supabase ingestion, modelled in Dafny

This project models the core of the ChirpStack ingestion service in
`services/supabase/chirpstack-supabase-service.js` and proves properties about it. The service works as follows:

- It receives one LoRaWAN uplink per MQTT message. The payload is a `|`-separated frame: `stationId|deviceId|voltage|timestampSeconds|channel|...`.
- Each channel is a `,`-separated list: `sensorId,modelEnum,value0,value1,...`.
- It resolves every channel through the static `SENSOR_CONFIG` registry.
- Before writing readings, it makes sure the station, device, sensor type and sensor exist in the database. It does this with idempotent upserts, and four in-memory id caches save repeated calls.
- Reading rows and device-voltage rows go into two queues. The queues are flushed with one bulk insert each, either when either queue reaches 100 rows or when a flush is called explicitly.

The project is split into six modules:

- `Wrappers` (`wrappers.dfy`): `Option` and `Result`.
- `JsText` (`js_text.dfy`): the JavaScript primitives the service relies on.
  - `String.prototype.split` and its inverse `join`.
  - `parseInt` (`ParseInt`): leading white space, sign, and the `0x` prefix.
  - `parseFloat`: whether the result is `NaN` is modelled exactly; the number itself is kept abstract.
  - The case-insensitive `"nan"` test.
- `Registry` (`registry.dfy`): `SENSOR_CONFIG` as a map from model enum to model, with the proof that every entry is well formed.
- `Decoder` (`decoder.dfy`): the pure frame and channel decoder.
  - `DecodeFrame` splits a frame, `ParseChannel` resolves a channel, and `ReadValue` reads one descriptor's value from a channel (nothing for a missing field or `nan`).
  - It comes with encoders as its inverse, for the round-trip properties.
- `Store` (`store.dfy`): the database, seen from the service.
  - It records every request and the store's answer in a ghost log. The answer is chosen nondeterministically, so the store may fail any call.
  - It keeps running summaries of that log: the ids confirmed to exist, the rows handed to each insert, and whether every request was sent after the ids it refers to existed.
- `Ingestion` (`ingestion.dfy`): the service as a class, beside a functional reference model of what it does.
  - Its state is the four caches and the two queues.
  - Its methods are the `ensure*Exists` functions, `handleVoltageReading`, `handleSensorReading`, `processBatches` and `processMQTTMessage`.
  - The store's answers are ghost outputs of the methods. Given the state before and those answers, the reference functions compute the exact calls made and the state after. For example, `FrameCalls` and `AfterFrame` do this for a frame, and `SubReadingCalls` and `AfterSubReading` for one sub-reading. An answer to a request that is never made plays no part.
  - Every handler's contract says that the store's log grows by exactly the reference calls, and that the caches and queues become the reference state. Lemmas about the reference functions state what those calls and states mean.

The invariants:

- **`Consistent`** is kept by every method:
  - the caches equal the preloaded ids plus the ids the store confirmed;
  - every row ever queued is either still queued or was handed to exactly one insert, in queueing order.
- **`Valid`** is `Consistent` plus both queues below 100 rows. Every method except the two flush halves keeps it.
- **`Integrity`** (referential integrity): every request reached the store only after the ids it refers to were known to exist, and every queued row refers to a cached id. It is kept:
  - unconditionally by `ProcessBatches`, `FlushReadings`, `FlushVoltageReadings`, `EnsureStation`, `EnsureSensorType`, `EnsureDevice`, `ProcessFrame` and `ProcessMessage`;
  - by the other methods only when their caller has already made sure of what they refer to:
    - the station, for the sensor-reading methods;
    - the station and the device, for `HandleMeasurements`;
    - the type and the station, for `EnsureSensor`;
    - the row's device or sensor, for the two queue methods.

## Model

| member | source | states |
|---|---|---|
| Registry.Lookup | services/supabase/chirpstack-supabase-service.js:36-250 | an enum resolves exactly when it is one of the fifteen registered enums (0–8, 100–104, 110), and the model it resolves to is well formed |
| Registry.SensorConfigWellFormed | services/supabase/chirpstack-supabase-service.js:36-250 | every registry entry has at least one reading, descriptor k reads value k, its type codes come from the sensor-type vocabulary, and its suffixes are pairwise distinct and non-empty when there are several readings |
| Registry.SingleValueWellFormed | services/supabase/chirpstack-supabase-service.js:38-127 | a single-value entry (empty suffix, index 0) is well formed |
| Registry.Sht30WellFormed | services/supabase/chirpstack-supabase-service.js:130-144 | the SHT30 entry (temperature `_T`, humidity `_H`) is well formed |
| Registry.Bme680WellFormed | services/supabase/chirpstack-supabase-service.js:145-169 | the BME680 entry (`_T`, `_H`, `_P`, `_G`) is well formed |
| Registry.Co2ModelWellFormed | services/supabase/chirpstack-supabase-service.js:170-189 | the CO2 entry (`_CO2`, `_T`, `_H`) is well formed |
| Registry.Bme280WellFormed | services/supabase/chirpstack-supabase-service.js:190-209 | the BME280 entry (`_T`, `_H`, `_P`) is well formed |
| Registry.Sht40WellFormed | services/supabase/chirpstack-supabase-service.js:210-224 | the SHT40 entry (`_T`, `_H`) is well formed |
| Registry.Env4WellFormed | services/supabase/chirpstack-supabase-service.js:225-249 | the ENV4 entry (`_H`, `_T`, `_P`, `_L`) is well formed |
| Registry.DistinctSuffixesDistinctIds | services/supabase/chirpstack-supabase-service.js:577-579 | two different readings of one registered model never derive the same logical sensor id |
| JsText.Split | services/supabase/chirpstack-supabase-service.js:514 | `split` always yields at least one piece |
| JsText.JoinSplit | services/supabase/chirpstack-supabase-service.js:514 | joining the pieces of a split with the same separator gives back the original text |
| JsText.SplitJoin | services/supabase/chirpstack-supabase-service.js:544 | splitting a join of separator-free pieces gives back exactly those pieces |
| JsText.SplitWithoutSeparator | services/supabase/chirpstack-supabase-service.js:514 | a text without the separator splits into itself alone |
| JsText.SplitAtSeparator | services/supabase/chirpstack-supabase-service.js:514 | a separator ends the first piece; the rest is split on its own |
| JsText.NanLiteralLowered | services/supabase/chirpstack-supabase-service.js:575 | the absent-value test holds exactly when the lower-cased text is `nan` |
| JsText.TrimStartSpec | services/supabase/chirpstack-supabase-service.js:522 | the white-space trim keeps a suffix, drops only white space, and stops at the first non-white-space character |
| JsText.ParseIntShow | services/supabase/chirpstack-supabase-service.js:522 | `parseInt` reads back the decimal rendering of any integer, and ignores whatever follows it as long as that does not continue the number (another digit, or an `x`/`X` after a lone `0`) |
| JsText.ParseIntShowExact | services/supabase/chirpstack-supabase-service.js:522 | `parseInt` reads back the decimal rendering of any integer |
| JsText.ParseIntHex | services/supabase/chirpstack-supabase-service.js:551 | a `0x`/`0X` prefix makes `parseInt` read the longest run of hexadecimal digits after it |
| JsText.ParseIntWithoutDigits | services/supabase/chirpstack-supabase-service.js:522-523 | a text that starts with neither white space, a sign nor a digit does not parse (`NaN`) |
| JsText.ParseIntEmptyHex | services/supabase/chirpstack-supabase-service.js:551-553 | a hexadecimal prefix with no hexadecimal digit after it does not parse |
| JsText.ParseFloat | services/supabase/chirpstack-supabase-service.js:537 | a number that `parseFloat` produces is tagged with the text it was read from |
| JsText.ParseFloatLeadingDigit | services/supabase/chirpstack-supabase-service.js:537 | a text starting with a digit is a number |
| JsText.ParseFloatSignedFraction | services/supabase/chirpstack-supabase-service.js:537 | a sign followed by `.` and a digit is a number |
| JsText.ParseFloatSkipsWhitespace | services/supabase/chirpstack-supabase-service.js:537-538 | leading white space does not change whether the result is `NaN` |
| JsText.ParseFloatNaN | services/supabase/chirpstack-supabase-service.js:537-538 | a text starting with a visible character that can begin no number is `NaN`, so the voltage is dropped |
| Decoder.DecodeFrame | services/supabase/chirpstack-supabase-service.js:514-527 | a frame with fewer than four fields is rejected as `TooFewFields`; an accepted frame's millisecond timestamp lies in the range `Date` can format |
| Decoder.DecodeEncodeFrame | services/supabase/chirpstack-supabase-service.js:514-537 | decoding an encoded frame gives back its station, device, voltage, timestamp × 1000 and channels (round trip) |
| Decoder.DecodeEncodeFrameOutOfRange | services/supabase/chirpstack-supabase-service.js:522-527 | an encoded frame whose timestamp × 1000 is beyond what `Date` can format is rejected as `TimestampOutOfRange` |
| Decoder.DecodeFrameTimestampWithoutDigits | services/supabase/chirpstack-supabase-service.js:522-526 | a frame whose fourth field starts with a character that can begin no integer is rejected as `InvalidTimestamp`, whatever its other fields |
| Decoder.ParseChannel | services/supabase/chirpstack-supabase-service.js:544-565 | a channel that resolves has at least three fields and a well-formed model |
| Decoder.ParseEncodedChannel | services/supabase/chirpstack-supabase-service.js:544-565 | an encoded channel with a registered enum resolves back to its id, model and fields (round trip) |
| Decoder.ParseEncodedChannelUnregistered | services/supabase/chirpstack-supabase-service.js:557-560 | an encoded channel whose model enum is not registered resolves to nothing, so it is skipped |
| Decoder.SkippedChannelIsolated | services/supabase/chirpstack-supabase-service.js:543-560 | a skipped channel leaves the sub-readings of every other channel of the frame unchanged |
| Decoder.DerivedId | services/supabase/chirpstack-supabase-service.js:577-579 | the logical sensor id is the physical id followed by the suffix |
| Decoder.DescriptorReadingsOrigin | services/supabase/chirpstack-supabase-service.js:566-595 | every sub-reading of a channel is the value one of its model's descriptors reads |
| Decoder.DescriptorReadingsAt | services/supabase/chirpstack-supabase-service.js:566-584 | for every descriptor position, a channel's sub-readings are those of the descriptors before it, then its own value (none for a missing field or `nan`), then those of the descriptors after it, so a skipped value skips only itself; every value a descriptor reads is among the sub-readings |
| Decoder.DescriptorPrefixIdsDistinct | services/supabase/chirpstack-supabase-service.js:566-595 | the sub-readings read by a prefix of a model's descriptors carry the physical id plus one of those suffixes, and pairwise distinct ids |
| Decoder.ChannelSensorIdsDistinct | services/supabase/chirpstack-supabase-service.js:566-595 | the logical sensors of one channel are pairwise distinct |
| Decoder.Sht30Channel | services/supabase/chirpstack-supabase-service.js:130-144 | a SHT30 channel (enum 100) yields a `TEMP` reading for `<id>_T` and then a `HUM` reading for `<id>_H`; a `nan` value, in either position and any letter case, drops only its own reading |
| Store.Store.constructor | services/supabase/chirpstack-supabase-service.js:261-264 | a fresh store has an empty log, nothing inserted, and its preloaded ids as the existing ids |
| Store.Store.Execute | services/supabase/chirpstack-supabase-service.js:364-374 | one request is appended to the log with the store's answer; only a successful upsert adds its id to the existing ids; an insert hands over its rows whatever the answer |
| Store.ConfirmedStation | services/supabase/chirpstack-supabase-service.js:364-377 | a station id is confirmed exactly when some upsert of that station succeeded |
| Store.ConfirmedSensor | services/supabase/chirpstack-supabase-service.js:441-457 | a sensor id is confirmed exactly when some upsert of that sensor succeeded |
| Store.ConfirmedMonotone | services/supabase/chirpstack-supabase-service.js:261-264 | confirmed ids are never forgotten: a longer log confirms at least as much |
| Store.PrerequisitesAt | services/supabase/chirpstack-supabase-service.js:407-459 | a log that keeps prerequisites first keeps them at each position, against what was confirmed before it |
| Ingestion.Service.constructor | services/supabase/chirpstack-supabase-service.js:261-268 | the service starts with the preloaded caches, empty queues, and both invariants |
| Ingestion.Service.ProcessBatches | services/supabase/chirpstack-supabase-service.js:318-354 | both queues are emptied; the store receives one insert per non-empty queue, readings first, holding exactly that queue's rows in order; the rows leave the queues whatever the answer |
| Ingestion.Service.FlushReadings | services/supabase/chirpstack-supabase-service.js:320-335 | a non-empty readings queue is emptied into one insert of exactly its rows; an empty one makes no call |
| Ingestion.Service.FlushVoltageReadings | services/supabase/chirpstack-supabase-service.js:336-351 | the same for the voltage queue |
| Ingestion.Service.EnsureStation | services/supabase/chirpstack-supabase-service.js:358-378 | a cached station makes no call and succeeds; otherwise one station upsert is made, and the id is cached only if it succeeded |
| Ingestion.Service.EnsureSensorType | services/supabase/chirpstack-supabase-service.js:380-405 | an empty type id fails with no call; otherwise as for a station |
| Ingestion.Service.EnsureDevice | services/supabase/chirpstack-supabase-service.js:407-433 | the station is made sure of first, and a cached station always succeeds; a failed station fails the device with no device upsert; once the station exists, a cached device succeeds with no call, and otherwise one device upsert is made whose success is cached |
| Ingestion.Service.EnsureSensor | services/supabase/chirpstack-supabase-service.js:435-459 | as for a station; integrity is kept when the sensor's type and station were known before |
| Ingestion.Service.HandleVoltageReading | services/supabase/chirpstack-supabase-service.js:462-472 | the log grows by exactly `QueueVoltageCalls` and the state becomes `QueueVoltage` of the old one: the row is queued, or, when the voltage queue reaches 100 rows, both queues are inserted (readings first) and emptied; the row is recorded as queued |
| Ingestion.Service.PushReading | services/supabase/chirpstack-supabase-service.js:498-504 | the same for a reading row: `QueueReadingCalls` and `QueueReading`, with the flush at 100 rows in the readings queue |
| Ingestion.Service.EnsureReadingEntities | services/supabase/chirpstack-supabase-service.js:479-496 | the upserts made are exactly `SubReadingUpserts` of the old caches and the answers; `ready` holds exactly when `Accepts` does; the caches become `Reconciled` |
| Ingestion.Service.HandleSensorReading | services/supabase/chirpstack-supabase-service.js:475-505 | the log grows by exactly `SubReadingCalls`: the type and sensor upserts, then the flush that queueing the row triggers at 100 rows; the caches and both queues become `AfterSubReading`; the row is recorded as queued exactly when `Accepts` holds |
| Ingestion.Service.HandleSubReadings | services/supabase/chirpstack-supabase-service.js:566-595 | the log, caches and queues are those of `SubReadingsCalls` and `AfterSubReadings`: every sub-reading handled in order as `HandleSensorReading` does, each from the state the previous one left; the rows recorded are those of the accepted sub-readings, in order |
| Ingestion.Service.HandleChannel | services/supabase/chirpstack-supabase-service.js:544-595 | the same over the channel's sub-readings; a skipped channel has none, so it makes no call and changes nothing |
| Ingestion.Service.HandleChannels | services/supabase/chirpstack-supabase-service.js:543-596 | the same over the sub-readings of all channels, in frame order, all stamped with the frame's timestamp |
| Ingestion.Service.ProcessMessage | services/supabase/chirpstack-supabase-service.js:508-606 | a frame with fewer than four fields or a bad timestamp makes no call and leaves the caches, the queues and the recorded rows unchanged; any other frame is handled as `ProcessFrame` says |
| Ingestion.Service.ProcessFrame | services/supabase/chirpstack-supabase-service.js:529-596 | the log grows by exactly `FrameCalls`: the station and device calls first, then the measurements' calls only when the device exists; the state becomes `AfterFrame`; the voltage row is recorded only when the device exists, and the reading rows are those `FrameAcceptances` accepts |
| Ingestion.Service.HandleMeasurements | services/supabase/chirpstack-supabase-service.js:536-596 | the voltage row's calls, including the flush it may trigger, precede every channel call, and the sub-readings start from the state after the voltage row; the voltage row is recorded exactly when the voltage is a number |
| Ingestion.DeviceCallsOrdered | services/supabase/chirpstack-supabase-service.js:407-433 | the device calls never upsert a device before its station exists; a failed station upsert is the only call; a cached station and device make no call |
| Ingestion.ReadingCallsOrdered | services/supabase/chirpstack-supabase-service.js:475-496 | the reading calls never upsert a sensor before its type (and station) exist; a failed type upsert is the only call; a cached sensor and type make no call |
| Ingestion.AcceptedRowsOrigin | services/supabase/chirpstack-supabase-service.js:527-594 | every queued row of a frame carries the frame's timestamp and is the row of one accepted sub-reading; there are never more rows than sub-readings |
| Ingestion.AcceptedRowsAll | services/supabase/chirpstack-supabase-service.js:588-594 | when every sub-reading is accepted, the queued rows are exactly the sub-readings' rows, one for one, in order |
| Ingestion.FrameStationFirst | services/supabase/chirpstack-supabase-service.js:529-534 | a failed station upsert is the frame's only call and changes nothing; a cached station with an uncached device starts with the device upsert, which is the only call when it fails; a cached station and device make no upsert and go straight to the measurements |
| Ingestion.SubReadingCases | services/supabase/chirpstack-supabase-service.js:475-505 | an empty sensor or type id makes no call and changes nothing; a cached sensor and type make no upsert and always queue the row; an uncached type and sensor are upserted type first, the sensor only after the type succeeded, and the row is queued exactly when both succeed |
| Ingestion.AcceptancesProcessed | services/supabase/chirpstack-supabase-service.js:566-595 | handling sub-readings never forgets a cached id; an accepted sub-reading has its sensor and type cached afterwards; one whose sensor and type were cached beforehand is always accepted |
| Ingestion.FrameProcessed | services/supabase/chirpstack-supabase-service.js:529-596 | when the device does not exist no sub-reading of the frame is accepted; otherwise each is handled as `AcceptancesProcessed` says, against the caches before the frame |
| Ingestion.SubReadingsAppend | services/supabase/chirpstack-supabase-service.js:543-596 | handling two lists of sub-readings one after the other makes the same calls, reaches the same state and accepts the same sub-readings as handling their concatenation, so handling a frame channel by channel is handling its flattened sub-readings |

## Left out

- MQTT transport, JSON parsing and base64 decoding are not modelled. `ProcessMessage` takes the decoded frame text directly, as the code has it after line 512.
- The Supabase client is not modelled. Each call is reduced to a request and a success-or-error answer, and the store chooses the answer freely.
- Environment variables, process exit, signal handlers, the startup sequence and the 5-second `setInterval` flush are left out. The interval flush is what calling `ProcessBatches` directly stands for.
- `preloadExistingData` is not part of this model. The service's constructor takes the four preloaded id sets as arbitrary inputs.
- Logging is left out. It has no effect on state.
- ISO-8601 formatting is left out. Timestamps are kept as integer epoch milliseconds. The `RangeError` that `toISOString` throws beyond ±8.64e15 ms is modelled: it is caught at the end of `processMQTTMessage` before any call, so the model rejects such a frame as `TimestampOutOfRange`.
- JsText.ParseFloat: the numeric value is not computed. It is kept as the source text it came from. Only whether the result is `NaN` is modelled.
- Ingestion.Service.HandleSensorReading: the `value === null || value === undefined` test is not modelled. In this model a value is never null, because `nan` fields are filtered out before the call, as the code does at lines 575 and 581.
- Ingestion.Service.ProcessBatches: the code calls it without `await` when a queue reaches 100 rows, so its inserts may interleave with later upserts. The model treats each flush as atomic and runs it at the point of the call.
- Concurrency between messages is not modelled: the MQTT handler may run several `processMQTTMessage` calls at once. Messages are processed one after another.
- Exceptions thrown by the Supabase client, as opposed to returned errors, are not modelled. In the code such an exception aborts the message through the `catch` at line 599, or the flush through the `catch` at lines 351–353.
- A value that is neither `nan` nor numeric still produces a reading whose value is `NaN`: the code filters only null (lines 575, 581).
- An empty derived sensor id produces no call. This follows `if (!sensorId)` at line 479.
- Store.Store.Execute: the rows handed to inserts are tracked by running summaries that `Execute` updates. They are not recomputed from the log by a function.
