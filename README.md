# qdomyos-zwift device adapters and workout client, modelled in Dafny

This project models four parts of qdomyos-zwift, the bridge that connects fitness machines to training apps:

- **The Concept2 SkiErg adapter** (`src/concept2skierg.cpp`), a Bluetooth LE adapter.
  - It decodes the three PM5 rowing-status characteristics: distance, speed, stroke rate, heart rate and calories.
  - It derives the crank-revolution counters it reports to training apps.
  - It subscribes to every notifying or indicating characteristic of the discovered services, and remembers the FTMS control point (0x2AD9).
  - On each tick it turns pending resistance, start and stop requests into "Set Indoor Bike Simulation Parameters" frames and signals.
- **The Sports Plus bike adapter** (`src/sportsplusbike.cpp`), a Bluetooth LE adapter.
  - It decodes 12-octet speed (0x20) and power (0x30) frames.
  - It integrates distance between speed frames.
  - It writes a one-shot init frame, then on each tick a no-op frame that carries the clamped resistance and a checksum.
- **The Toorx treadmill adapter** (`src/toorxtreadmill.cpp`), a serial RFCOMM adapter.
  - It accepts only the first serial-port service of a "TRX ROUTE KEY" device.
  - It decodes 17-octet status frames, and answers 13-octet frames with a re-initialisation.
  - On each tick it polls, and after a start request it walks a five-phase start sequence.
- **The workout-service client** (`src/peloton.cpp`).
  - A sticky "credentials wrong" flag stops all further logins.
  - The workout-list poll decides when the latest workout has started and requests its summary.
  - `performance_onfinish` rebuilds the training rows from one of three sources:
    - per-sample resistance and cadence targets, compacted into rows of equal targets;
    - treadmill speed and incline targets;
    - segments with an intensity in METs.

How the C++ is modelled:

- **Octets.** Frames are sequences of octets (`bv8`). Every C conversion the adapters apply is written out with bit-vectors:
  - a signed `char` promoted to `uint16_t` or `uint32_t`;
  - masking with `(uint8_t)`;
  - truncation to `uint8_t` or `uint16_t`.

  Lemmas then state when the bit pattern equals the intended little- or big-endian value. The 24-bit reads of the SkiErg and the unmasked big-endian reads of the Toorx treadmill sign-extend a middle or low octet of 0x80 or more. The model keeps that behaviour. `Concept2SkiErg.Read24Exact` and `ToorxTreadmill.ReadBE16Exact` state exactly which frames decode to their plain value.
- **Adapters.** Each adapter is a `class` whose fields are the adapter's members. Each method's `modifies` clause names the fields the C++ method assigns, and each method is proved against a pure function of the old state. The lemmas about that function state what the adapter promises. Written frames are appended to a `writes` log, and emitted signals are counters.
- **Settings, clocks and devices.** QSettings values, wall-clock intervals and the connected device's conversions are parameters.

## Model

| member | source | states |
|---|---|---|
| CTypes.CharValue | src/toorxtreadmill.cpp:232 | an octet read as a signed `char` lies in -128..127, is congruent to the octet modulo 256, and is non-negative exactly when the octet is below 0x80 |
| CTypes.CharToU16Value | src/sportsplusbike.cpp:189-190 | `(uint16_t)` of a `char` is the octet below 0x80 and the octet plus 0xFF00 from 0x80 up |
| CTypes.ByteOfValue | src/sportsplusbike.cpp:102-103 | storing an integer in a `uint8_t` keeps its value modulo 256 |
| CTypes.SplitLE16 | src/concept2skierg.cpp:59-60 | storing `x & 0xFF` and `x >> 8` in two octets keeps `x` modulo 0x10000, little-endian |
| CTypes.Compose32Value | src/concept2skierg.cpp:145-146 | OR-ing octets shifted by 0, 8, 16 and 24 bits gives their little-endian value |
| Concept2SkiErg.Read24Octets | src/concept2skierg.cpp:145-146 | the 24-bit read replaces octet 2 by 0xFF when octet 1 has its top bit set, and fills the top octet with 0xFF when octet 2 has |
| Concept2SkiErg.Read24Exact | src/concept2skierg.cpp:145-146 | the 24-bit read equals the little-endian value if and only if its middle and high octets are below 0x80 |
| Concept2SkiErg.Read16Exact | src/concept2skierg.cpp:169 | the 16-bit reads always equal the little-endian value, because the `uint16_t` store drops the sign extension |
| Concept2SkiErg.OnNotification | src/concept2skierg.cpp:128-218 | one notification: the metrics the frame's characteristic decodes, then one crank step; specified by `Decode`, `GeneralStatusDistance`, `AdditionalStatusFields`, `AdditionalStatus2Calories` and the crank lemmas |
| Concept2SkiErg.Decode | src/concept2skierg.cpp:140-212 | a notification never touches the crank counters, and one with an unknown UUID or a short value changes nothing |
| Concept2SkiErg.GeneralStatusDistance | src/concept2skierg.cpp:140-148 | a general-status frame with sign-free octets 4 and 5 sets the distance to octets 3..5 over 10000, and nothing else |
| Concept2SkiErg.AdditionalStatusFields | src/concept2skierg.cpp:164-192 | an additional-status frame sets the speed to octets 3..4 times 0.0036 and the cadence to octet 5; it adds cadence times elapsed ms over 600000 strokes; it takes the heart rate from octet 6 unless that is 0xFF |
| Concept2SkiErg.AdditionalStatus2Calories | src/concept2skierg.cpp:202-209 | an additional-status-2 frame sets the calories to octets 6..7, and nothing else |
| Concept2SkiErg.CrankStep | src/concept2skierg.cpp:214-218 | the crank counters after one notification; specified by `CrankTimeIncrement`, `CrankRevsMonotonic`, `CrankFrozenWhileIdle` and `CrankCountsEveryNotification` |
| Concept2SkiErg.CrankTimeIncrement | src/concept2skierg.cpp:217 | the crank-time step is the largest tick count whose product with the cadence is at most 61440, and it fits in 16 bits |
| Concept2SkiErg.CrankRevsMonotonic | src/concept2skierg.cpp:214-218 | over any notifications the revolution count never falls and grows by at most one per notification, and the event time stays below 0x10000 |
| Concept2SkiErg.CrankFrozenWhileIdle | src/concept2skierg.cpp:214-218 | at cadence 0, notifications that set no stroke rate leave both crank counters and the cadence unchanged |
| Concept2SkiErg.CrankCountsEveryNotification | src/concept2skierg.cpp:214-218 | at a positive cadence, notifications that do not set it to 0 count exactly one revolution each |
| Concept2SkiErg.StoppedStrokeReportsNoPower | src/concept2skierg.cpp:173-174 | through `watts()` (src/concept2skierg.cpp:484-490), an additional-status frame with octet 5 equal to 0 sets the stroke rate to 0, so the reported power is 0 whatever power is stored |
| Concept2SkiErg.RowingReportsPower | src/concept2skierg.cpp:173-174 | through `watts()` (src/concept2skierg.cpp:484-490), an additional-status frame with a non-zero octet 5 sets a positive stroke rate, so the stored power is the reported one |
| Concept2SkiErg.IdleReportsNoPower | src/concept2skierg.cpp:173-174 | through `watts()` (src/concept2skierg.cpp:484-490), after a frame that stops the rowing, the reported power stays 0 until a frame sets a non-zero stroke rate |
| Concept2SkiErg.SimulationFrame | src/concept2skierg.cpp:55-60 | the control-point frame for a resistance request; specified by `SimulationFrameGrade` and `GradeBits` |
| Concept2SkiErg.SimulationFrameGrade | src/concept2skierg.cpp:55-60 | the 7-octet frame carries opcode 0x11, zero wind and rolling parameters, and a signed 16-bit grade of exactly `r * 100` for every `int8_t` resistance |
| Concept2SkiErg.GradeBits | src/concept2skierg.cpp:59-60 | `(uint16_t)r * 100` reduced to 16 bits is the two's-complement encoding of `r * 100` |
| Concept2SkiErg.ClampResistance | src/concept2skierg.cpp:93-98 | a non-negative request ends in 1..100 and an in-range one is kept; -1 and other negative values pass through unchanged |
| Concept2SkiErg.Tick | src/concept2skierg.cpp:65-122 | one `update` tick: the writes, signals and requests it leaves; specified by `TickWhenUnconnected`, `TickConsumesInitRequest`, `TickReadyConsumesRequests`, `TickConsumesOnce` and `TickWritesClampedGrade` |
| Concept2SkiErg.TickWhenUnconnected | src/concept2skierg.cpp:66-70 | an unconnected tick only signals `disconnected` |
| Concept2SkiErg.TickConsumesInitRequest | src/concept2skierg.cpp:72-74 | a pending init request is cleared and nothing else happens |
| Concept2SkiErg.TickReadyConsumesRequests | src/concept2skierg.cpp:92-120 | a ready tick clears all three requests and writes a simulation frame only for a resistance request whose clamped value differs from the current one; it signals `bikeStarted` exactly when a start was pending |
| Concept2SkiErg.TickConsumesOnce | src/concept2skierg.cpp:92-120 | requests are one-shot: a second ready tick changes nothing |
| Concept2SkiErg.TickWritesClampedGrade | src/concept2skierg.cpp:92-104 | a non-negative request whose clamped value differs from the current resistance writes exactly one 7-octet frame, with a grade of 100..10000 |
| Concept2SkiErg.WritesResistanceExact | src/concept2skierg.cpp:92-104 | a tick writes to the control point if and only if it is a ready tick with a pending request whose clamped value differs from the current resistance (`WritesResistance`), and then exactly one frame |
| Concept2SkiErg.SubscriptionValue | src/concept2skierg.cpp:295-324 | Notify gives 0x01 0x00, Indicate without Notify gives 0x02 0x00, and neither gives no write, each in both directions |
| Concept2SkiErg.CharacteristicWritesExact | src/concept2skierg.cpp:288-324 | a descriptor write is issued for a service's characteristic if and only if its CCCD is valid and its properties call for that value |
| Concept2SkiErg.SubscriptionPlan | src/concept2skierg.cpp:272-339 | the descriptor writes of the subscription pass, service by service; specified by `SubscriptionPlanExact`, `CharacteristicWritesExact` and `SubscriptionBits` |
| Concept2SkiErg.SubscriptionPlanExact | src/concept2skierg.cpp:272-339 | the writes of the subscription pass are exactly those for the characteristics of discovered services |
| Concept2SkiErg.SubscriptionBits | src/concept2skierg.cpp:288-324 | every subscription write is a two-octet Client Characteristic Configuration value whose bit 0 is set exactly when the characteristic notifies and whose bit 1 is set exactly when it indicates without notifying |
| Concept2SkiErg.SubscriptionValueBits | src/concept2skierg.cpp:295-314 | the value chosen for one characteristic has bit 0 set exactly for Notify and bit 1 set exactly for Indicate without Notify |
| Concept2SkiErg.ControlPointSound | src/concept2skierg.cpp:330-336 | the stored control point is the previous one or a writable 0x2AD9 characteristic of a discovered service |
| Concept2SkiErg.ControlPointInSound | src/concept2skierg.cpp:330-336 | within one service, the stored control point is the previous one or a writable 0x2AD9 characteristic of that service |
| Concept2SkiErg.SkiErg.constructor | src/concept2skierg.cpp:22-31 | a new adapter has no controller and no connection attempt yet, no init, no requests, zero metrics and nothing written |
| Concept2SkiErg.SkiErg.DeviceDiscovered | src/concept2skierg.cpp:433-470 | discovery creates the controller and starts one connection attempt |
| Concept2SkiErg.SkiErg.ForceResistance | src/concept2skierg.cpp:33-63 | with a control point found, appends the simulation frame for the resistance to the control-point writes |
| Concept2SkiErg.SkiErg.Update | src/concept2skierg.cpp:65-122 | once a controller exists, and with a control point whenever the tick writes a resistance, the tick changes the adapter's state as `Tick` does |
| Concept2SkiErg.SkiErg.ApplyResistanceRequest | src/concept2skierg.cpp:92-106 | the resistance step of a ready tick, `ApplyResistance` of the tick state, with a control point whenever the clamped request differs from the current resistance |
| Concept2SkiErg.SkiErg.ApplyStartStopRequests | src/concept2skierg.cpp:107-120 | the start and stop steps of a ready tick |
| Concept2SkiErg.SkiErg.CharacteristicChanged | src/concept2skierg.cpp:128-221 | the metrics change as one notification does in `OnNotification`, and the value is kept as the last packet |
| Concept2SkiErg.SkiErg.DecodeFrame | src/concept2skierg.cpp:140-212 | the metrics change as `Decode` says |
| Concept2SkiErg.SkiErg.UpdateCrank | src/concept2skierg.cpp:214-218 | the crank counters step as `CrankStep` says |
| Concept2SkiErg.SkiErg.OnGeneralStatus | src/concept2skierg.cpp:140-148 | the general-status branch |
| Concept2SkiErg.SkiErg.OnAdditionalStatus | src/concept2skierg.cpp:164-192 | the additional-status branch |
| Concept2SkiErg.SkiErg.OnAdditionalStatus2 | src/concept2skierg.cpp:202-209 | the additional-status-2 branch |
| Concept2SkiErg.SkiErg.StateChanged | src/concept2skierg.cpp:256-376 | nothing happens until every service is discovered or invalid; then the writes are the subscription plan, the control point is the last match, and the virtual treadmill is created only on the first call with the setting on |
| Concept2SkiErg.SkiErg.SubscribeAll | src/concept2skierg.cpp:272-339 | the loop over services appends exactly the subscription plan |
| Concept2SkiErg.SkiErg.SubscribeNext | src/concept2skierg.cpp:273-338 | one service's iteration: its writes, and only when it is discovered |
| Concept2SkiErg.SkiErg.SubscribeService | src/concept2skierg.cpp:287-337 | the loop over one service's characteristics appends exactly their writes |
| Concept2SkiErg.SkiErg.SubscribeCharacteristic | src/concept2skierg.cpp:295-336 | one characteristic's write and control-point check |
| Concept2SkiErg.SkiErg.DescriptorWritten | src/concept2skierg.cpp:378-383 | sets the init request and signals `connectedAndDiscovered` |
| Concept2SkiErg.SkiErg.ControllerStateChanged | src/concept2skierg.cpp:491-499 | an unconnected state with a controller present clears the init and reconnects; any other state is only recorded |
| Concept2SkiErg.SkiErg.Watts | src/concept2skierg.cpp:484-490 | the power read by consumers is `ReportedPower` of the current metrics' stroke rate and the stored power; `StoppedStrokeReportsNoPower`, `RowingReportsPower` and `IdleReportsNoPower` tie it to the decoded frames |
| Devices.ReportedPower | src/concept2skierg.cpp:484-490 | the power consumers read (the same rule is src/sportsplusbike.cpp:357-363): 0 at zero cadence, the stored power otherwise; the adapters' `Watts` are stated through it |
| Peloton.OnStartEngine | src/peloton.cpp:61-84 | with wrong credentials nothing happens; otherwise the timer stops and one login is posted |
| Peloton.OnLoginReply | src/peloton.cpp:86-114 | a non-zero status only marks the credentials wrong; status 0 records the user id and asks for the workout list |
| Peloton.CredentialsWrongSticky | src/peloton.cpp:61-64 | once the credentials are wrong, no sequence of timer ticks and replies clears the flag or posts a login |
| Peloton.RefusedLoginStopsEngine | src/peloton.cpp:101-106 | after a refused login no later events post a login |
| Peloton.StartsWorkout | src/peloton.cpp:135-139 | whether the latest workout counts as started; specified by `PollRequestsSummary`, `PollIdOnlyStartNotRetried` and `PollStartsOnce` |
| Peloton.OnWorkoutList | src/peloton.cpp:116-169 | the poll state after a workout-list reply; specified by `PollEmptyList`, `PollRequestsSummary`, `PollRetriggersWithoutDevice`, `PollIdOnlyStartNotRetried` and `PollStartsOnce` |
| Peloton.PollEmptyList | src/peloton.cpp:126-130 | an empty list only restarts the timer for 10 s |
| Peloton.PollRequestsSummary | src/peloton.cpp:135-156 | a summary is requested if and only if the latest workout counts as started and a device is present or test mode is on; it names the recorded id (the fixed id in test mode), records the status and waits a minute |
| Peloton.PollRetriggersWithoutDevice | src/peloton.cpp:148-156 | without a device a newly in-progress workout is not recorded, so the same reply counts as a start again |
| Peloton.PollIdOnlyStartNotRetried | src/peloton.cpp:135-156 | a start due only to a new id is recorded even without a device, and the same reply does not start again |
| Peloton.PollStartsOnce | src/peloton.cpp:135-151 | with a device, a started workout whose status contains IN_PROGRESS in upper case is recorded, so the same reply is not a new start |
| Peloton.PollLowerCaseStatusRetriggers | src/peloton.cpp:135-151 | with a device, a status that contains IN_PROGRESS only in another case is recorded as it came, which the case-sensitive test of the recorded status (peloton.cpp:137) does not match, so every poll of the same reply is a new start and requests the summary again |
| Peloton.LowerCaseInProgress | src/peloton.cpp:135-137 | the status "in_progress" matches IN_PROGRESS ignoring case but not with case |
| Peloton.PelotonClient.constructor | src/peloton.cpp:8-32 | with the default username nothing starts; otherwise the timer is wired and one login is posted |
| Peloton.PelotonClient.SetTestMode | src/peloton.cpp:461 | sets test mode |
| Peloton.PelotonClient.StartEngine | src/peloton.cpp:61-84 | changes the state as `OnStartEngine` does |
| Peloton.PelotonClient.TimerFired | src/peloton.cpp:22 | the timer starts the engine only when it was wired |
| Peloton.PelotonClient.LoginOnFinish | src/peloton.cpp:86-114 | changes the state as `OnLoginReply` does |
| Peloton.PelotonClient.WorkoutListOnFinish | src/peloton.cpp:116-169 | changes the poll state as `OnWorkoutList` does |
| Peloton.PelotonClient.PerformanceOnFinish | src/peloton.cpp:244-385 | the rows are those `BuildRows` gives; `workoutStarted` is signalled if there are any, otherwise the fallback search runs; the timer is restarted for 30 s |
| Peloton.PelotonClient.FillTrainRows | src/peloton.cpp:258-363 | the rows are those of the first source present |
| Peloton.PelotonClient.AppendResistanceRows | src/peloton.cpp:259-301 | the loop over samples builds exactly the compacted rows |
| Peloton.PelotonClient.AppendSampleAt | src/peloton.cpp:274-300 | one iteration extends the compacted rows of a prefix to those of the next prefix |
| Peloton.PelotonClient.AppendSample | src/peloton.cpp:292-300 | a sample opens a new row or extends the last one, as `CompactStep` says |
| Peloton.PelotonClient.AppendTargetRows | src/peloton.cpp:302-350 | the loop over target metrics builds exactly the target rows |
| Peloton.PelotonClient.AppendTargetRow | src/peloton.cpp:312-348 | a target metric with two metrics and offsets appends one row, and any other appends none |
| Peloton.PelotonClient.AppendSegmentRows | src/peloton.cpp:351-363 | the loop over segments builds exactly the segment rows |
| Peloton.PelotonClient.TakeRows | src/peloton.cpp:36-59 | a fallback provider's list replaces the rows, and `workoutStarted` is signalled if it is non-empty |
| PelotonRows.Samples | src/peloton.cpp:260-289 | one sample per entry of the chosen difficulty's resistance series |
| PelotonRows.CompactStep | src/peloton.cpp:292-300 | one sample opens a row or lengthens the last; specified through `Compact`, `CompactRowsDistinct`, `CompactDurations` and `CompactRoundTrip` |
| PelotonRows.Compact | src/peloton.cpp:273-301 | the rows are resistance rows, no more than the samples, empty only for no samples, and the last row holds the last sample's targets |
| PelotonRows.CompactRowsDistinct | src/peloton.cpp:276-298 | no two adjacent rows have the same targets, and each row's bike fields are present exactly when a device is connected and hold its conversions |
| PelotonRows.CompactDurations | src/peloton.cpp:275-300 | every row lasts a positive time and the durations add up to samples times resolution |
| PelotonRows.CompactRoundTrip | src/peloton.cpp:273-301 | expanding each row into duration over resolution copies of its targets gives back the samples |
| PelotonRows.Repeat | src/peloton.cpp:300 | `k` copies of a sample |
| PelotonRows.LevelOf | src/peloton.cpp:337-346 | the level is the lower bound if and only if the difficulty is "lower" in any case, and the upper bound if and only if it is "upper" |
| PelotonRows.PickWithinBounds | src/peloton.cpp:337-346 | the chosen target lies within its bounds, and the middle level is equidistant from both |
| PelotonRows.TargetRowInMiles | src/peloton.cpp:308-309 | for the "mi" unit the speed is the chosen bound times 1.60934 and the inclination is the chosen bound |
| PelotonRows.TargetRowInKilometres | src/peloton.cpp:304-346 | for other units the speed is the chosen bound |
| PelotonRows.TargetRows | src/peloton.cpp:311-349 | the speed rows of the target metrics; specified by `TargetRowsShape`, `TargetRowInMiles`, `TargetRowInKilometres` and `PickWithinBounds` |
| PelotonRows.TargetRowsShape | src/peloton.cpp:311-349 | one speed row per qualifying target metric, each carrying the force-speed setting and a valid duration |
| PelotonRows.TargetDurationValue | src/peloton.cpp:335-336 | the duration is always valid, and is end minus start whenever that lies within a day |
| PelotonRows.SegmentDurationValue | src/peloton.cpp:358 | a segment shorter than an hour lasts its length, and a longer one gives the null time |
| PelotonRows.SegmentRows | src/peloton.cpp:351-363 | the rows of the segments; specified by `SegmentRowsExact`, `SegmentRowsSound` and `SegmentRowsComplete` |
| PelotonRows.SegmentRowsExact | src/peloton.cpp:351-363 | a row is a segment row if and only if some segment of positive length gives it |
| PelotonRows.SegmentRowsSound | src/peloton.cpp:351-363 | every segment row comes from some segment of positive length |
| PelotonRows.SegmentRowsComplete | src/peloton.cpp:351-363 | every segment of positive length gives a row |
| PelotonRows.BuildRows | src/peloton.cpp:258-363 | the rows `performance_onfinish` builds from the first source present; specified by `BuildRowsSource` |
| PelotonRows.BuildRowsSource | src/peloton.cpp:258-363 | resistance targets give resistance rows, treadmill targets give speed rows, and a bike without resistance targets gets no rows |
| QtTime.MakeTime | src/peloton.cpp:358 | `QTime(h, m, s)` is valid exactly for an hour below 24 and a minute and second below 60, and then holds that many seconds |
| QtTime.AddSecs | src/peloton.cpp:300 | adding seconds keeps a null time null and a valid time valid |
| QtTime.AddSecsWholeDays | src/peloton.cpp:336 | adding seconds wraps around the clock by whole days |
| QtTime.AddSecsNoWrap | src/peloton.cpp:300 | without crossing midnight, adding seconds adds them |
| QtTime.AddSecsFromMidnight | src/peloton.cpp:335-336 | midnight plus `n` seconds within a day is `n` |
| Strings.ContainsOccurs | src/peloton.cpp:137 | `contains` holds if and only if the text occurs at some position |
| Strings.Upper | src/peloton.cpp:308 | `toUpper` keeps the length and upper-cases each character |
| Strings.ContainsIgnoringCaseOfContains | src/peloton.cpp:135-138 | a case-sensitive match is also a case-insensitive one |
| Strings.ShorterContainsNothing | src/peloton.cpp:137 | a string shorter than the text searched for never contains it |
| SportsPlusBike.ReadBE16Exact | src/sportsplusbike.cpp:196 | the masked big-endian read always equals the big-endian value |
| SportsPlusBike.DecodersBigEndian | src/sportsplusbike.cpp:195-210 | speed is octets 2..3 over 100, power is octets 2..3, and calories are octets 6..7, all big-endian |
| SportsPlusBike.ElapsedOf | src/sportsplusbike.cpp:188-193 | a defined elapsed time fits in 16 bits |
| SportsPlusBike.Elapsed | src/sportsplusbike.cpp:189-191 | a defined elapsed time fits in 16 bits |
| SportsPlusBike.ElapsedExact | src/sportsplusbike.cpp:188-193 | the elapsed time is minutes times 60 plus seconds if and only if both octets are below 0x80; a minutes octet from 0x80 up overflows 16 bits |
| SportsPlusBike.OnNotification | src/sportsplusbike.cpp:112-186 | the metrics after one frame; specified by `ShortFrameIgnored`, `CommonFields`, `SpeedFrameFields`, `PowerFrameFields`, `DistanceOnlyOnSpeedFrames`, `NoDistanceUntilSecondFrame` and the power lemmas |
| SportsPlusBike.ShortFrameIgnored | src/sportsplusbike.cpp:118-125 | a frame other than 12 octets only counts the packet |
| SportsPlusBike.CommonFields | src/sportsplusbike.cpp:151-185 | every 12-octet frame sets the calories from octets 6..7, the resistance to the request and the fan speed to 0, and the cadence from octet 8 unless a cadence sensor is configured; it also clears the first-frame flag |
| SportsPlusBike.SpeedFrameFields | src/sportsplusbike.cpp:127-139 | a speed frame sets the speed to octets 2..3 over 100, or to the power-based speed when so configured, and leaves the power alone |
| SportsPlusBike.PowerFrameFields | src/sportsplusbike.cpp:140-149 | a power frame sets the power from octets 2..3 unless a power sensor is configured, and leaves speed and distance alone |
| SportsPlusBike.DistanceOnlyOnSpeedFrames | src/sportsplusbike.cpp:127-131 | the distance changes only on a speed frame that is not the first 12-octet frame, and it never falls |
| SportsPlusBike.DistanceStepNonNegative | src/sportsplusbike.cpp:130 | the distance added for a non-negative speed is non-negative |
| SportsPlusBike.NoDistanceUntilSecondFrame | src/sportsplusbike.cpp:122-185 | before the second 12-octet frame no distance is added |
| SportsPlusBike.IdleFrameReportsNoPower | src/sportsplusbike.cpp:151-184 | through `watts()` (src/sportsplusbike.cpp:357-363), with the cadence sensor disabled, a 12-octet frame whose octet 8 is 0 sets the cadence to 0 and makes the reported power 0, whatever power is stored |
| SportsPlusBike.PedallingPowerFrameReportsPower | src/sportsplusbike.cpp:140-184 | through `watts()` (src/sportsplusbike.cpp:357-363), with neither sensor configured, a power frame with a non-zero octet 8 reports the big-endian power of octets 2..3 |
| SportsPlusBike.NoOpFrame | src/sportsplusbike.cpp:95-103 | the frame written on an ordinary tick; specified by `NoOpFrameChecksum` and `ClampResistance` |
| SportsPlusBike.NoOpFrameChecksum | src/sportsplusbike.cpp:95-103 | the no-op frame carries the resistance in octet 2 and the sum of octets 0..3 in octet 4 |
| SportsPlusBike.InitFrameChecksum | src/sportsplusbike.cpp:216 | the init frame's last octet is the sum of the others |
| SportsPlusBike.ClampResistance | src/sportsplusbike.cpp:96-101 | the written resistance lies in 0..24, keeps an in-range request, and maps negative requests to 0 and large ones to 24 |
| SportsPlusBike.Tick | src/sportsplusbike.cpp:67-106 | one `update` tick; specified by `TickIdle`, `TickInitHandshake` and `TickWrites` |
| SportsPlusBike.TickIdle | src/sportsplusbike.cpp:71-78 | without a controller a tick does nothing, and with an unconnected one it only signals `disconnected` |
| SportsPlusBike.TickInitHandshake | src/sportsplusbike.cpp:80-85 | a pending init request writes the init frame once and marks the init done; the next tick on a ready channel writes a no-op frame |
| SportsPlusBike.TickWrites | src/sportsplusbike.cpp:67-106 | a tick writes one frame exactly when it handles the init request or the channel is ready and initialised; every frame has a valid checksum and a resistance in 0..24, and an in-range request is kept |
| SportsPlusBike.SportsBike.constructor | src/sportsplusbike.cpp:15-24 | a new adapter has no controller, no init, a resistance request of -1 and nothing written |
| SportsPlusBike.SportsBike.DeviceDiscovered | src/sportsplusbike.cpp:318-355 | discovery creates the controller, requests resistance 1 and connects |
| SportsPlusBike.SportsBike.BtInit | src/sportsplusbike.cpp:212-221 | writes the init frame and marks the init done |
| SportsPlusBike.SportsBike.Update | src/sportsplusbike.cpp:67-106 | the tick changes the adapter's state as `Tick` does |
| SportsPlusBike.SportsBike.WriteNoOp | src/sportsplusbike.cpp:94-104 | clamps the request and writes the no-op frame for it |
| SportsPlusBike.SportsBike.NoOpData | src/sportsplusbike.cpp:95-103 | the array built is the no-op frame |
| SportsPlusBike.SportsBike.CharacteristicChanged | src/sportsplusbike.cpp:112-186 | the metrics change as one notification does in `OnNotification` |
| SportsPlusBike.SportsBike.ApplyFrameKind | src/sportsplusbike.cpp:127-149 | the speed-frame or power-frame branch |
| SportsPlusBike.SportsBike.ApplyCommonFields | src/sportsplusbike.cpp:151-185 | the fields set for every 12-octet frame |
| SportsPlusBike.SportsBike.UpdateSpeed | src/sportsplusbike.cpp:127-139 | the speed-frame branch |
| SportsPlusBike.SportsBike.StateChanged | src/sportsplusbike.cpp:223-275 | only a discovered service acts: it records whether the notify characteristic was found, enables notifications, and creates the virtual bike at most once, on the first call with the setting on |
| SportsPlusBike.SportsBike.DescriptorWritten | src/sportsplusbike.cpp:277-282 | sets the init request and signals `connectedAndDiscovered` |
| SportsPlusBike.SportsBike.ControllerStateChanged | src/sportsplusbike.cpp:376-383 | an unconnected controller clears the init and reconnects; any other state changes nothing |
| SportsPlusBike.SportsBike.Watts | src/sportsplusbike.cpp:357-363 | the power read by consumers is `ReportedPower` of the current metrics' cadence and power; `IdleFrameReportsNoPower` and `PedallingPowerFrameReportsPower` tie it to the decoded frames |
| ToorxTreadmill.PhaseFrame | src/toorxtreadmill.cpp:110-146 | every start-phase frame begins with the 0x55 marker |
| ToorxTreadmill.ReadBE16Octets | src/toorxtreadmill.cpp:238 | the unmasked read takes the low octet as is and replaces the high octet by 0xFF when the low octet's top bit is set |
| ToorxTreadmill.ReadBE16Exact | src/toorxtreadmill.cpp:236-254 | the unmasked big-endian read equals the big-endian value if and only if the low octet is below 0x80 or the high octet is 0xFF |
| ToorxTreadmill.ReadBE16Low | src/toorxtreadmill.cpp:236-254 | with a low octet below 0x80 the read is the big-endian value |
| ToorxTreadmill.SpeedExample | src/toorxtreadmill.cpp:230-234 | octets 0x0A and 0x32 read as 10.5 km/h |
| ToorxTreadmill.DecodeStatus | src/toorxtreadmill.cpp:220-254 | the metrics of a status frame; specified by `DecodeStatusFields`, `SpeedExact` and `SpeedExample` |
| ToorxTreadmill.DecodeStatusFields | src/toorxtreadmill.cpp:201-254 | with sign-free low octets, a status frame gives elapsed, distance and calories as big-endian octet pairs; the speed is octet 13 plus octet 14 over 100, the inclination is octet 15 and the heart rate octet 16 |
| ToorxTreadmill.SpeedExact | src/toorxtreadmill.cpp:230-234 | with octet 14 below 0x80 the speed is octet 13 plus octet 14 over 100 |
| ToorxTreadmill.Ingest | src/toorxtreadmill.cpp:198-216 | the link state after one line; specified by `LastStatus` and `IngestAllEffect` |
| ToorxTreadmill.LastStatus | src/toorxtreadmill.cpp:197-209 | the status frame found is one of the lines and 17 octets long, and none is found only when no line is |
| ToorxTreadmill.IngestAllEffect | src/toorxtreadmill.cpp:197-216 | after reading the lines the metrics are those of the last status frame, or unchanged without one; one re-init frame is appended per 13-octet line, and nothing else is written |
| ToorxTreadmill.Tick | src/toorxtreadmill.cpp:75-150 | a tick keeps the start phase in -1..4 and never changes whether the link is initialised |
| ToorxTreadmill.TickWaitsForInit | src/toorxtreadmill.cpp:79 | before the link is initialised a tick does nothing |
| ToorxTreadmill.TickPollsAndStarts | src/toorxtreadmill.cpp:95-107 | an initialised tick writes the poll first; a start request adds the start frame, enters phase 0 and signals `tapeStarted`; with nothing pending only the poll is written |
| ToorxTreadmill.Ticks | src/toorxtreadmill.cpp:99-105 | after one or more initialised ticks the start request is consumed |
| ToorxTreadmill.StartSequence | src/toorxtreadmill.cpp:99-148 | from a start request, six ticks write a poll before each of the start frame and the five phase frames, in order, end with no phase pending and signal `tapeStarted` once |
| ToorxTreadmill.PhaseTick | src/toorxtreadmill.cpp:108-148 | a tick in a start phase writes the poll and that phase's frame, and advances the phase, ending after phase 4 |
| ToorxTreadmill.OnService | src/toorxtreadmill.cpp:37-56 | the socket after a discovered service; specified by `FirstSerialPort` and `OnlyFirstSerialPort` |
| ToorxTreadmill.FirstSerialPort | src/toorxtreadmill.cpp:45-56 | the service chosen is a serial port of the device, and none is chosen only when the list has none |
| ToorxTreadmill.OnlyFirstSerialPort | src/toorxtreadmill.cpp:37-56 | once a socket exists later services change nothing; before that the socket goes to the first serial-port service of the device |
| ToorxTreadmill.Treadmill.constructor | src/toorxtreadmill.cpp:6-13 | a new adapter has no device, no socket, no init, no start phase and nothing written |
| ToorxTreadmill.Treadmill.DeviceDiscovered | src/toorxtreadmill.cpp:15-32 | a device whose name starts with "TRX ROUTE KEY" is recorded, and any other is ignored |
| ToorxTreadmill.Treadmill.ServiceDiscovered | src/toorxtreadmill.cpp:35-73 | the socket changes as `OnService` says |
| ToorxTreadmill.Treadmill.RfCommConnected | src/toorxtreadmill.cpp:152-190 | writes both init frames in order, marks the init done and signals `connectedAndDiscovered` |
| ToorxTreadmill.Treadmill.ReadSocket | src/toorxtreadmill.cpp:192-218 | without a socket nothing changes; otherwise the lines are ingested in order |
| ToorxTreadmill.Treadmill.IngestLine | src/toorxtreadmill.cpp:198-216 | one line is ingested as `Ingest` says |
| ToorxTreadmill.Treadmill.Update | src/toorxtreadmill.cpp:75-150 | the tick changes the adapter's state as `Tick` does |

## Left out

- Floating point: `double` metrics are modelled as exact reals. Rounding, and the `float` product in `GetElapsedFromPacket`, are not modelled.
- Qt plumbing is not modelled: signal and slot connections, `QTimer` scheduling, the 300 ms waits after each write, `QEventLoop`, debug output and logging. Only the writes, their order and the signal counts are kept.
- Platform heart-rate and cadence sources are left out: Android's `KeepAwakeHelper::heart` and the iOS `lockscreen`. They sit under `#ifdef` and call platform code.
- `update_metrics` and the `sec1Update` display counters are left out. They belong to the common device base class, which is not part of this model.
- Wall-clock differences are parameters: the elapsed ms between notifications, and the ms since the last speed frame.
- The device's own conversions are parameters: `pelotonToBikeResistance` and `calculateSpeedFromPower`.
- The workout-service HTTP requests and their JSON are modelled as already-parsed replies: login, workout list, summary, workout, instructor and performance. The summary, workout and instructor replies, which only chain further requests and store names, are left out.
- The fallback providers, `powerzonepack` and `homefitnessbuddy`, are not part of this model. Their searches are counted, and their row lists arrive through `TakeRows`.
- Headers are not part of this model (`bluetoothdevice.h`, `bike.h`, `peloton.h`, the FTMS opcode header). The model assumes:
  - `int8_t` resistance, start and stop requests, with -1 meaning none;
  - opcode 0x11, "Set Indoor Bike Simulation Parameters" in section 4.16.2.18 of the Fitness Machine Service specification;
  - the sample resolution `peloton_workout_second_resolution` as a parameter, which the duration lemmas require to lie in 1..59 seconds;
  - `LastCrankEventTime` is a 16-bit counter, so the crank-time step wraps modulo 0x10000 (`CrankTimeWrap`);
  - `firstCharChanged` starts true for the Sports Plus bike; `NoDistanceUntilSecondFrame` depends on this;
  - `peloton_credentials_wrong` starts false;
  - `testMode` starts false;
  - `current_workout_status` and `current_workout_id` start empty;
  - `CrankRevs` is wide enough never to wrap. It is a `nat`, and `CrankRevsMonotonic`'s "never falls" depends on this.
- Concept2SkiErg.SkiErg.ForceResistance: requires a control point. `writeCharacteristic` calls `gattFTMSService->writeCharacteristic` without a null check (src/concept2skierg.cpp:45), and `gattFTMSService` is set only when a writable 0x2AD9 characteristic is found (src/concept2skierg.cpp:330-336). A resistance write on a device without one is a null dereference in C++, which the model does not capture. `Update` and `ApplyResistanceRequest` carry the same requirement for the ticks that write (`WritesResistance`). `Tick` and `TickWritesClampedGrade` describe a device that has a control point.
- Concept2SkiErg.SkiErg.Update: requires a controller. `update` reads `m_control->state()` without a null check (src/concept2skierg.cpp:66), so a tick that fires after construction but before `deviceDiscovered` dereferences a null pointer. The model does not capture that crash.
- Concept2SkiErg.Tick: the `bluetoothDevice.isValid()` guard of `update` (src/concept2skierg.cpp:75) is not modelled. `deviceDiscovered` assigns the device (src/concept2skierg.cpp:437) before it creates the controller (src/concept2skierg.cpp:439), so the guard holds whenever a tick gets past the controller check.
- `toorxtreadmill::update` keeps its start phase in a function-local `static`. The model keeps it as a field of the adapter, so two adapters would not share it.
- Peloton.PelotonClient.PerformanceOnFinish: the C++ queries the connected device for the segment source without a null check. The model requires a device whenever the segment source is reached (`CanBuildRows`), and does not model the crash.
- SportsPlusBike.ElapsedOf: `GetElapsedFromPacket` is never called by the adapter. It is modelled on its own, and a total that does not fit 16 bits is undefined behaviour in C++, modelled as `None`.
- `StartsWith` is case-sensitive, as `QString::startsWith` is by default.
- Characters are compared code point by code point. `toUpper` is modelled on ASCII letters only, and a case-insensitive `contains` is a `contains` on the upper-cased strings.
- The Bluetooth scanning, the device name filtering outside the Toorx adapter, and `characteristicWritten`/`descriptorRead`/`errorService`/`error` logging slots are left out. They only log.
