# Baiku trainer controller — a verified Dafny model

Baiku drives an indoor smart trainer over Bluetooth Low Energy through the
Fitness Machine Service (FTMS). It covers three areas.

- **Trainer client.** It decodes Indoor Bike Data notifications, including devices that send an inconsistent "more data" bit. It decodes Cycling Power Measurement notifications and derives cadence from crank counters. It merges the two sources into one reading and normalises ERG power targets into the trainer's supported range. It writes the Control Point command sequences that set a target.
- **Workout engine.** It runs a workout plan step by step, one progress record per second, and honours a stop flag. It builds plans from a table of templates and parses plans from JSON and CSV files. It saves and lists the user's own workouts.
- **Ride feedback and history.** It classifies the rider's power and cadence into a coaching hint, with a stabiliser against flicker. It keeps a game layer of timed goals with score and coins. It stores finished sessions in a line-per-record history, and exports session snapshots as CSV.

Each source file becomes one module (`constants.dfy`, `indoor_bike.dfy`, `runner.dfy`, …).

- Code the source writes as expressions becomes datatypes, functions and lemmas.
- Objects whose fields the source updates become classes: `FTMSClient`, `WorkoutRunner`, `ActionStabilizer`, `GoalTracker`, `SessionFile` and `CsvWriter`. Their methods carry `modifies` clauses and state their new state.
- Loops in the source become methods with loop invariants, proved against a reference function. The one exception is the loop over the sorted manufacturer identifiers in `_resolve_manufacturer`, which returns on its first key: it is modelled as the minimum of the identifiers (`Manufacturer.Smallest`).
- Bytes, integers and flag words are explicit: 16-bit wrap-around and signed 16-bit encoding are written out.
- Floating-point values are real numbers.
- Python's `round` is modelled as half-to-even rounding.
- Device reads and writes, the stop event and the trainer's answers are oracles, given to the methods as parameters.

## Model

| member | source | states |
|---|---|---|
| Bytes.U16At | backend/ble/ftms_client.py:109 | an unsigned 16-bit read lies in 0..65535 |
| Bytes.S16At | backend/ble/ftms_client.py:146 | a signed 16-bit read lies in -32768..32767 and agrees with the unsigned read of the same bytes modulo 65536 |
| Bytes.EncodeU16 | backend/ble/ftms_client.py:445 | packing a 16-bit value gives two bytes that read back as that value |
| Bytes.EncodeS16 | backend/ble/ftms_client.py:445 | packing a signed 16-bit value gives two bytes that read back as that value |
| Bytes.S16Encoding | backend/ble/ftms_client.py:613 | encoding the signed value read from two bytes gives those bytes back |
| Constants.Mask | backend/ble/constants.py:21-33 | a flag's contribution lies between 0 and the flag's bit |
| Constants.EncodeIndoorBikeFlags | backend/ble/constants.py:21-33 | the flag word of a flag record is a 13-bit number |
| Constants.ParseIndoorBikeFlags | backend/ble/constants.py:53-69 | reference definition of the flag decoding, one field per bit; its properties are stated by FlagsRoundTrip, HighBitsIgnored and CadenceAndPowerFlags |
| Constants.FlagsRoundTrip | backend/ble/constants.py:53-69 | decoding a flag word and re-encoding it gives `raw & 0x1FFF` |
| Constants.HighBitsIgnored | backend/ble/constants.py:53-69 | bits 13 to 15 play no part: flags(raw) equals flags(raw & 0x1FFF) |
| Constants.CadenceAndPowerFlags | backend/ble/constants.py:53-69 | flag word 0x0044 gives cadence and power present, average speed absent, more-data clear |
| IndoorBike.Layout | backend/ble/ftms_client.py:113-171 | the thirteen fields in their fixed order and widths, with speed present as asked and each other field present exactly when its flag is set |
| IndoorBike.WalkFits | backend/ble/ftms_client.py:99-103 | the byte-checking walk fails exactly when the present fields do not fit, and on success ends just after them |
| IndoorBike.LayoutOffsets | backend/ble/ftms_client.py:113-147 | cadence starts after speed and average speed; power starts after the six fields before it; all present fields together take the sum of their widths |
| IndoorBike.LayoutBeforeCadence | backend/ble/ftms_client.py:113-123 | the widths of the speed and average-speed slots, given by the flags |
| IndoorBike.LayoutBeforePower | backend/ble/ftms_client.py:113-142 | the widths of the six slots before power, given by the flags |
| IndoorBike.LayoutSuffix | backend/ble/ftms_client.py:143-171 | the widths of the slots from power on, given by the flags |
| IndoorBike.FieldsInside | backend/ble/ftms_client.py:113-171 | every present field of a layout that fits lies inside the payload |
| IndoorBike.FieldsSpecOk | backend/ble/ftms_client.py:113-177 | a walk that succeeds yields 0.01 km/h speed, 0.5 rpm cadence and signed watts, each read at its slot's offset |
| IndoorBike.DecodeFailsIffOverrun | backend/ble/ftms_client.py:106-177 | decoding fails exactly when a present field overruns the payload; on success the cursor is 2 plus the present widths and at most the length |
| IndoorBike.SkipAbsent | backend/ble/ftms_client.py:120-122 | an absent field is skipped without a read, and the decoder still tracks the reference walk |
| IndoorBike.TakePresent | backend/ble/ftms_client.py:125-129 | a present field that fits is read and the cursor moves past it |
| IndoorBike.Overruns | backend/ble/ftms_client.py:99-103 | a present field that overruns makes the decode fail with its size and offset |
| IndoorBike.RequireBytes | backend/ble/ftms_client.py:99-103 | `size` bytes at `cursor` are refused exactly when they reach past the payload |
| IndoorBike.DecodeIndoorBikeData | backend/ble/ftms_client.py:106-177 | the cursor-stepping decoder returns exactly the reference decode of the payload |
| IndoorBike.DecodeFields | backend/ble/ftms_client.py:113-177 | the field-by-field loop returns exactly the reference result for the layout |
| IndoorBike.PlausibilityScore | backend/ble/ftms_client.py:180-194 | the score is 1000 for each present metric out of range, so one of 0, 1000, 2000, 3000 |
| IndoorBike.ScoreZeroIffPlausible | backend/ble/ftms_client.py:180-194 | the score is zero exactly when every present metric is in range |
| IndoorBike.BestIndex | backend/ble/ftms_client.py:224-226 | the chosen candidate has the least (score, trailing) key, and no earlier candidate has a key as small |
| IndoorBike.Candidates | backend/ble/ftms_client.py:210-219 | at most one candidate per decode |
| IndoorBike.CandidatesAndErrors | backend/ble/ftms_client.py:210-219 | every decode adds either a candidate or an error |
| IndoorBike.PairOutcome | backend/ble/ftms_client.py:210-219 | the candidates are those of the successful decodes, in the order tried; a failing first decode's error is the first error |
| IndoorBike.Attempts | backend/ble/ftms_client.py:204-210 | exactly two decodes are tried |
| IndoorBike.ParseSpec | backend/ble/ftms_client.py:197-226 | reference definition of the Indoor Bike Data parse; ParseIndoorBikeData computes it, and TooShortIffUnderTwoBytes, ParseChoosesLeastKey, BothFailRaisesPreferred and EqualScoresPreferSpeed state its properties |
| IndoorBike.ParseIndoorBikeData | backend/ble/ftms_client.py:197-226 | the parsing method returns exactly the reference parse |
| IndoorBike.TooShortIffUnderTwoBytes | backend/ble/ftms_client.py:199-200 | a payload is refused as too short exactly when it has fewer than two bytes |
| IndoorBike.ParseChoosesLeastKey | backend/ble/ftms_client.py:221-226 | the preferred decode is returned exactly when it succeeds with a key no greater than the other's; otherwise the other decode is returned |
| IndoorBike.BothFailRaisesPreferred | backend/ble/ftms_client.py:221-222 | when both decodes fail, the error raised is the preferred one's |
| IndoorBike.SpeedPresentIsTighter | backend/ble/ftms_client.py:114-118 | the speed-present decode succeeds only if the speed-absent one does, and then leaves exactly two fewer trailing bytes |
| IndoorBike.EqualScoresPreferSpeed | backend/ble/ftms_client.py:225 | with equal scores the speed-present reading is returned, whatever the more-data bit says |
| IndoorBikeExamples.CadenceAndPowerPayload | tests/test_ftms_parsing.py:16-30 | flags 0x0044 with 3000, 176, 182 parse to 30.0 km/h, 88.0 rpm, 182 W |
| IndoorBikeExamples.CadenceAndPowerWithSpeed | tests/test_ftms_parsing.py:16-30 | the speed-present decode reads 30.0 km/h, 88.0 rpm and 182 W and uses every byte |
| IndoorBikeExamples.CadenceAndPowerWithoutSpeed | tests/test_ftms_parsing.py:16-30 | the speed-absent decode reads 176 W and an implausible 1500.0 rpm, leaving two bytes |
| IndoorBikeExamples.NegativePowerPayload | tests/test_ftms_parsing.py:33-40 | flags 0x0041 with -10 parse to power -10 W and no cadence |
| IndoorBikeExamples.SpeedDespiteMoreDataPayload | tests/test_ftms_parsing.py:43-55 | flags 0x0045 from a device that still sends speed parse to 25.0 km/h, 85.0 rpm and 260 W |
| IndoorBikeExamples.SpeedDespiteMoreDataWithSpeed | tests/test_ftms_parsing.py:43-55 | the speed-present decode of that payload reads 25.0 km/h, 85.0 rpm and 260 W |
| IndoorBikeExamples.SpeedDespiteMoreDataWithoutSpeed | tests/test_ftms_parsing.py:43-55 | the speed-absent decode reads 170 W and an implausible 1250.0 rpm |
| CyclingPower.CounterDelta | backend/ble/ftms_client.py:784-787 | the delta lies in 0..65535 and equals now − before modulo 65536 |
| CyclingPower.CrankCadence | backend/ble/ftms_client.py:780-792 | a cadence only with a previous crank sample, never negative, and, when the ticks advanced, equal to Δrevs·61440/Δticks, that is 60·1024 per tick |
| CyclingPower.ShortPayload | backend/ble/ftms_client.py:738-739 | under four bytes: no power, no cadence, crank state untouched |
| CyclingPower.PowerAndCrankState | backend/ble/ftms_client.py:741-795 | from four bytes on, power is returned; cadence and a new crank state only when the crank field was read in full, and then the state is that sample |
| CyclingPower.TrailingBytesIgnored | backend/ble/ftms_client.py:797-827 | fields after a fully read crank field, whole or cut off, change nothing |
| CyclingPower.FirstSampleNoCadence | backend/ble/ftms_client.py:780-783 | the first crank sample gives no cadence |
| CyclingPower.CadenceCases | backend/ble/ftms_client.py:788-792 | after a previous sample, a cadence is given exactly when the ticks advanced or, at zero power, no revolutions were added; with neither counter moved at zero power it is 0.0 |
| CyclingPower.TwoRevolutionsPerSecond | tests/test_ftms_parsing.py:68-72 | two revolutions in 1024 ticks give 120.0 rpm, also across a counter wrap |
| CyclingPower.CrankOnlyRead | backend/ble/ftms_client.py:772-778 | a payload flagging only crank data is read in full, the crank data directly after the power |
| CyclingPower.CrankSampleSequence | tests/test_ftms_parsing.py:88-101 | the samples of the test give no cadence, then 120.0 rpm, then 0.0 for the stopped repeat |
| CyclingPower.NoNewRevolutions | tests/test_ftms_parsing.py:75-85 | no new revolutions while time advances at zero power reads as 0.0 rpm |
| CyclingPower.CrankOnlyBytes | tests/test_ftms_parsing.py:63 | the packed bytes of 0x0020, 180, 1000, 20000 form a crank-only payload |
| Rounding.RoundHalfEven | backend/workout/library.py:184 | the result is within one half of the real, and on a tie it is the even integer |
| Rounding.RoundHalfEvenUnique | backend/ble/ftms_client.py:236 | those two properties determine the rounded integer |
| Rounding.RoundOfInteger | backend/ble/ftms_client.py:236 | an integral value rounds to itself |
| Rounding.RoundMonotone | backend/ble/ftms_client.py:236 | rounding preserves order |
| PowerTarget.EffectiveIncrement | backend/ble/ftms_client.py:232-233 | a non-positive increment is used as 1; a positive one is kept |
| PowerTarget.NormalizePowerTarget | backend/ble/ftms_client.py:229-238 | the result is at most the maximum, and at least the minimum when min ≤ max |
| PowerTarget.StepsNonNegative | backend/ble/ftms_client.py:235-236 | with min ≤ max the number of increments is never negative |
| PowerTarget.NormalizedOnGrid | backend/ble/ftms_client.py:235-238 | the result is the maximum or min + k·increment for a k ≥ 0; an empty range (min > max) always gives the maximum |
| PowerTarget.NormalizeGridPoint | backend/ble/ftms_client.py:235-238 | a grid point inside the range normalises to itself |
| PowerTarget.MaximumStaysMaximum | backend/ble/ftms_client.py:238 | the maximum normalises to itself |
| PowerTarget.NormalizeIdempotent | backend/ble/ftms_client.py:229-238 | normalising twice gives the same target as normalising once |
| PowerTarget.NormalizeClampExamples | tests/test_ftms_parsing.py:104-106 | (20, 30, 400, 5) gives 30 and (420, 30, 400, 5) gives 400 |
| PowerTarget.NormalizeAlignExamples | tests/test_ftms_parsing.py:109-111 | 33 W gives 35 W and 32 W gives 30 W on a 5 W grid from 30 W |
| PowerTarget.NormalizeTieExamples | backend/ble/ftms_client.py:236 | on a 2 W grid from 30 W, the ties 31 W and 33 W go to the even multiples 30 W and 34 W |
| PowerTarget.NormalizeZeroIncrementExample | backend/ble/ftms_client.py:232-233 | a zero increment keeps every target in range unchanged |
| PowerTarget.SimulatedTargetAligned | backend/ble/ftms_client.py:429-435 | in simulation every applied target is a multiple of 5 W in 50..1200 W |
| PowerTarget.ParseSupportedPowerRange | backend/ble/ftms_client.py:608-617 | a range is read exactly when there are at least six bytes, and its increment is at least 1 |
| PowerTarget.EncodeSupportedPowerRange | backend/ble/ftms_client.py:613 | an encodable range packs into exactly six bytes |
| PowerTarget.SupportedPowerRangeRoundTrip | backend/ble/ftms_client.py:613-617 | reading an encoded range gives it back, whatever bytes follow the six |
| PowerTarget.ZeroIncrementReadAsOne | backend/ble/ftms_client.py:614-615 | a zero increment on the wire is read as 1 W |
| PowerTarget.SetTargetPowerCommand | backend/ble/ftms_client.py:445 | in the signed 16-bit range the command is three bytes, opcode 0x05 then the target's little-endian encoding; outside it there is no command |
| PowerTarget.SetTargetPowerBytes | backend/ble/ftms_client.py:445 | 200 W gives `05 C8 00` and -10 W gives `05 F6 FF` |
| PowerTarget.SetTargetPowerRoundTrip | backend/ble/ftms_client.py:445 | every three-byte command with opcode 0x05 is the command built from its own operand |
| Manufacturer.HexDigitValue | backend/ble/ftms_client.py:68 | a hex digit's value is below 16, and the digit of that value is the character itself |
| Manufacturer.Hex | backend/ble/ftms_client.py:68 | the hex form is non-empty, has only hex digits, and has at most four digits for a value below 0x10000 |
| Manufacturer.Hex04 | backend/ble/ftms_client.py:68 | the padded form has at least four hex digits, and exactly four for a value below 0x10000 |
| Manufacturer.HexRoundTrip | backend/ble/ftms_client.py:68 | reading the hex form back gives the number |
| Manufacturer.Hex04RoundTrip | backend/ble/ftms_client.py:68 | the zero-padded form also reads back as the number |
| Manufacturer.CompanyName | backend/ble/ftms_client.py:36-45 | a known identifier gives its company's name; an unknown one gives `MFG 0x` and its padded hex code |
| Manufacturer.Smallest | backend/ble/ftms_client.py:66 | the identifier chosen is in the list and no greater than any other |
| Manufacturer.HintFrom | backend/ble/ftms_client.py:69-73 | reference definition of the brand-hint scan from table position k on; its property is stated by FirstHintWins |
| Manufacturer.ResolveManufacturer | backend/ble/ftms_client.py:62-73 | reference definition of `_resolve_manufacturer`; ResolveManufacturerScan computes it, and ManufacturerDataFirst, FirstHintWins, CompanyExamples and NameExamples state its properties |
| Manufacturer.ResolveManufacturerScan | backend/ble/ftms_client.py:62-73 | the scanning method returns exactly the reference resolution: the company of the smallest identifier when there is manufacturer data, otherwise the brand of the first hint in the lower-cased name, otherwise nothing |
| Manufacturer.ManufacturerDataFirst | backend/ble/ftms_client.py:65-68 | with manufacturer data present, the smallest identifier decides and the name is ignored |
| Manufacturer.FirstHintWins | backend/ble/ftms_client.py:69-73 | without manufacturer data, the brand of the first hint in table order that occurs in the lower-cased name is returned, or nothing when none occurs |
| Manufacturer.CompanyExamples | backend/ble/ftms_client.py:36-45 | identifiers 0x04D8 and 0x0087 give Garmin, the smaller one; an unknown identifier gives its hex code |
| Manufacturer.NameExamples | backend/ble/ftms_client.py:47-59 | the name "KICKR" gives Wahoo Fitness; an empty name without manufacturer data gives nothing |
| Merge.MergedPower | backend/ble/ftms_client.py:714-718 | the FTMS power when present, else the power meter's |
| Merge.MergedCadence | backend/ble/ftms_client.py:720-724 | the power-meter cadence once there is one; before that the FTMS cadence, with none or 0.0 giving none |
| Merge.Merged | backend/ble/ftms_client.py:710-730 | reference definition of the merged reading; its properties are stated by MergedFromSources, MergedPower, MergedCadence and CyclingCadenceSticks |
| Merge.MergedFromSources | backend/ble/ftms_client.py:710-730 | each merged field comes from one of its sources; a zero cadence only from the power meter; speed is the FTMS speed |
| Merge.CyclingCadenceSticks | backend/ble/ftms_client.py:721-722 | once the power meter has given a cadence, the FTMS cadence no longer matters |
| ControlPoint.ErgSequences | backend/ble/ftms_client.py:448-452 | three sequences, each non-empty and ending with the set-target command |
| ControlPoint.ErgOpcodes | backend/ble/constants.py:15-18 | request control is 0x00, reset 0x01, set target power 0x05 and start/resume 0x07, as the sequences write them |
| ControlPoint.WritesMade | backend/ble/ftms_client.py:456-461 | the writes made lie between those already made and the whole sequence |
| ControlPoint.WritesMadeStop | backend/ble/ftms_client.py:454-466 | a sequence stops exactly at its first refused write; every earlier write was accepted |
| ControlPoint.ProtocolSuccess | backend/ble/ftms_client.py:454-464 | the call succeeds with a sequence only after all its writes were accepted, and nothing is written after it |
| ControlPoint.ProtocolFailure | backend/ble/ftms_client.py:465-470 | a call that fails ends on a refused write |
| ControlPoint.FirstAcceptedSequenceWins | backend/ble/ftms_client.py:454-464 | a sequence whose writes are all accepted is the one that succeeds, and nothing follows it |
| ControlPoint.ErgAllAccepted | backend/ble/ftms_client.py:448-464 | a trainer that accepts everything gets the first sequence and the call succeeds |
| ControlPoint.ErgStartResumeRejected | backend/ble/ftms_client.py:448-466 | a refused start/resume falls back to the second sequence, which succeeds |
| ControlPoint.ErgAllRejected | backend/ble/ftms_client.py:448-470 | a trainer refusing every write gets the first command of each sequence, and the call fails |
| FtmsClient.WriteSequence | backend/ble/ftms_client.py:456-463 | the write loop of one sequence makes exactly the reference writes and succeeds exactly when all were accepted |
| ControlPoint.Protocol | backend/ble/ftms_client.py:454-470 | reference definition of trying the command sequences in order until one is accepted; WriteSequences computes it, and ProtocolSuccess, ProtocolFailure, FirstAcceptedSequenceWins and the Erg examples state its properties |
| FtmsClient.WriteSequences | backend/ble/ftms_client.py:454-470 | the sequence loop makes exactly the reference writes and reports the sequence that succeeded, if any |
| FtmsClient.CachedRange | backend/ble/ftms_client.py:599-617 | the cache is replaced only by a range read during discovery with six bytes or more; otherwise it is kept |
| FtmsClient.ResistanceLevel | backend/ble/ftms_client.py:493 | the level is clamped into [1, 200] and kept when already inside |
| FtmsClient.SlopePercent | backend/ble/ftms_client.py:509 | the grade is clamped into [-10, 15] and kept when already inside |
| FtmsClient.FTMSClient.constructor | backend/ble/ftms_client.py:244-275 | a fresh client: no handle, nothing cached, no metrics, no crank sample, simulated target 120 W |
| FtmsClient.FTMSClient.Current | backend/ble/ftms_client.py:714-730 | the published reading is the merge of the last FTMS and power-meter values |
| FtmsClient.FTMSClient.Connect | backend/ble/ftms_client.py:322-355 | simulated: connected at once; real: refused when the trainer is not reached, else the handle is set and services are discovered |
| FtmsClient.FTMSClient.Disconnect | backend/ble/ftms_client.py:366-379 | only the handle and the discovery flag are reset on a real link; cached range, indications flag, metrics and crank counters survive |
| FtmsClient.FTMSClient.EnsureServicesDiscovered | backend/ble/ftms_client.py:586-623 | discovery runs once per connection, marks the services discovered, and caches the range when it can be read |
| FtmsClient.FTMSClient.EnsureControlPointIndications | backend/ble/ftms_client.py:523-539 | indications are enabled once; a refusal leaves them off without failing |
| FtmsClient.FTMSClient.ReadSupportedPowerRange | backend/ble/ftms_client.py:576-584 | the simulated range (50, 1200, 5) in simulation, otherwise the cached range, which may be none |
| FtmsClient.FTMSClient.NormalizeTargetPower | backend/ble/ftms_client.py:557-574 | a target is normalised into the known range, or kept when none is known |
| FtmsClient.FTMSClient.SetTargetPower | backend/ble/ftms_client.py:427-470 | simulated: the target normalised into 50..1200 W by 5 W; real: refused without a connection, else the reference writes, returning the target after the first accepted sequence and failing after all three are refused |
| FtmsClient.FTMSClient.SetTargetResistance | backend/ble/ftms_client.py:491-505 | simulated: the clamped level, with the simulated target 70 W + 3 W per level; real trainers refuse |
| FtmsClient.FTMSClient.SetTargetSlope | backend/ble/ftms_client.py:507-521 | simulated: the clamped grade, with the simulated target 180 W + 18 W per percent; real trainers refuse |
| FtmsClient.FTMSClient.Subscribe | backend/ble/ftms_client.py:381-425 | simulated: requires a connection and starts a task when none runs; real: requires a handle and succeeds exactly when at least one characteristic accepts notifications |
| FtmsClient.FTMSClient.PublishMergedMetrics | backend/ble/ftms_client.py:710-733 | with a callback installed, the merged reading is published; without one nothing happens |
| FtmsClient.FTMSClient.HandleIndoorBikeData | backend/ble/ftms_client.py:648-691 | a payload that does not parse changes nothing; otherwise its three metrics replace the last ones and the merge is published |
| FtmsClient.FTMSClient.HandleCyclingPowerMeasurement | backend/ble/ftms_client.py:693-708 | the power is replaced, also by none; the cadence only when one was derived |
| FtmsClient.FTMSClient.ParseCyclingPowerMeasurement | backend/ble/ftms_client.py:735-827 | the cursor-stepping reader returns the reference reading and leaves the reference crank state |
| WorkoutModel.TotalDurationSec | backend/workout/model.py:22-24 | reference definition of a plan's total duration, the sum of its step durations; its properties are stated by TotalDurationBound, TotalDurationAppend, TotalDurationPrefix and TotalDurationExamples |
| WorkoutModel.TotalDurationBound | backend/workout/model.py:22-24 | with positive durations the total is at least the number of steps |
| WorkoutModel.TotalDurationAppend | backend/workout/model.py:22-24 | the total of two step sequences joined is the sum of their totals |
| WorkoutModel.TotalDurationPrefix | backend/workout/model.py:22-24 | the total of k + 1 steps is that of k steps plus step k |
| WorkoutModel.TotalDurationExamples | tests/test_workout_parser.py:22-24 | a plan without steps lasts 0 s; steps of 60 and 30 s last 90 s; of 60 and 120 s, 180 s |
| Runner.SafeFtp | backend/workout/runner.py:188 | the FTP used is at least 100 and at least the given one |
| Runner.WattsToResistance | backend/workout/runner.py:187-189 | the level lies in [1, 200] and is target/max(100, ftp)·100 when inside |
| Runner.WattsToSlope | backend/workout/runner.py:192-194 | the grade lies in [-10, 15] and is (target − max(100, ftp))/20 when inside |
| Runner.ExpectedPowerMin | backend/workout/runner.py:197-198 | at least 1 W, and within one half of 95 % of the target when that is at least 0.5 |
| Runner.ExpectedPowerMax | backend/workout/runner.py:201-202 | at least 1 W, and within one half of 105 % of the target when that is at least 0.5 |
| Runner.ExpectedBand | backend/workout/runner.py:197-202 | for a target of at least 1 W: 1 ≤ min ≤ target ≤ max |
| Runner.FirstSuccessIsEarliest | backend/workout/runner.py:120-141 | the first success is the earliest accepted attempt; there is none exactly when all remaining attempts fail |
| Runner.StepLabel | backend/workout/runner.py:156 | the step's own label when set and not empty, else `Step i` |
| Runner.StepRecords | backend/workout/runner.py:157-183 | one record per second of the step, none for a non-positive duration |
| Runner.StepRecordAt | backend/workout/runner.py:157-183 | record k is the tick with duration − k seconds left |
| Runner.StepRecordFields | backend/workout/runner.py:160-181 | record k has step_elapsed k + 1, elapsed_total offset + k + 1, and total_remaining max(0, total − elapsed_total) |
| Runner.ScheduleUnfold | backend/workout/runner.py:87-107 | a step whose target is applied puts its records ahead of the rest of the schedule |
| Runner.ScheduleLength | backend/workout/runner.py:87-107 | with every target applied, there are as many records as the remaining duration |
| Runner.ScheduleElapsed | backend/workout/runner.py:103-107 | record j has offset + j + 1 plan seconds behind it |
| Runner.ScheduleStepOrder | backend/workout/runner.py:87-106 | step numbers never decrease and start from the current step |
| Runner.ScheduleTotals | backend/workout/runner.py:181 | every record carries the plan total less its elapsed seconds, at least 0 |
| Runner.UninterruptedRun | backend/workout/runner.py:84-111 | a run never stopped, with every target applied and no step of negative duration, emits exactly the plan's total duration of records with elapsed_total 1, 2, …, in step order |
| Runner.WorkoutRunner.constructor | backend/workout/runner.py:42-45 | a fresh runner has no task |
| Runner.WorkoutRunner.Start | backend/workout/runner.py:51-65 | refused while a run is active; otherwise a fresh stop flag and a running task |
| Runner.WorkoutRunner.Stop | backend/workout/runner.py:67-74 | no effect when not running; otherwise the stop flag is set and the running task is dropped |
| Runner.WorkoutRunner.StopRequested | backend/workout/runner.py:88 | one look at the stop flag; once seen set it stays set |
| Runner.WorkoutRunner.ApplyStepTarget | backend/workout/runner.py:113-141 | at most three attempts while not stopped; the first accepted value with "W" in ERG mode and "%" otherwise; an error when attempts run out or the stop comes first |
| Runner.WorkoutRunner.CountdownStep | backend/workout/runner.py:143-184 | the records emitted are a prefix of the step's records, all of them when the flag stays clear |
| Runner.WorkoutRunner.RunStep | backend/workout/runner.py:88-107 | one pass emits the start of this step's schedule, followed by the next step's when it ran to its end |
| Runner.Schedule | backend/workout/runner.py:87-107 | reference definition of the progress records a run emits; RunSteps and Run compute it, and ScheduleUnfold, ScheduleLength, ScheduleElapsed, ScheduleStepOrder, ScheduleTotals and UninterruptedRun state its properties |
| Runner.WorkoutRunner.RunSteps | backend/workout/runner.py:87-107 | the emitted records are a prefix of the never-stopped schedule, and all of it when the flag was never seen set |
| Runner.WorkoutRunner.Run | backend/workout/runner.py:76-111 | finish is called exactly once; completed exactly when no target failed and the flag was not seen set; the records are a prefix of the schedule |
| Library.TemplateKeysDistinct | backend/workout/library.py:27-154 | no two templates share a key |
| Library.TemplatesOkA | backend/workout/library.py:28-62 | the first three templates have positive durations and paired, ordered cadence bounds |
| Library.TemplatesOkB | backend/workout/library.py:63-98 | the middle three templates have positive durations and paired, ordered cadence bounds |
| Library.TemplatesOkC | backend/workout/library.py:99-153 | the last three templates have positive durations and paired, ordered cadence bounds |
| Library.TemplatesOk | backend/workout/library.py:27-154 | every template is well formed |
| Library.ListTemplates | backend/workout/library.py:157-158 | nine templates, each well formed, with no key repeated |
| Library.InferCadenceRange | backend/workout/library.py:161-171 | the zone is chosen by the five thresholds and is always a proper interval in 80..110 rpm |
| Library.TargetWatts | backend/workout/library.py:184 | at least 1 W, never below ftp·intensity − 0.5, and at most ftp·intensity + 0.5 when that product is at least 0.5 |
| Library.FindTemplate | backend/workout/library.py:178 | found exactly when some template has the key, and then it is the first such template |
| Library.PlanFromTemplate | backend/workout/library.py:182-197 | one plan step per template step, and the name `{name} ({ftp} FTP)` |
| Library.BuildPlanFromTemplate | backend/workout/library.py:174-197 | refused for ftp ≤ 0 and for an unknown key; otherwise the plan of the first template with that key |
| Library.BuildSteps | backend/workout/library.py:182-196 | the append loop produces exactly the reference steps |
| Library.PlanSteps | backend/workout/library.py:184-195 | each plan step keeps its duration and label, scales its target, and takes each cadence bound from the template or from the inferred zone, independently |
| Library.PlanStepsValid | backend/workout/library.py:182-197 | a well-formed template gives steps with positive duration and target and an ordered pair of positive cadence bounds |
| Library.BuildFindsTemplate | backend/workout/library.py:175-180 | with ftp > 0 a known key always gives a plan |
| Library.Vo2maxExample | tests/test_workout_library.py:11-16 | VO2max 5x3 at 250 W has 11 steps, and step 1 targets 280 W at 95–108 rpm |
| Library.TempoExample | tests/test_workout_library.py:26-35 | Tempo 30 at 240 W: both first steps have cadence bounds, and the main block's minimum is at least the warmup's |
| Text.StripLeft | backend/workout/parser.py:163 | the result is a suffix of the text that starts with no white space, and everything removed is white space |
| Text.StripRight | backend/workout/parser.py:163 | the result is a prefix of the text that ends with no white space, and everything removed is white space |
| Text.Strip | backend/workout/parser.py:119 | the result is no longer than the text and has no white space at either end |
| Text.StripUnchanged | backend/workout/parser.py:119 | a text with no white space at either end is its own strip |
| Text.StripIdempotent | backend/workout/parser.py:60 | stripping twice is stripping once |
| Text.LowerChar | backend/workout/parser.py:18 | a letter becomes lower case; a character that is not an upper-case letter is kept |
| Text.Lower | backend/workout/user_workouts.py:19 | every character is lowered in place |
| Text.DigitChar | backend/workout/library.py:197 | a digit value becomes an ASCII digit |
| Text.DigitValue | backend/workout/parser.py:163 | an ASCII digit's value is below ten, and the digit of that value is the character itself |
| Text.NatToDecimal | backend/workout/library.py:197 | the decimal form is non-empty, all digits, and has no leading zero |
| Text.IntToDecimal | backend/workout/library.py:197 | the decimal form of an integer is non-empty, with no white space at either end |
| Text.ParseIntOfDecimal | backend/workout/parser.py:163 | parsing an integer's decimal form gives the integer back |
| Text.DecimalExamples | backend/workout/library.py:197 | the decimal forms of 100 and 60 |
| Text.DecimalExamplesMore | backend/workout/library.py:197 | the decimal forms of 120 and 160 |
| Text.ParseIntExamples | tests/test_workout_parser.py:70 | the texts "0" and "100" read as 0 and 100 |
| Text.ParseIntExamplesMore | tests/test_workout_parser.py:47 | the texts "60", "120" and "160" read as those numbers |
| Text.ParseIntRejects | backend/workout/parser.py:162-165 | a text that is not a number is refused |
| Parser.ParseIntField | backend/workout/parser.py:159-165 | an integer is taken as it is, a missing value is an error, and every error names the step and field |
| Parser.IntOfText | backend/workout/parser.py:162-165 | succeeds exactly when the text reads as an integer; a failure names the step and field |
| Parser.ParseIntFieldOfRepr | backend/workout/parser.py:159-165 | the field parse is `int(str(raw).strip())` for every value |
| Parser.ParseOptionalIntField | backend/workout/parser.py:168-175 | missing or blank means none; anything else must read as an integer |
| Parser.Label | backend/workout/parser.py:115-119 | absent stays absent; a label given is never empty or padded; a non-blank text gives its stripped form |
| Parser.CadenceBounds | backend/workout/parser.py:121-142 | accepted bounds are positive, with min ≤ max when both are given; a failure names the step |
| Parser.BuildStep | backend/workout/parser.py:90-150 | an accepted step is valid: positive duration and target, a label that is not blank, and positive, ordered cadence bounds; a failure names the step |
| Parser.BuildStepRoundTrip | backend/workout/parser.py:90-150 | a valid step written out as field values is accepted back unchanged |
| Parser.BuildStepRejectsZeroDuration | backend/workout/parser.py:110-111 | a zero duration fails first, whatever the other fields |
| Parser.CsvZeroDurationRow | tests/test_workout_parser.py:67-75 | the CSV row `0,100` fails on the duration of step 1 |
| Parser.SingleCadenceBound | backend/workout/parser.py:131-142 | one cadence bound may be given without the other, and a blank bound counts as none |
| Parser.BuildPlan | backend/workout/parser.py:153-156 | a plan needs at least one step; otherwise it keeps the name and steps |
| Parser.StepOf | backend/workout/parser.py:46-58 | an entry gives a valid step, or an error naming its step |
| Parser.StepResults | backend/workout/parser.py:46-58 | one result per entry |
| Parser.AllStepsOk | backend/workout/parser.py:45-58 | all results give their steps exactly when each succeeds, one by one in order |
| Parser.AllStepsFirstError | backend/workout/parser.py:45-58 | a failure is the first failing result's error |
| Parser.StepsOk | backend/workout/parser.py:45-58 | the entries give steps exactly when each does, every step valid and in entry order |
| Parser.StepsFirstError | backend/workout/parser.py:45-58 | a failure is the first failing entry's error and names that step |
| Parser.CollectSteps | backend/workout/parser.py:45-58 | the append loop returns exactly the steps, or the first error |
| Parser.NameOr | backend/workout/parser.py:60 | the stripped name when not empty, else the stem |
| Parser.JsonPlan | backend/workout/parser.py:28-60 | reference definition of the JSON reader; LoadJson computes it, and JsonNames, JsonPlanOf, JsonExample and StepsErrorIsNotFormat state its properties |
| Parser.LoadJson | backend/workout/parser.py:28-60 | the reader returns exactly the reference result of the document |
| Parser.CsvItems | backend/workout/parser.py:75-85 | every CSV row is an object entry |
| Parser.CsvPlan | backend/workout/parser.py:63-87 | reference definition of the CSV reader; LoadCsv computes it, and CsvHeadersAndName, CsvPlanOf and CsvExample state its properties |
| Parser.LoadCsv | backend/workout/parser.py:63-87 | the reader returns exactly the reference result of the file |
| Parser.Workout | backend/workout/parser.py:16-25 | reference definition of the loader's dispatch on the suffix; LoadWorkout computes it, and FormatDispatch and AcceptedPlanValid state its properties |
| Parser.LoadWorkout | backend/workout/parser.py:16-25 | the loader returns exactly the reference result of dispatching on the suffix |
| Parser.FormatDispatch | backend/workout/parser.py:16-25 | the format is refused exactly when the lower-cased suffix is neither `.json` nor `.csv` |
| Parser.StepsErrorIsNotFormat | backend/workout/parser.py:28-60 | the JSON reader never reports a format error |
| Parser.CsvErrorIsNotFormat | backend/workout/parser.py:63-87 | the CSV reader never reports a format error |
| Parser.AcceptedPlanValid | backend/workout/parser.py:153-156 | an accepted plan has at least one step, and every step is valid |
| Parser.JsonNames | backend/workout/parser.py:37-40 | the name defaults to the stem, must be a string, and a blank name gives the stem |
| Parser.CsvHeadersAndName | backend/workout/parser.py:67-73 | a file without both required headers is refused; an accepted one is named after the file |
| Parser.JsonSampleEntries | tests/test_workout_parser.py:14-15 | the entries of the JSON sample |
| Parser.TwoSteps | backend/workout/parser.py:45-58 | two entries that each give a step give both in order |
| Parser.JsonPlanOf | backend/workout/parser.py:28-60 | an object with a string name and entries that all give steps gives the plan of those steps |
| Parser.JsonExample | tests/test_workout_parser.py:10-25 | the JSON sample gives a plan of the given name with two steps lasting 90 s, the second labelled `push` |
| Parser.TwoStepTotal | tests/test_workout_parser.py:24 | two steps last both durations together |
| Parser.SampleTextsStripped | tests/test_workout_parser.py:14-15 | "Tempo" and "Push" need no stripping |
| Parser.CsvSampleTextsStripped | tests/test_workout_parser.py:47 | "warmup" and "tempo" need no stripping |
| Parser.CsvRowStep | backend/workout/parser.py:75-85 | a CSV row with duration, target and label and no cadence columns gives its step |
| Parser.CsvExample | tests/test_workout_parser.py:44-56 | the CSV sample is named after the file, has two steps lasting 180 s, and the first is at 100 W |
| Parser.CsvSampleHeaders | tests/test_workout_parser.py:47 | the sample header has both required columns |
| Parser.CsvPlanOf | backend/workout/parser.py:63-87 | a file with both headers and rows that all give steps gives the plan of those steps |
| Coaching.DeviationsOf | backend/ui/coaching.py:28-35 | reference definition of which of power and cadence deviate, low or high, from their bands; its properties are stated by NoneNeverDeviates and OrderedBoundsExclusive |
| Coaching.ComputeCoachingSignal | backend/ui/coaching.py:19-82 | reference definition of the coaching signal; its properties are stated by SignalFor, SinglePriority, DualSignal and KeyDeterminesSignal |
| Coaching.SignalFor | backend/ui/coaching.py:37-82 | severity and key are "ok" exactly when nothing deviates; severity is ok, warn or bad; colour follows severity |
| Coaching.DualSignal | backend/ui/coaching.py:37-47 | with both off the key is `dual_{pl\|ph}_{cl\|ch}`, and the hint is "bad" exactly when one is too high |
| Coaching.DualTags | backend/ui/coaching.py:43 | the tags in a dual key name the deviations, low chosen over high |
| Coaching.SinglePriority | backend/ui/coaching.py:49-82 | each single key exactly when its deviation is first in the order power low, power high, cadence low, cadence high and the other quantity is in band |
| Coaching.SingleSeverity | backend/ui/coaching.py:49-76 | a single low deviation is "warn", a high one "bad" |
| Coaching.OrderedBoundsExclusive | backend/ui/coaching.py:28-35 | with ordered bounds a reading is never both low and high |
| Coaching.KeyDeterminesSignal | backend/ui/coaching.py:37-82 | with neither quantity both low and high, the key determines the whole signal |
| Coaching.DualKeyStart | backend/ui/coaching.py:43 | exactly the dual keys start with 'd' |
| Coaching.NoneNeverDeviates | backend/ui/coaching.py:28-35 | a missing value and missing bounds never deviate |
| Coaching.PriorityExamples | tests/test_coaching.py:6-35 | power below its band is power_low, above it power_high |
| Coaching.CadenceExamples | tests/test_coaching.py:6-35 | cadence below its band is a cadence hint; both in band is ok |
| Coaching.StabilizerStep | backend/ui/coaching.py:99-123 | keeps pending state consistent, always shows the current signal, changes it only when it reports a change, and keeps only a candidate-keyed signal pending |
| Coaching.FirstUpdateAdopts | backend/ui/coaching.py:100-104 | the first update adopts the candidate and reports a change |
| Coaching.SameKeyHolds | backend/ui/coaching.py:106-109 | a candidate with the shown key keeps the shown signal and clears pending |
| Coaching.NewKeyStartsTimer | backend/ui/coaching.py:111-114 | a new key, or one different from the pending key, restarts the timer and shows nothing new |
| Coaching.SwitchNeedsDwell | backend/ui/coaching.py:111-123 | the shown key changes exactly when the candidate's key has been pending for at least the threshold; then the pending signal is shown |
| Coaching.DwellTwoOffers | backend/ui/coaching.py:111-123 | the same new key offered twice switches on the second offer exactly when the threshold separates them |
| Coaching.AntiFlickerExample | tests/test_coaching.py:38-71 | ok at 0.0 is adopted; power_low at 0.3 and 1.8 is held back, and at 2.4 it is shown |
| Coaching.ActionStabilizer.constructor | backend/ui/coaching.py:88-92 | nothing shown, nothing pending |
| Coaching.ActionStabilizer.Reset | backend/ui/coaching.py:94-97 | clears the shown signal, the pending signal and its timestamp |
| Coaching.ActionStabilizer.Update | backend/ui/coaching.py:99-123 | the fields and the returned pair are exactly one stabiliser step of the old state |
| GameLayer.DefaultGoals | backend/ui/game_layer.py:91-113 | power, then cadence, then both; 20, 20 and 25 s; 100, 120 and 180 points |
| GameLayer.GoalCondition | backend/ui/game_layer.py:51-61 | counts exactly when every zone the kind needs is explicitly in; none counts as a miss |
| GameLayer.CurrentGoalOf | backend/ui/game_layer.py:45-49 | none exactly when the index is past the goals, else the goal at the index |
| GameLayer.CoinsFor | backend/ui/game_layer.py:87 | at least 1, and points div 20 when points ≥ 20 |
| GameLayer.InitialInv | backend/ui/game_layer.py:38-43 | a reset tracker satisfies the invariant with its first goal current |
| GameLayer.Step | backend/ui/game_layer.py:63-88 | reference definition of one `update` of the goal tracker; GoalTracker.Update computes it, and StepInv, StepProgress, StepCompletion, StepMonotone and NoGoalOrNoTime state its properties |
| GameLayer.StepInv | backend/ui/game_layer.py:63-88 | `update` preserves the invariant: completed goals before the index, awards summed, progress never negative |
| GameLayer.NoGoalOrNoTime | backend/ui/game_layer.py:70-74 | with no current goal or no time elapsed, nothing changes |
| GameLayer.StepProgress | backend/ui/game_layer.py:76-82 | a hit adds dt and extends the streak; a miss takes off dt/2, not below 0, and breaks the streak; only the current goal changes |
| GameLayer.StepCompletion | backend/ui/game_layer.py:84-88 | reaching the target completes the goal, adds its points and coins, and advances the index; short of it those stay |
| GameLayer.StepMonotone | backend/ui/game_layer.py:84-88 | at most one goal completes per update; index, score and coins never decrease |
| GameLayer.PowerHoldProgress | tests/test_game_layer.py:6-13 | up to 19 one-second power hits only add progress and streak |
| GameLayer.PowerHoldCompletes | tests/test_game_layer.py:6-17 | twenty one-second power hits give score 100, five coins and the cadence goal current |
| GameLayer.DecayExample | tests/test_game_layer.py:20-28 | six seconds in zone leave 6.0 s; two seconds out take it to 5.0 s |
| GameLayer.GoalTracker.constructor | backend/ui/game_layer.py:29-36 | a new tracker is in its reset state over the given goals |
| GameLayer.GoalTracker.Reset | backend/ui/game_layer.py:38-43 | every goal rebuilt with no progress; index, score, coins and streak zero |
| GameLayer.GoalTracker.Update | backend/ui/game_layer.py:63-88 | the new fields are exactly one `update` step of the old ones, and the invariant is kept |
| Slug.SkipSeparators | backend/workout/user_workouts.py:19 | drops a leading run of separators: a suffix starting with a letter or digit, or empty |
| Slug.CollapseSeparators | backend/workout/user_workouts.py:19 | no double dash; empty exactly when the input is; a leading dash exactly when the input starts with a separator |
| Slug.TrimLeftDashes | backend/workout/user_workouts.py:19 | the suffix after the leading dashes |
| Slug.TrimRightDashes | backend/workout/user_workouts.py:19 | the prefix before the trailing dashes |
| Slug.TrimDashesBounds | backend/workout/user_workouts.py:19 | trimming keeps a middle slice and removes only dashes |
| Slug.LowerNoUpper | backend/workout/user_workouts.py:19 | lowering leaves no upper-case letter |
| Slug.CollapseSlugChars | backend/workout/user_workouts.py:19 | collapsing a lowered text leaves only lower-case letters, digits and dashes |
| Slug.TrimIsSlug | backend/workout/user_workouts.py:19 | trimming the dashes of such a text leaves nothing or a key |
| Slug.DefaultSlug | backend/workout/user_workouts.py:20 | "custom-workout" is itself a key |
| Slug.Slugify | backend/workout/user_workouts.py:18-20 | the key is non-empty, only `[a-z0-9-]`, with no dash at either end and no double dash |
| Slug.SlugKeepsAlnums | backend/workout/user_workouts.py:18-20 | the key keeps exactly the name's letters and digits, lowered and in order; a name with none gives "custom-workout" |
| Slug.AlnumsLower | backend/workout/user_workouts.py:19 | lowering lowers the letters and keeps the digits |
| Slug.AlnumsCollapse | backend/workout/user_workouts.py:19 | collapsing separators keeps the letters and digits in order |
| Slug.AlnumsStrip | backend/workout/user_workouts.py:19 | stripping white space keeps the letters and digits |
| Slug.AlnumsTrim | backend/workout/user_workouts.py:19 | trimming dashes keeps the letters and digits |
| Slug.CollapseOfSlug | backend/workout/user_workouts.py:19 | collapsing a text of letters, digits and single dashes changes nothing |
| Slug.SlugifyOfSlug | backend/workout/user_workouts.py:18-20 | a key is its own key |
| Slug.SlugifyIdempotent | backend/workout/user_workouts.py:18-20 | slugifying twice is slugifying once |
| UserWorkouts.StepPayload | backend/workout/user_workouts.py:70-76 | the saved object carries the step's duration and target as integers, and its label and bounds, present exactly when the step has them |
| UserWorkouts.SaveKey | backend/workout/user_workouts.py:64 | the overwrite key when non-empty, otherwise a key made from the name; never empty |
| UserWorkouts.SaveUserWorkout | backend/workout/user_workouts.py:52-81 | refused exactly for an empty step list; otherwise `<key>.json` with the name, category and one object per step in order |
| UserWorkouts.SaveLoadRoundTrip | backend/workout/user_workouts.py:66-79 | loading a saved workout of valid steps gives back the steps unchanged, named by the stripped name or the stem |
| UserWorkouts.ListedWorkout | backend/workout/user_workouts.py:37-44 | keyed and named by the stem; name and category from the content when readable, else the stem and "Custom" |
| UserWorkouts.ListUserWorkouts | backend/workout/user_workouts.py:31-45 | nothing for a missing directory; otherwise one entry per file, in order |
| UserWorkouts.SaveListRoundTrip | backend/workout/user_workouts.py:31-81 | a saved workout is listed under its key, with the name and category it was saved with |
| UserWorkouts.SaveLoadExample | tests/test_user_workouts.py:13-36 | one 180 s, 210 W step saved under a name loads back as a plan of that name with that step |
| UserWorkouts.SaveListExample | tests/test_user_workouts.py:30-32 | the same workout is listed under its name |
| SessionStore.RecordOf | backend/workout/session_store.py:53-59 | a line gives at most one record, and one exactly when it holds a record |
| SessionStore.NewestFirstAppend | backend/workout/session_store.py:50-52 | reading lines in reverse: the later lines' records come first |
| SessionStore.NewestFirstLast | backend/workout/session_store.py:52-59 | a line appended last contributes its record first, or nothing for a blank or bad line |
| SessionStore.NewestFirstFromEntries | backend/workout/session_store.py:53-59 | every record read back comes from a record line of the store |
| SessionStore.Cap | backend/workout/session_store.py:60-61 | the cap is at least one and at least the limit |
| SessionStore.TakeCap | backend/workout/session_store.py:60-61 | the first records, as many as max(limit, 1) allows or all of them |
| SessionStore.LastAppendedFirst | tests/test_session_store.py:44-51 | the record appended last is the first one loaded, whatever the limit |
| SessionStore.SkippedLines | backend/workout/session_store.py:53-59 | a blank or malformed line changes nothing that is loaded |
| SessionStore.TwoSessionsExample | tests/test_session_store.py:44-51 | two sessions appended to an empty store load back with the later first |
| SessionStore.SessionFile.constructor | backend/workout/session_store.py:45-50 | the store as found: whether it exists and its lines |
| SessionStore.SessionFile.AppendSession | backend/workout/session_store.py:38-42 | the store exists afterwards; its old lines, or none for a new store, get one more line at the end, holding the record |
| SessionStore.RecentSessions | backend/workout/session_store.py:45-62 | reference definition of the recent-session listing, newest first; LoadRecentSessions computes it, and LastAppendedFirst, SkippedLines, TwoSessionsExample and TakeCap state its properties |
| SessionStore.SessionFile.LoadRecentSessions | backend/workout/session_store.py:45-62 | nothing from a missing store; otherwise exactly the newest records, capped by the limit |
| SessionStore.ReadOneMore | backend/workout/session_store.py:52-59 | reading one line further back appends its record, if it has one |
| SessionStore.ReadPrefix | backend/workout/session_store.py:60-62 | reading stops with all records short of the cap, or exactly the cap, and both are the capped newest records |
| SessionArtifacts.SnapshotFileName | backend/workout/session_artifacts.py:51 | the snapshot id followed by `.json` |
| SessionArtifacts.CsvFileName | backend/workout/session_artifacts.py:59 | the snapshot id followed by `.csv` |
| SessionArtifacts.FileNamesDistinct | backend/workout/session_artifacts.py:51-59 | a JSON file never has a CSV file's name, and two snapshots share a file name exactly when they share an id |
| SessionArtifacts.HeaderRow | backend/workout/session_artifacts.py:62-89 | one text cell per column name, in order |
| SessionArtifacts.HeaderLayout | tests/test_session_artifacts.py:59-60 | the header has 24 columns, `t_label` at 16 and `step_label` at 17 |
| SessionArtifacts.HeaderNamesDistinct | backend/workout/session_artifacts.py:62-89 | no column name appears twice |
| SessionArtifacts.DataRow | backend/workout/session_artifacts.py:91-117 | a data row has one cell per column |
| SessionArtifacts.SessionColumns | backend/workout/session_artifacts.py:93-100 | the first eight cells hold the snapshot fields their headers name |
| SessionArtifacts.AverageColumns | backend/workout/session_artifacts.py:101-108 | the next eight cells hold the snapshot fields their headers name |
| SessionArtifacts.PointColumns | backend/workout/session_artifacts.py:109-116 | the last eight cells hold the point fields their headers name, t_label before step_label |
| SessionArtifacts.RowMatchesHeader | backend/workout/session_artifacts.py:62-117 | every cell of a data row holds the field its column's header names |
| SessionArtifacts.RowsShareSummary | backend/workout/session_artifacts.py:91-110 | rows of one snapshot agree on cells 0–15; cell 16 is the point's t_label and cell 17 its step_label |
| SessionArtifacts.CsvRows | backend/workout/session_artifacts.py:62-118 | the header, then exactly one data row per point, in point order |
| SessionArtifacts.RowsRectangular | backend/workout/session_artifacts.py:62-118 | every row written has 24 cells |
| SessionArtifacts.CsvWriter.constructor | backend/workout/session_artifacts.py:60-61 | a file opened for writing starts with no rows |
| SessionArtifacts.CsvWriter.WriteRow | backend/workout/session_artifacts.py:62 | one more row at the end |
| SessionArtifacts.ExportSnapshotCsv | backend/workout/session_artifacts.py:56-119 | the `.csv` name, and a new writer holding exactly the file's rows |
| SessionArtifacts.RowsOfFile | backend/workout/session_artifacts.py:90-118 | rows holding the header and then each point's row, in order, are the file's rows |
| SessionArtifacts.ExportExample | tests/test_session_artifacts.py:57-61 | with one point labelled Warmup: two rows, cell 17 of row 1 is "Warmup", and the header has t_label and step_label at 16 and 17 |

## Left out

- Scanning, device resolution, the pairing retry in `connect` and the Bluetooth transport are not modelled, because they are library I/O. Their outcomes are oracle parameters: trainer reached, range read, notifications accepted, write replies.
- `probe_erg_support` is not modelled. It is a best-effort probe whose only effect is a write whose outcome is an oracle.
- `_simulation_loop` and the simulated metrics are not modelled, because they depend on a random generator, `math.sin` and timing. Only the deterministic target clamps of the simulated modes are modelled.
- asyncio tasks, sleeps, the 0.05 s write pacing and 1 s retry backoff are not modelled. Time becomes loop iterations, and the stop event becomes a flag seen from a given check on.
- Debug printing and `_handle_control_point_indication` are not modelled, because they only log.
- Floating-point values are exact real numbers. IEEE-754 rounding of `target * 0.95`, `ftp * intensity` and the like is not captured. Python's `round` is modelled as exact half-to-even rounding of the real.
- Manufacturer data keys that are not integers are not modelled: the advertisement's data is given by its integer company identifiers.
- Text handling is ASCII only. `strip` removes ASCII white space, `lower` lowers ASCII letters, and `_slugify`'s pattern is applied to ASCII letters and digits. There is no Unicode case mapping or Unicode white space.
- Python `int()` is abstracted to optional white space, an optional sign and ASCII digits. Underscores and non-ASCII digits are not accepted.
- Exception messages are reduced to error constructors naming the step and the field.
- JSON and CSV decoding and encoding are not modelled. A JSON document is given by its `name` and `steps` entries, a CSV file by its header names and rows, and a session-store line as blank, undecodable or a record.
- `UserWorkouts.JsonView` and `UserWorkouts.ListingView` state what decoding a saved payload gives back. That `json.loads(json.dumps(p))` is the identity is assumed, not proved.
- The workout file's suffix and stem are given as inputs. `Path.suffix` parsing is not modelled.
- The listing's glob and sort are abstracted: the files are given in sorted order, and paths are their names.
- The payload comprehension's `int()` of duration and target is the identity on the model's integer fields.
- `GameLayer.GoalTracker.CurrentGoal` returns a copy. The source hands out the live `GoalProgress` object, and mutations through that alias are not modelled.
- `Coaching.KeyDeterminesSignal` requires that neither quantity is both too low and too high. With an inverted band (min > max) the source can give two signals with the same dual key and different severities.
- Session store: a file whose last line has no newline, the directory creation, and `now_utc_iso` (a clock) are not modelled.
- `save_snapshot`'s JSON content is not modelled, only its file name. It is `asdict` of the snapshot, with no logic of its own.
- The UI modules, the engine, the CLI and the state dataclass are not part of this model. They are widget wiring, concurrency and argument parsing.
