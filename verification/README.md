# magpy in Dafny

A model of the core of `magpy`, the Python driver for Magstim transcranial
magnetic stimulators (Magstim 200², BiStim², Rapid²), and of the virtual
stimulator that ships with it. Both sides of the serial protocol are modelled
as pure functions over immutable datatypes, and the properties are proved
about them:

- **Frame codec** (`bytes.dfy`, `checksum.dfy`, `decimal.dfy`, `status.dfy`,
  `response.dfy`). It covers:
  - the checksum `calcCRC`;
  - zero-padded decimal fields and Python's `int()` on them;
  - the status bit unpacking;
  - the fixed-width parameter layouts that `parseMagstimResponse` selects by
    reply type and length.
- **Serial worker** (`framer.dfy`). It covers:
  - the read-length decision of `serialPortController.run`;
  - its directives: a command write, the RTS pin set and reset, and the close
    sentinel.
- **Keep-alive robot** (`robot.dfy`, module `Heartbeat`). This is
  `connectionRobot.run` as a transition function over `Msg`/`Tick` events,
  with time as an integer argument in milliseconds.
- **Command round trip and driver operations**. It covers:
  - `_processCommand`: the remote-control gate, reply classification, and
    robot signals (`command.dfy`);
  - the base `Magstim` and `BiStim` operations (`magstim.dfy`, module
    `Stimulator`);
  - the `Rapid` operations (`rapid.dfy`, module `RapidOps`);
  - `Rapid.isEnhanced` and `Rapid.setPower` (`rapid_power.dfy`).

  The serial worker and the robot run in other processes. The driver sees
  them through an environment: the replies it will receive come from an
  oracle sequence `Env.inbox`, and every frame, robot signal and sleep it
  produces is logged in `Env`.
- **Virtual stimulator** (`virtual.dfy`). This is `_processMessage` of
  `virtualMagstim`, `virtualBiStim` and `virtualRapid` as
  `(device, message, now) -> (device', reply)`.
- **Loopback** (`loopback.dfy`). These lemmas connect the two sides. The status
  byte the virtual device packs decodes to the same flags in the driver. Its
  replies pass the driver's checks. Its parameter replies parse back to the
  stored values. Its version reply is framed exactly as the serial worker
  reads it.

Conventions:
- Python exceptions become the outcome `Raised`.
- A read from an empty reply queue becomes `Blocked`.
- A bare `None` return (no receipt requested) becomes `Silent`.
- Caller-supplied values such as power, frequency and duration are exact
  rationals (`real`), so the `% 1` checks are exact.
- The YAML tables `MAX_FREQUENCY` and `JOULES` are injected as lookup
  functions in `RapidOps.Config`.

## Model

| member | source | states |
|---|---|---|
| Checksum.Crc | magpy/magstim.py:34-48 | The checksum byte is 255 minus the byte sum modulo 256, the one's complement of its low byte. |
| Checksum.Frame | magpy/magstim.py:414 | Framing appends exactly one byte, keeps the command as a prefix, and always yields a frame that passes the reply checksum test. |
| Checksum.CrcOkIffSum | magpy/magstim.py:432-433 | A frame passes the checksum test exactly when the sum of all its bytes, checksum included, is 255 modulo 256. |
| Checksum.SingleByteCorruptionDetected | magpy/magstim.py:432-433 | Changing any one byte of a frame that passes the checksum test makes it fail. |
| Checksum.FrameOfPair | magpy/magstim.py:36-41 | A two-byte command is framed with the complement of its byte sum, 255 minus the sum modulo 256, as its third byte. |
| Checksum.HeartbeatFrame | magpy/magstim.py:844-845 | The hard-coded keep-alive frames `x@G` (and `Q@n` of line 345) are exactly `x@` and `Q@` plus their checksum. |
| Decimal.FieldRoundTrip | magpy/magstim.py:516 | `int()` of `str(n).zfill(w)` gives back `n`, for every integer, negative ones included, and every width. |
| Decimal.FieldWidth | magpy/magstim.py:516 | A natural number's zero-padded field is all digits, and has exactly the requested width if and only if the number is below 10^width. |
| StatusBits.InstrRoundTrip | magpy/magstim.py:269-278 | Decoding bits 0..7 of a packed instrument status recovers every flag: standby, armed, ready, coilPresent, replaceCoil, errorPresent, errorType, remoteStatus. |
| StatusBits.InstrByteRoundTrip | magpy/_virtual.py:64-68 | Packing the flags decoded from any byte gives back that byte, so packing is the inverse of decoding on all 256 values. |
| StatusBits.RapidRoundTrip | magpy/magstim.py:283-292 | The rTMS status byte decodes enhancedPowerMode from bit 0 up to modifiedCoilAlgorithm at bit 7, recovering what the device packed. |
| StatusBits.RapidByteRoundTrip | magpy/_virtual.py:288-295 | Packing the decoded rTMS flags of any byte reproduces the byte. |
| StatusBits.PackBit | magpy/_virtual.py:64-68 | Shifting flags in order puts the i-th flag from the end at bit i. |
| StatusBits.PackEight | magpy/_virtual.py:64-68 | For eight flags, bit 7 holds the first flag and bit 0 the last. |
| Response.Parse | magpy/magstim.py:262-334 | The first data byte is the instrument status. A second status byte is consumed exactly for the instrRapid, rapidParam and systemRapid kinds. The payload's shape always matches the reply kind. A short reply yields no parse. |
| Response.ParsePayload | magpy/magstim.py:294-332 | Every payload parsed for a reply kind is that kind's field record. |
| Response.FieldsRoundTrip | magpy/magstim.py:294-316 | Slicing fixed-width decimal fields out of their concatenation recovers every value that fits its width. |
| Response.RapidFieldsV9 | magpy/magstim.py:305-310 | The 20-byte layout (widths 3,4,5,4,4) decodes power, frequency, nPulses, duration and wait as encoded. |
| Response.RapidFieldsOld | magpy/magstim.py:311-316 | The older layout (widths 3,4,4,3,3) decodes the five values as encoded. |
| Response.AtLeastIsTupleOrder | magpy/magstim.py:871-873 | `version >= (major,)` in Python tuple order is exactly "the major number is at least `major`". |
| Response.Above9IsTupleOrder | magpy/magstim.py:1273 | `version > (9,)` holds exactly for major versions above 9, or 9 followed by further parts. |
| Response.TupleLessTransitive | magpy/magstim.py:871-873 | The lexicographic tuple order used for version checks is transitive. |
| Framer.ReadReply | magpy/magstim.py:124-137 | A `?` first byte is the whole reply. An `N` reply runs through the first zero byte plus one checksum byte. An `S` or `?` second byte leaves one byte to read. Otherwise `readBytes` bytes, two at least, are read, and no length (`None`) is a read error once two ordinary bytes are in. The port has no read timeout, so any read past the bytes the device sends (a silent device, a lone byte, a short reply, an `N` reply with no zero) waits for good. Reply and rest always recompose the stream. |
| Framer.ExactLength | magpy/magstim.py:137 | A normal reply consumes exactly `readBytes` bytes and leaves the rest of the stream. |
| Framer.Serve | magpy/magstim.py:114-144 | A failed write posts code 1, and the missing read length code 2. A read that waits stops the worker with nothing posted. A reply is posted only when one was requested, and it is the bytes the framer read. |
| Framer.ReplyIgnoresLaterBytes | magpy/magstim.py:124-137 | Bytes the device sends after a complete reply do not change that reply. The next write flushes them (magpy/magstim.py:115-117), which is not modelled. |
| Framer.NothingAfterClose | magpy/magstim.py:105-106 | After the `None` directive no later job posts anything. |
| Framer.RtsIsSilent | magpy/magstim.py:108-112 | The RTS directives `1` and `-1` never post to the read queue. |
| Framer.AtMostOnePostingPerWrite | magpy/magstim.py:101-146 | The worker posts at most one reply per command written. |
| Heartbeat.Init | magpy/magstim.py:165-166 | The robot starts paused, with a valid latency. |
| Heartbeat.Step | magpy/magstim.py:180-225 | A poke is sent exactly when the robot is active and its deadline has passed. A stopped robot never changes. `None` stops it. Ticks before the deadline change nothing. Every message or poke re-arms the deadline one latency ahead. Latency stays 5000 or 500 ms. |
| Heartbeat.CommandsSuppressPokes | magpy/magstim.py:202-222 | Command signals arriving closer together than the shortest latency never let a poke through, and the robot stays active. |
| Heartbeat.OnePokePerDeadline | magpy/magstim.py:200-225 | Ticks within one latency after a passed deadline produce exactly one poke. |
| Heartbeat.NoPokeBeforeDeadline | magpy/magstim.py:202-204 | Ticks before the deadline produce no poke and leave the robot unchanged. |
| Heartbeat.PausedIsQuiet | magpy/magstim.py:183-195 | A paused robot never pokes on its own. |
| Heartbeat.StopIsFinal | magpy/magstim.py:196-198 | A stopped robot ignores every later event and never pokes. |
| Heartbeat.CommandSignal | magpy/magstim.py:435-441 | After a successful command the driver signals 1 exactly for `EA`, 2 exactly for `EB`, and 0 otherwise. |
| Heartbeat.SignalPace | magpy/magstim.py:214-221 | A command signal restarts the deadline without a poke; `EB` selects 0.5 s, `EA` 5 s, and other commands keep the latency. |
| Heartbeat.PausedSignals | magpy/magstim.py:183-195 | While paused, a value of 0 or more resumes the robot: 2 at 0.5 s, 1 at 5 s, any other value at the current pace. A negative value is ignored, and nothing pokes. |
| Heartbeat.ActiveSignals | magpy/magstim.py:204-222 | While active, -1 pauses the robot and resets the pace to 5 s. Any other value restarts the wait at the pace it selects. A poke goes out first only if the deadline had passed. |
| Heartbeat.PauseResetsPace | magpy/magstim.py:209-211 | A pause returns any active robot to its initial state. Resuming with 0 afterwards runs at the 5 s pace, whatever the pace before the pause. |
| Command.Classify | magpy/magstim.py:424-433 | Rejections come in order: 3 for a `?` first byte, 4 for a `?` second byte, 5 for `S`, 6 for a wrong echo, 7 for a bad checksum. An accepted reply echoes the tag and passes the checksum. |
| Command.Gate | magpy/magstim.py:412 | Without remote control, `EA` is the only `E` command that passes, so arming and firing are never sent, and the parameter query `\` passes exactly when its reply length is known. |
| Command.Notify | magpy/magstim.py:435-441 | When connected, exactly one robot signal is appended for an accepted command, and nothing else in the environment changes; when not connected, nothing is signalled. |
| Command.AcceptIff | magpy/magstim.py:424-433 | A reply is accepted if and only if it echoes the tag, has no `?` or `S` marker, and its checksum holds. |
| Command.CorruptReplyRejected | magpy/magstim.py:432-433 | Corrupting any single byte of an accepted reply makes it no longer accepted. |
| Command.Process | magpy/magstim.py:391-445 | Without remote control only Q, R, J, F, `EA`, and `\` once the reply length is known, pass the gate; anything else returns 8 with nothing sent. A passed command is framed and sent. Transport codes pass through. Rejections follow Classify. Success is signalled to the robot, and failure is not. |
| Stimulator.RemoteControl | magpy/magstim.py:447-463 | Sends `Q@` or `R@` framed, even without remote control. Without a receipt the result is a bare success. A successful receipt carries one status byte. |
| Stimulator.GetParameters | magpy/magstim.py:465-474 | A successful reply carries the power field of the model's layout, plus an rTMS status byte on a Rapid. |
| Stimulator.PriorPowerOfLayout | magpy/magstim.py:503-514 | The prior level exists exactly for a reply of the stimulator's own layout. It is power A for `@` and power B otherwise on a BiStim, and the single power field on the other models. |
| Stimulator.OffsetMillis | magpy/magstim.py:707-708 | The reported offset, converted back to the units `setPulseInterval` uses for the current resolution, is the field value. In high-resolution mode the field counts tenths of a millisecond. |
| Stimulator.BiStimGetParameters | magpy/magstim.py:697-708 | BiStim `getParameters` is the base `J@` query. An accepted reply carries BiStim fields and an offset rescaled by the resolution. Any other outcome reports no offset. |
| Stimulator.SettleDelay | magpy/magstim.py:519-524 | The settle time is 10 ms per unit of increase and 100 ms per unit of decrease, and zero only when the level is unchanged. |
| Stimulator.SettleAsymmetry | magpy/magstim.py:519-524 | Lowering the power by some amount takes ten times as long as raising it by the same amount. |
| Stimulator.PowerCommandFits | magpy/magstim.py:516 | Every accepted level 0..100 goes out as a four-byte command whose field parses back to the level. |
| Stimulator.CheckWhole | magpy/magstim.py:497-500 | A fractional value gives 11, an out-of-range whole value 13, and only whole values within 0..max pass. |
| Stimulator.Receipt | magpy/magstim.py:528 | A reply or an error code reaches the caller exactly when a receipt was asked for; without one the caller sees `None`, or the exception or blocked queue, which still propagate. |
| Stimulator.SetPower | magpy/magstim.py:476-528 | Checks come before anything is sent. Without a delay the only frame is the set command carrying the level. A settle time is slept only on request for a level that passed. Without a receipt no success is returned. |
| Stimulator.SetPowerSettled | magpy/magstim.py:502-526 | A failed parameter query returns 9 before anything is set. The settle time is slept only after the new level was accepted, and it is the time from the level the stimulator reported. |
| Stimulator.GetTemperature | magpy/magstim.py:530-543 | Sends `F@` (allowed without remote control), reading 9 bytes, and a successful reply holds the two coil temperatures. |
| Stimulator.Poke | magpy/magstim.py:545-558 | A silent poke while connected only signals 0 to the robot. Otherwise the already-checksummed keep-alive frame is sent and re-checksummed. A Magstim 200 or BiStim always sends `Q@n`. |
| Stimulator.Keepalive | magpy/magstim.py:843-846 | Only a Rapid given an unlock code switches its keep-alive to `x@G`. |
| Stimulator.RechecksumAppendsZero | magpy/magstim.py:558 | Re-checksumming a frame that already carries its checksum appends a zero byte. |
| Stimulator.Arm | magpy/magstim.py:560-588 | Without remote control arming returns 8 and sends nothing; with it `EB` is sent. The 1.1 s wait is slept on request unless the call raised or blocked. |
| Stimulator.Disarm | magpy/magstim.py:590-605 | `EA` is sent even without remote control, and without a receipt the result is a bare success. |
| Stimulator.Fire | magpy/magstim.py:628-645 | Firing without remote control returns 8 and changes nothing; with it `EH` is sent. |
| Stimulator.QuickFire | magpy/magstim.py:655-659 | Only the RTS-high directive is queued; by Framer.RtsIsSilent it never yields a reply. |
| Stimulator.ResetQuickFire | magpy/magstim.py:647-653 | Only the RTS-low directive is queued. |
| Stimulator.HighResolutionMode | magpy/magstim.py:673-695 | Needs remote control (else 8, nothing changes). `Y@` or `Z@` is sent, and the driver's mode flag follows only a successful reply. |
| Stimulator.SetPulseInterval | magpy/magstim.py:759-784 | A fractional interval gives 11, or 12 in high-resolution mode, where the interval counts tenths. Out of 0..999 gives 13. Anything sent is a `C` command whose three-digit field is the checked value. |
| Stimulator.IntervalReadsBack | magpy/magstim.py:774-776 | Every interval `setPulseInterval` accepts is reported back as the same number of milliseconds by `getParameters`, in either resolution. |
| Stimulator.Disconnect | magpy/magstim.py:373-389 | When connected: `EA`, then `R@`, then the close directive are sent; the robot hears 1, then -1, and last the stop; the driver ends disconnected. |
| RapidOps.ParamReplyLength | magpy/magstim.py:869-876 | The parameter reply is 24 bytes exactly from version 9, 22 exactly for versions 7 and 8, and 21 before. |
| RapidOps.ParamLayoutFollowsVersion | magpy/magstim.py:869-876 | A reply of the length the version selects leaves 20 field bytes, the 5-digit nPulses layout, exactly when the version is 9 or later. |
| RapidOps.ParamReplyRoundTrip | magpy/magstim.py:1168-1177 | On version 9 and later, a framed parameter reply is read whole by the serial worker and parses to the encoded rTMS values. |
| RapidOps.ParamReplyRead | magpy/magstim.py:124-137 | With the version 9 length, a parameter reply made of status bytes, 20 field bytes and its checksum is read whole, and the rest of the stream is left untouched. |
| RapidOps.ParamReplyParsed | magpy/magstim.py:262-334 | The data of a framed parameter reply parses to the instrument status, the rTMS status and the five encoded parameter values. |
| RapidOps.FramedReplyRead | magpy/magstim.py:124-137 | A framed reply of the expected length is read exactly, leaving the rest of the stream. |
| RapidOps.TruncDiv | magpy/magstim.py:1120 | Python's `int(a / b)` truncates toward zero: the quotient's magnitude is the largest that fits, and a nonzero quotient is positive exactly when both operands have the same sign. |
| RapidOps.GetVersion | magpy/magstim.py:858-877 | Sends `ND` and reads to the terminator. On success it stores the version and the reply length that version selects; otherwise the driver is unchanged. |
| RapidOps.RemoteCommand | magpy/magstim.py:988-1008 | The remote-control command carries the unlock code when one is set and enabling, and `@` otherwise. |
| RapidOps.RapidRemoteControl | magpy/magstim.py:988-1008 | Sends the Q/R command (always allowed) and clears the sequence validation. |
| RapidOps.GetSystemStatus | magpy/magstim.py:1326-1340 | Before version 9 it returns 15 and sends nothing. Otherwise `x@` is sent, and success carries both status bytes and the extended status. |
| RapidOps.GetChargeDelay | magpy/magstim.py:1259-1273 | Before version 9 it returns 15. `o@` reads 8 bytes above version 9 and 7 at 9, and success carries the delay. |
| RapidOps.SetChargeDelay | magpy/magstim.py:1228-1257 | Before version 9 it returns 15 and changes nothing. Otherwise validation is cleared, a fractional delay gives 11 with nothing sent, and a whole delay goes out as `n` with 5 digits from version 10, else 4. |
| RapidOps.ChargeDelayFits | magpy/magstim.py:1255 | Every delay the device accepts (0..10000 from version 10, else 0..2000) fits its field and parses back. |
| RapidOps.Reread | magpy/magstim.py:1077-1084 | The re-read goes on exactly when the parameter query succeeds, and a failed query ends the call with 9. |
| RapidOps.DerivedPulsesTruncates | magpy/magstim.py:1080 | The follow-up count is the exact pulse count of duration times frequency, both in tenths, truncated toward zero. |
| RapidOps.DurationUnits | magpy/magstim.py:1120 | As written, the follow-up duration is the train's length in whole seconds, the largest whole count of seconds within the train. Corrected, it is the largest whole count of tenths, the unit of the `[` field as `setDuration` uses it. |
| RapidOps.DurationAsWrittenShortensTrain | magpy/magstim.py:1120 | For every positive pulse count and frequency, the duration sent as written lets the device derive at most a tenth of the pulses that were set, and so strictly fewer (see Findings). |
| RapidOps.DurationKeepsPulses | magpy/magstim.py:1080 | Reading back the corrected duration never implies more pulses than were set. It gives exactly the count when the train lasts a whole number of tenths. |
| RapidOps.FollowWithPulses | magpy/magstim.py:1077-1084 | After a successful re-read `D` is sent with `int(duration*frequency)` in 5 digits from version 9, else 4. A failed follow-up ends with 10. |
| RapidOps.FollowWithDuration | magpy/magstim.py:1117-1124 | After a successful re-read `[` is sent with `int(nPulses / frequency)`, the train's length in whole seconds, as written (in tenths when corrected; see Findings). A zero frequency raises. A failed re-read ends with 9 and a failed follow-up with 10. |
| RapidOps.SendDuration | magpy/magstim.py:1117-1124 | The `[` frame of the follow-up is sent, with a receipt only when one was asked for, and a refusal ends with 10. |
| RapidOps.SendThenPulses | magpy/magstim.py:1075-1086 | The set command is the first frame sent, and every failure carries a non-zero code. |
| RapidOps.CheckTenths | magpy/magstim.py:1149-1154 | A value not a whole number of tenths gives 12, a whole number of tenths outside 0..max gives 13, and only whole tenths within 0..max pass. |
| RapidOps.MaxDuration | magpy/magstim.py:1153 | The longest duration is one below a power of ten: 4 digits from version 9, 3 before. |
| RapidOps.MaxDurationFillsField | magpy/magstim.py:1153-1156 | A duration fits the `[` field of its version exactly when it is at most the longest duration. |
| RapidOps.SetFrequency | magpy/magstim.py:1039-1086 | Validation is always cleared, and a frequency that is not in whole tenths returns 12 with nothing sent. |
| RapidOps.FrequencyRangeChecked | magpy/magstim.py:1066-1075 | After a successful parameter read, a frequency within 0..the power's maximum is sent as `B` in tenths; anything else returns 13 after only the query. |
| RapidOps.SetDuration | magpy/magstim.py:1128-1166 | Validation is cleared. A failed tenths or range check (999, or 9999 from version 9) returns its code with nothing sent. Otherwise `[` with the duration in tenths is sent first. |
| RapidOps.DurationFits | magpy/magstim.py:1149-1156 | Every accepted duration fills its 3- or 4-digit field and parses back to its tenths. |
| RapidOps.SetNPulses | magpy/magstim.py:1088-1126 | Validation is cleared, and a fractional or out-of-range (0..6000) count returns 11 or 13 with nothing sent. Without a receipt, success is not reported. |
| RapidOps.AfterPulses | magpy/magstim.py:1115-1126 | Once `D` is accepted, the outcome and the frames added are those of the duration follow-up, and the driver state is unchanged. |
| RapidOps.NPulsesFollowUp | magpy/magstim.py:1115-1124 | Once `D` is accepted and the re-read frequency is nonzero, the last frame sent is `[` with the train's length in whole seconds as written, and in tenths by `RapidOps.SetNPulsesCorrected`. |
| RapidOps.SetNPulsesCorrected | magpy/magstim.py:1088-1126 | The checks and the `D` frame of `setNPulses`, with the follow-up duration corrected to tenths. |
| RapidOps.NPulsesSent | magpy/magstim.py:1109-1115 | An accepted count is sent first as `D` with its value. |
| RapidOps.PulsesFit | magpy/magstim.py:1109-1115 | Every count 0..6000 fills its 4- or 5-digit field and parses back. |
| RapidOps.EnsureFrequency | magpy/magstim.py:958-965 | After switching to rTMS, a zero frequency is set to 1 Hz (`B0010`); a nonzero one is left alone. A failed update ends with 10. |
| RapidOps.Toggled | magpy/magstim.py:957-967 | After an accepted toggle, the repetitive flag takes the requested value. Anything sent afterwards only extends the log. With receipt off, no result is returned. |
| RapidOps.SwitchMode | magpy/magstim.py:950-967 | The toggle command `[` with duration 1 or 0 is sent first, and only the repetitive flag can change. |
| RapidOps.RTMSMode | magpy/magstim.py:923-969 | Validation is always cleared, and only the repetitive flag may change besides. |
| RapidOps.RTMSModeAnswersOrSwitches | magpy/magstim.py:941-954 | If the device is already in the requested mode the call answers with the status and changes nothing; otherwise the toggle is sent. |
| RapidOps.ModeFlagFollowsDevice | magpy/magstim.py:954-967 | The driver's repetitive flag changes only if the device accepted the toggle. |
| RapidOps.MaxOnTime | magpy/magstim.py:829-831 | The on-time bound 63000/(frequency*joules) exists exactly when the joules entry exists and neither factor is zero. |
| RapidOps.WithinOnTime | magpy/magstim.py:1320 | A train whose maximum on-time cannot be computed (zero frequency, or no energy for its power) never passes. |
| RapidOps.WithinOnTimeIsEnergyBudget | magpy/magstim.py:1320 | With a positive rate and pulse energy, a train is within budget exactly when the energy of its first minute is at most 63 kJ. |
| RapidOps.ValidateSequence | magpy/magstim.py:1306-1324 | The flag is set exactly when the call succeeds. A failed read gives 9. After a successful read, success holds exactly when min(duration, 60 s) is within the on-time bound. |
| RapidOps.OverBudgetIs18 | magpy/magstim.py:1320-1321 | A sequence fails with 18 exactly when the bound exists and the train exceeds it. |
| RapidOps.ShorterTrainStaysValid | magpy/magstim.py:1320 | Shortening a valid train keeps it valid. |
| RapidOps.LongTrainsJudgedAtOneMinute | magpy/magstim.py:1320 | All trains of one minute or longer are judged alike. |
| RapidOps.SequenceLocked | magpy/magstim.py:1292 | Only a repetitive train with the energy safety on can be locked. |
| RapidOps.ValidationUnlocks | magpy/magstim.py:1306-1324 | After a successful validation the next `fire` is not locked and sends `EH`. |
| RapidOps.RapidFire | magpy/magstim.py:1275-1295 | In repetitive mode with safety enforced and no validation, firing returns 16 and sends nothing; otherwise `EH` is sent when connected. |
| RapidOps.RapidQuickFire | magpy/magstim.py:1297-1304 | The same lock returns 16; otherwise only the RTS-high directive is queued. |
| RapidOps.RapidDisconnect | magpy/magstim.py:912-921 | The validation and repetitive flags are cleared, and a disconnect that completes leaves the driver disconnected. |
| RapidPower.QueryCommand | magpy/magstim.py:842-846 | Without an unlock code the status query stays the base one of line 346, remote-control enable with a receipt, which sends `Q@` and clears validation; with a code it is getSystemStatus and leaves the driver state alone. |
| RapidPower.ReadEnhanced | magpy/magstim.py:1032-1037 | An error reads as "not enhanced". A reply with an rTMS byte reads its enhancedPowerMode bit. A reply without one raises. |
| RapidPower.IsEnhancedAsWritten | magpy/magstim.py:1032-1037 | As written, without an unlock code every successful query raises, because a remote-control reply has no rTMS status. |
| RapidPower.IsEnhancedAsWrittenRaises | magpy/magstim.py:1032-1037 | A concrete accepted `Q` reply from which the as-written query raises. |
| RapidPower.IsEnhanced | magpy/magstim.py:1032-1037 | The corrected query reads the enhanced bit from the parameter reply, reads an error as "not enhanced", and blocks exactly when the query does. |
| RapidPower.IsEnhancedReadsFlag | magpy/magstim.py:1032-1037 | For any parameter reply, the corrected query answers bit 0 of its rTMS status byte. |
| RapidPower.CapAsWritten | magpy/magstim.py:1220-1222 | As written, an error tuple from the frequency cap is ignored, and a bare `None`, whether from a success or from a refused `B`, cannot be indexed and raises. |
| RapidPower.CapAsWrittenMisreads | magpy/magstim.py:1220-1222 | As written, the cap never reports 10: an error tuple (9, 10, 12, 13) from setFrequency is ignored, and a refused `B` returns `None` and raises, like a success. |
| RapidPower.Cap | magpy/magstim.py:1220-1222 | The corrected cap goes on exactly after success and reports 10 for every failure. |
| RapidPower.CapReportsFailure | magpy/magstim.py:1220-1222 | With a receipt, the corrected cap reports 10 if and only if setFrequency failed. |
| RapidPower.PowerTail | magpy/magstim.py:1214-1226 | The driver state is unchanged, and without a receipt no success is returned. |
| RapidPower.SetPowerAsWritten | magpy/magstim.py:1179-1226 | As written, sequence validation is always cleared. |
| RapidPower.EnhancedLevelsRefusedAsWritten | magpy/magstim.py:1203-1214 | As written, an enhanced unit asked for 101..110 gets 13 from the base class's 0..100 check, and only the status query is sent. |
| RapidPower.SetPowerRapid | magpy/magstim.py:1179-1226 | Validation is cleared, and a level failing the check against 110 (enhanced) or 100 returns its code after only the query. |
| RapidPower.EnhancedLevelsSent | magpy/magstim.py:1203-1214 | When enhanced, the corrected call checks against 110 and sends every level 0..110 as an `@` command. |
| RapidPower.ParameterChangesRelock | magpy/magstim.py:1306-1309 | Setting the frequency, duration, pulse count or power of a repetitive train with safety on leaves firing locked until the next validation, whatever the outcome. |
| Virtual.Latest | magpy/_virtual.py:90 | `max` of two timestamps, with "never" below every time. |
| Virtual.Fresh | magpy/_virtual.py:35-52 | A new device is in standby with a coil, not armed or ready, not under remote control, at power 30, never armed or fired. A Rapid is in single-pulse mode, not enhanced, with the plus1 flag set for a super Rapid above 1. |
| Virtual.Answer | magpy/_virtual.py:158-159 | Every reply is the tag, the data and its checksum, passes the checksum test, and carries exactly the data between tag and checksum. |
| Virtual.Disarm | magpy/_virtual.py:74-77 | Disarming forces standby and clears armed and ready, keeping remote status and the coil. |
| Virtual.FiredUnitWaitsForGap | magpy/_virtual.py:79-95 | An armed unit that has fired becomes ready exactly when over a second has passed since arming and its fire gap since the last pulse (2, 3 or 4 s by power on a 200, `wait` s on a Rapid, per lines 79-85 and 315-316); before that nothing changes. |
| Virtual.GapGrowsWithPower | magpy/_virtual.py:79-85 | On a 200 the gap between pulses lies in 2..4 s and never falls as the power rises. |
| Virtual.Settle | magpy/_virtual.py:88-95 | Armed or ready for over a minute since arming or firing drops to standby. Armed for over a second and clear to fire becomes ready. Nothing else changes. |
| Virtual.ReadSetting | magpy/_virtual.py:127-135 | A set value is unreadable exactly when `int()` fails, and accepted exactly when it is in range. |
| Virtual.SetLevel | magpy/_virtual.py:126-135 | An accepted level is stored and answered with the prior status. Unreadable data gets `?` and an out-of-range level gets `S`, with power unchanged. |
| Virtual.BaseStep | magpy/_virtual.py:87-159 | Every reply echoes the tag with a valid checksum, or is a bare `?`. A command with a bad checksum gets `?` as data. |
| Virtual.ArmOrFire | magpy/_virtual.py:137-148 | With remote control, `E` answers the status from before the change, or `S` with nothing changed. Only `EB` from standby starts the arming clock, and only `EH` when ready fires. |
| Virtual.SetOffset | magpy/_virtual.py:210-224 | As written, offset 0 is stored only in standby but always answered `S`; 1..999 is stored and answered with the status. |
| Virtual.BiStimOwn | magpy/_virtual.py:187-235 | `A` sets powerB under remote control; without remote control `A`, `Y`, `Z` and `C` are answered `S` and nothing changes. |
| Virtual.BiStimStep | magpy/_virtual.py:187-238 | Every BiStim reply echoes the command's tag with a valid checksum, or is a bare `?`. |
| Virtual.RapidRemote | magpy/_virtual.py:355-438 | `@` accepts 0..110 when enhanced and 0..100 otherwise. `n` stores a delay in 0..10000 from version 10, else 0..2000, and any other `n` changes nothing. |
| Virtual.RapidOwn | magpy/_virtual.py:336-440 | Unknown tags get a bare `?`. From version 9 a `Q` without the secret code gets no reply; otherwise `Q` takes remote control and reports it. `I` is always answered `S`. |
| Virtual.RapidStep | magpy/_virtual.py:324-450 | Without remote control only Q, R, F and `\` get any reply, and every reply echoes the tag. |
| Virtual.Respond | magpy/_virtual.py:158-159 | Whatever the unit, any reply echoes the command's tag with a valid checksum, or is a bare `?`. |
| Virtual.RemoteOn | magpy/_virtual.py:101-103 | `Q` sets remote control and reports the new status, which decodes with remoteStatus set. |
| Virtual.RemoteOff | magpy/_virtual.py:104-109 | `R` clears remote control and disarms, and reports the status from before the disarm. |
| Virtual.ArmFromStandby | magpy/_virtual.py:138-142 | `EB` in standby under remote control arms the device, stamps the arming time, and reports the prior standby status. |
| Virtual.FireFromReady | magpy/_virtual.py:143-146 | `EH` when ready fires: armed, not ready, and the firing time is stamped. |
| Virtual.ConflictsChangeNothing | magpy/_virtual.py:124-150 | `@` or `E` without remote control, and `E` commands not allowed in the current state, are answered `S` and change only the timed updates. |
| Virtual.BasePowerLevels | magpy/_virtual.py:126-135 | `@` under remote control stores 0..100, answers `?` for unreadable data and `S` otherwise. |
| Virtual.ReadyAfterOneSecond | magpy/_virtual.py:93-95 | A Magstim 200 armed at t and never fired becomes ready after t+1 s, within the minute. |
| Virtual.StandbyAfterOneMinute | magpy/_virtual.py:90-91 | A device armed or ready drops to standby a minute after its last arming or firing. |
| Virtual.RapidNeedsSecret | magpy/_virtual.py:341-343 | From version 9 a Rapid ignores a `Q` without the secret unlock code. |
| Virtual.RapidRefusesJ | magpy/_virtual.py:330-336 | A Rapid under remote control answers `J` with a bare `?`. |
| Virtual.RapidPowerLevels | magpy/_virtual.py:363-372 | A Rapid stores levels up to 100, and up to 110 only in enhanced mode; others get `S`. |
| Virtual.RapidVersionReply | magpy/_virtual.py:357-359 | `ND` is answered with the version digits and a zero byte. |
| Virtual.RapidChargeDelay | magpy/_virtual.py:382-391 | `n` after version 9 stores a delay within the version's limit and otherwise answers `S`. |
| Virtual.RapidErrorCodeRefused | magpy/_virtual.py:352-353 | `I` is always answered `S`. |
| Loopback.HealthyStatusIsNoMarker | magpy/_virtual.py:64-68 | A status without error flags never packs to the `?` or `S` marker bytes. |
| Loopback.AnswerAccepted | magpy/magstim.py:424-433 | Every device reply starting with a healthy status is accepted by the driver's checks. |
| Loopback.RefusalCodes | magpy/magstim.py:424-429 | The device's bare `?`, `?` data and `S` data reach the driver as 3, 4 and 5. |
| Loopback.StatusSeen | magpy/magstim.py:269-278 | The driver decodes exactly the instrument status the device packed. |
| Loopback.PowerLoopback | magpy/_virtual.py:126-135 | A power command the driver builds for 0..100 is stored by a Magstim 200 under remote control, and its reply is accepted and parsed to the device's status. |
| Loopback.MagstimParamsLoopback | magpy/_virtual.py:58-59 | The device's parameter reply parses in the driver to the stored power. |
| Loopback.BiStimParamsLoopback | magpy/_virtual.py:184-185 | The BiStim parameter reply parses to the stored powerA, powerB and offset. |
| Loopback.CoilTempLoopback | magpy/_virtual.py:61-62 | The coil temperature reply parses to the two stored temperatures. |
| Loopback.RapidParamsAnswer | magpy/_virtual.py:348-350 | `\@` is answered with both status bytes and the five parameters. |
| Loopback.RapidParamsLoopback | magpy/_virtual.py:318-319 | The Rapid parameter reply parses to the stored values and the rTMS status the device packed. |
| Loopback.EnhancedLevelsTakenByDevice | magpy/_virtual.py:369 | An enhanced Rapid stores every level 0..110 the driver's power command carries. |
| Loopback.VersionDigitsNonZero | magpy/_virtual.py:359 | The version digits never contain a zero byte, so the device's zero byte is the first one. |
| Loopback.VersionReplyFramed | magpy/magstim.py:126-130 | The serial worker reads the device's version reply exactly up to the terminator and its checksum. |
| Loopback.ExtendedStatusReadFromHighByte | magpy/magstim.py:322-326 | The driver decodes the extended status from the device's first (always zero) extended byte, so the plus1 flag, at bit 7 of the second, is never seen. |

## Left out

- Processes, threads and queues (magpy/magstim.py:53-99, 151-171, 336-389): they are replaced by the environment `Env`. The serial port configuration and flushing are not modelled. The port is opened with a write timeout only (magpy/magstim.py:83-96), and a read that waits is modelled as the worker stopping (`Framer.Starved`). Exceptions pyserial raises by itself, such as a lost port, are not modelled, so code 2 comes only from the missing read length, and neither is the virtual port controller (magpy/_virtual.py:452-513).
- Wall-clock time: sleeps are logged, not taken. The virtual device's one-second `threading.Timer` remote-control expiry and its resets (magpy/_virtual.py:54-56, 153-157) are not modelled, so remote control lasts until `R`.
- YAML loading of `MAX_FREQUENCY` and `JOULES`: both are injected lookups.
- Floating point: values are exact rationals. Frequency, duration and wait are kept in integer tenths, and the `validateSequence` bound is exact.
- `getRapidMinWaitTime` and `getRapidMaxContinuousOperationFrequency` are not modelled: they are unused.
- Python 2/3 string-versus-bytes differences: all frames are byte sequences, and one `calcCRC` is modelled.
- Virtual branches that fail in Python are modelled as a crash (`Crashed`):
  - `o` (`int.zfill`);
  - `^`/`_` in standby (`_getRapidStatus` is undefined);
  - `B`, `D` and `[` (`_params['singlePulseMode']` is missing).
- The dead `EA` test on the reply data (magpy/_virtual.py:121) is modelled as never true.
- No round trip is claimed for the version number: the driver splits on `.` while the device sends undotted digits.
- `connect` and its process lifecycle are not modelled.
- `isArmed`, `isUnderControl`, `isReadyToFire`, `getErrorCode`, `ignoreCoilSafetySwitch`, `enhancedPowerMode`, `setPowerA` and `setPowerB` (magpy/magstim.py:607-626, 710-757, 879-888, 971-1030) have no separate members. The two BiStim power calls are `Stimulator.SetPower` with the tag `@` or `A`.
- Error 14 (`_version is None`) is not modelled: `_version` is always a tuple.
- `int()` accepting underscores between digits is not modelled.
- RapidOps.SetFrequency: its contract covers only the precision check. The range check and the frame sent are stated by `RapidOps.FrequencyRangeChecked`, and the follow-up by `RapidOps.FollowWithPulses`.
- RapidOps.SetNPulses: the frame sent is stated by `RapidOps.NPulsesSent` and the follow-up by `RapidOps.NPulsesFollowUp` and `RapidOps.FollowWithDuration`.
- RapidOps.SetNPulsesCorrected: like `RapidOps.SetNPulses`, its own contract states only the checks; the corrected follow-up is stated by `RapidOps.NPulsesFollowUp`.
- RapidOps.RTMSMode: its contract states only the flags; the mode check and the toggle are in `RapidOps.RTMSModeAnswersOrSwitches` and `RapidOps.EnsureFrequency`.
- RapidPower.PowerTail: it states only the driver state and the receipt rule; its steps are stated by `RapidOps.Reread`, `RapidOps.FrequencyRangeChecked` and `RapidPower.Cap`.
- RapidPower.SetPowerAsWritten: it states only that validation is cleared. The behaviour that matters is in `RapidPower.EnhancedLevelsRefusedAsWritten`.
- RapidOps.RapidDisconnect: its contract omits the frames and signals of the base disconnect, which `Stimulator.Disconnect` states.
- Virtual.BiStimStep and Virtual.Respond: they state only the reply shape; the per-command effects are stated by `Virtual.BiStimOwn`, `Virtual.RapidOwn` and the other lemmas.

## Findings

| source | as written | input that shows it | evidently intended | confidence | as-written member | corrected member |
|---|---|---|---|---|---|---|
| magpy/magstim.py:1032-1037 | Without an unlock code, `isEnhanced` reads `['rapid']` from the reply of `remoteControl`, which parses as `instr` only, so the lookup raises `KeyError`. | A Rapid with no unlock code whose `Q@` is answered `Q` + status + checksum. | Read the enhancedPowerMode bit from a reply that carries the rTMS status, such as the parameter query. | medium, not executed | RapidPower.IsEnhancedAsWrittenRaises | RapidPower.IsEnhancedReadsFlag |
| magpy/magstim.py:1203-1214 | `Rapid.setPower` allows 0..110 in enhanced mode, then calls the base `setPower`, which refuses anything above 100 with 13. | An enhanced Rapid asked for power 105. | Levels 101..110 are sent when enhanced power mode is on, as the virtual Rapid accepts them (Loopback.EnhancedLevelsTakenByDevice). | high, not executed | RapidPower.EnhancedLevelsRefusedAsWritten | RapidPower.EnhancedLevelsSent |
| magpy/magstim.py:1220-1222 | `if not self.setFrequency(maxFrequency)[0]` indexes the result of a call made without a receipt. That result is a bare `None` on success, and on a refused `B` (magpy/magstim.py:1077-1086), so indexing raises; an error tuple (9, 10, 12, 13), whose code is non-zero, is ignored. | A Rapid whose frequency is above the new power's maximum and whose reduction succeeds. | Request a receipt and return 10 when the reduction fails. | high, not executed | RapidPower.CapAsWrittenMisreads | RapidPower.CapReportsFailure |
| magpy/magstim.py:1120 | The follow-up of `setNPulses` sends `int(nPulses / frequency)`, a length in whole seconds, as the `[` duration, which counts tenths of a second (`setDuration` multiplies by 10 before sending `[`, and `getParameters` divides the field by 10). | 100 pulses at 10 Hz: `[0010` is sent, a one-second train of 10 pulses. | Send the length in tenths, `int(nPulses / frequency * 10)`. | medium, not executed | RapidOps.SetNPulses, RapidOps.DurationAsWrittenShortensTrain | RapidOps.SetNPulsesCorrected, RapidOps.DurationKeepsPulses |
