/** The operations of the `Magstim` base class and of `BiStim`
    (magpy/magstim.py:446-784) over the command round trip. */
module Stimulator {
  import opened Bytes
  import opened Decimal
  import opened Checksum
  import opened Response
  import opened Framer
  import opened Heartbeat
  import opened Command

  /** A driver call: its outcome, the driver's state after it, and the queues. */
  datatype Result = Result(out: Outcome, engine: Engine, env: Env)

  /** `(error, message) if receipt else None`, where exceptions and a blocked
      queue still propagate. */
  function Receipt(o: Outcome, receipt: bool): (r: Outcome)
    ensures o.Raised? || o.Blocked? ==> r == o
    ensures !(o.Raised? || o.Blocked?) ==> r == (if receipt then o else Silent)
    // a reply or an error code reaches the caller only with a receipt
    ensures r.Ok? <==> receipt && o.Ok?
    ensures r.Fail? <==> receipt && o.Fail?
    ensures !receipt ==> r.Silent? || r.Raised? || r.Blocked?
  {
    if o.Raised? || o.Blocked? || receipt then o else Silent
  }

  function InstrIf(receipt: bool): Option<ReplyKind> {
    if receipt then Some(Instr) else None
  }

  /** `remoteControl` of the base class: `Q@` or `R@`. */
  function RemoteControl(e: Engine, env: Env, enable: bool, receipt: bool): (x: Exchange)
    // Q and R pass the gate even without remote control
    ensures x.env.sent == env.sent + [Write(Frame([if enable then TAG_Q else TAG_R, AT]), receipt, Some(3))]
    ensures !receipt ==> x.out == Ok(None)
    ensures receipt && x.out.Ok? ==> x.out.reply.Some? && x.out.reply.value.Status? && x.out.reply.value.rapidByte.None?
  {
    Process(e, env, [if enable then TAG_Q else TAG_R, AT], InstrIf(receipt), Some(3))
  }

  /** The parameter query of each model: Rapid `\\@` with the reply length
      its software version implies, otherwise `J@` with 12 bytes. */
  datatype Query = Query(cmd: Bytes, kind: ReplyKind, readBytes: Option<int>)

  function ParamQuery(e: Engine): (q: Query)
    ensures e.model == Rapid ==> q == Query([TAG_BACKSLASH, AT], RapidParam, e.paramBytes)
    ensures e.model == BiStim ==> q == Query([TAG_J, AT], BistimParam, Some(12))
    ensures e.model == Magstim200 ==> q == Query([TAG_J, AT], MagstimParam, Some(12))
  {
    match e.model
    case Rapid => Query([TAG_BACKSLASH, AT], RapidParam, e.paramBytes)
    case BiStim => Query([TAG_J, AT], BistimParam, Some(12))
    case Magstim200 => Query([TAG_J, AT], MagstimParam, Some(12))
  }

  /** `getParameters`: a successful reply carries the parameter fields of the
      stimulator's own model. */
  function GetParameters(e: Engine, env: Env): (x: Exchange)
    ensures x.out.Ok? ==>
      x.out.reply.Some? && x.out.reply.value.Status? &&
      PriorPower(e.model, AT, x.out.reply.value.payload).Some? &&
      (e.model == Rapid ==> x.out.reply.value.rapidByte.Some?)
    ensures x.env.sleeps == env.sleeps && Extends(x.env.sent, env.sent)
  {
    var q := ParamQuery(e);
    Process(e, env, q.cmd, Some(q.kind), q.readBytes)
  }

  /** The power level a parameter reply reports for the channel set by `tag`:
      power A for `@`, power B for `A` on a BiStim. */
  function PriorPower(model: Model, tag: Byte, p: Payload): Option<int> {
    match model
    case BiStim => if p.BistimFields? then Some(if tag == AT then p.powerA else p.powerB) else None
    case Rapid => if p.RapidFields? then Some(p.power) else None
    case Magstim200 => if p.MagstimFields? then Some(p.power) else None
  }

  /** Only a reply of the stimulator's own layout has a level to report: the
      channel's power on a BiStim, the single power field otherwise. */
  lemma PriorPowerOfLayout(model: Model, tag: Byte, p: Payload)
    ensures var r := PriorPower(model, tag, p);
      (r.Some? <==> (model == BiStim && p.BistimFields?) || (model == Rapid && p.RapidFields?) ||
                    (model == Magstim200 && p.MagstimFields?)) &&
      (r.Some? && model == BiStim ==> r.value == (if tag == AT then p.powerA else p.powerB)) &&
      (r.Some? && model != BiStim ==> r.value == p.power)
  {
  }

  /** The settle time after a power change: 10 ms per unit up, 100 ms per unit
      down (magpy/magstim.py:519-524). */
  function SettleDelay(prior: int, power: int): (ms: int)
    ensures ms >= 0
    ensures ms == 0 <==> prior == power
    ensures power > prior ==> ms == 10 * (power - prior)
    ensures power <= prior ==> ms == 100 * (prior - power)
  {
    if power > prior then (power - prior) * 10 else (prior - power) * 100
  }

  /** Lowering the power by some amount takes ten times as long to settle as
      raising it by the same amount. */
  lemma SettleAsymmetry(a: int, b: int)
    requires a < b
    ensures SettleDelay(b, a) == 10 * SettleDelay(a, b)
  {
  }

  /** The set-power command: tag, then the level in three digits. */
  function PowerCommand(tag: Byte, power: int): Bytes {
    [tag] + Field(power, 3)
  }

  /** Every power the driver accepts travels as exactly three digits that read
      back as that power. */
  lemma PowerCommandFits(tag: Byte, power: int)
    requires 0 <= power <= 100
    ensures |PowerCommand(tag, power)| == 4
    ensures ParseInt(PowerCommand(tag, power)[1..]) == Some(power)
  {
    FieldWidth(power, 3);
    assert PowerCommand(tag, power)[1..] == Field(power, 3);
    FieldRoundTrip(power, 3);
  }

  /** The argument checks of `setPower` and of the Rapid's `setNPulses`: a
      fractional value returns 11, one outside `0..max` returns 13. */
  function CheckWhole(power: real, max: int): (r: Option<int>)
    ensures r.None? <==> IsWhole(power) && 0.0 <= power <= max as real
    ensures r == Some(PARAMETER_FLOAT_ERR) <==> !IsWhole(power)
    ensures r == Some(PARAMETER_RANGE_ERR) <==> IsWhole(power) && !(0.0 <= power <= max as real)
  {
    if !IsWhole(power) then Some(PARAMETER_FLOAT_ERR)
    else if !(0.0 <= power <= max as real) then Some(PARAMETER_RANGE_ERR)
    else None
  }

  /** The prior level a posting reports, read as `setPower` reads it. */
  function ReportedPower(e: Engine, tag: Byte, p: Posting): Option<int> {
    var parsed := Parse(Inner(p.data), ParamQuery(e).kind);
    if parsed.Some? && parsed.value.Status? then PriorPower(e.model, tag, parsed.value.payload) else None
  }

  /** `setPower(newPower, receipt, delay, _commandByte)` of the base class;
      `tag` is `@` (power A) or `A` (BiStim power B), and `max` is the upper
      bound of its range check, 100 in the driver. */
  function SetPower(e: Engine, env: Env, power: real, receipt: bool, delay: bool, tag: Byte, max: int): (r: Result)
    ensures r.engine == e
    // the argument checks come first and send nothing
    ensures CheckWhole(power, max).Some? ==> r == Result(Fail(CheckWhole(power, max).value), e, env)
    // without a delay the only frame is the set command, carrying the level
    ensures CheckWhole(power, max).None? && !delay ==>
      r.env.sent == env.sent + (if Gate(e, PowerCommand(tag, power.Floor)) then [Write(Frame(PowerCommand(tag, power.Floor)), receipt, Some(3))] else []) &&
      r.env.sleeps == env.sleeps
    // a settle time is slept only on request, for a level that passed the checks
    ensures |r.env.sleeps| > |env.sleeps| ==> delay && CheckWhole(power, max).None?
    ensures !receipt ==> !r.out.Ok?
  {
    var c := CheckWhole(power, max);
    if c.Some? then Result(Fail(c.value), e, env)
    else if delay then SetPowerSettled(e, env, power.Floor, receipt, tag)
    else
      var s := Process(e, env, PowerCommand(tag, power.Floor), InstrIf(receipt), Some(3));
      Result(Receipt(s.out, receipt), e, s.env)
  }

  /** The `delay` path of `setPower`: read the prior level, send the new one
      with a receipt, and sleep the settle time once it is accepted. */
  function SetPowerSettled(e: Engine, env: Env, level: int, receipt: bool, tag: Byte): (r: Result)
    ensures r.engine == e
    // a failed parameter query aborts with 9 before anything is set
    ensures Gate(e, ParamQuery(e).cmd) && |env.inbox| > 0 && env.inbox[0].code != 0 ==>
      r.out == Fail(PARAMETER_ACQUISTION_ERR) &&
      r.env.sent == env.sent + [Write(Frame(ParamQuery(e).cmd), true, ParamQuery(e).readBytes)]
    // the settle time is slept only once the new level was accepted, and it is
    // the time from the level the stimulator reported
    ensures |r.env.sleeps| > |env.sleeps| ==>
      |env.inbox| >= 2 && env.inbox[1].code == 0 && ReportedPower(e, tag, env.inbox[0]).Some? &&
      r.env.sleeps == env.sleeps + [SettleDelay(ReportedPower(e, tag, env.inbox[0]).value, level)] &&
      r.env.sent == env.sent + [Write(Frame(ParamQuery(e).cmd), true, ParamQuery(e).readBytes),
                                Write(Frame(PowerCommand(tag, level)), true, Some(3))]
    ensures |r.env.sleeps| <= |env.sleeps| ==> r.env.sleeps == env.sleeps
    ensures !receipt ==> !r.out.Ok?
  {
    var g := GetParameters(e, env);
    match ErrorOf(g.out)
    case None => Result(Unpack(g.out), e, g.env)
    case Some(err) =>
      if err != 0 then Result(Fail(PARAMETER_ACQUISTION_ERR), e, g.env)
      else
        var prior := ReportedPower(e, tag, env.inbox[0]);
        if prior.None? then Result(Raised, e, g.env)  // a missing key
        else SendSettled(e, g.env, prior.value, level, receipt, tag)
  }

  /** The second half of the `delay` path: send the level, and sleep the
      settle time from `prior` once it is accepted. */
  function SendSettled(e: Engine, env: Env, prior: int, level: int, receipt: bool, tag: Byte): (r: Result)
    ensures r.engine == e
    ensures |r.env.sleeps| > |env.sleeps| ==>
      |env.inbox| >= 1 && env.inbox[0].code == 0 &&
      r.env.sleeps == env.sleeps + [SettleDelay(prior, level)] &&
      r.env.sent == env.sent + [Write(Frame(PowerCommand(tag, level)), true, Some(3))]
    ensures |r.env.sleeps| <= |env.sleeps| ==> r.env.sleeps == env.sleeps
    ensures !receipt ==> !r.out.Ok?
  {
    var s := Process(e, env, PowerCommand(tag, level), Some(Instr), Some(3));
    if s.out.Ok? then
      Result(Receipt(s.out, receipt), e, s.env.(sleeps := s.env.sleeps + [SettleDelay(prior, level)]))
    else Result(Receipt(s.out, receipt), e, s.env)
  }

  /** `getTemperature`: `F@`, coil temperatures in tenths of a degree. */
  function GetTemperature(e: Engine, env: Env): (x: Exchange)
    // F passes the gate even without remote control
    ensures x.env.sent == env.sent + [Write(Frame([TAG_F, AT]), true, Some(9))]
    ensures x.out.Ok? && x.out.reply.Some? ==> x.out.reply.value.Status? && x.out.reply.value.payload.TempFields?
  {
    Process(e, env, [TAG_F, AT], Some(MagstimTemp), Some(9))
  }

  /** Whether the heartbeat is the system-status query `x@`: only the Rapid
      constructor switches to it, and only when given an unlock code. */
  predicate Keepalive(e: Engine)
    ensures Keepalive(e) ==> e.model == Rapid
  {
    e.model == Rapid && |e.unlockCode| > 0
  }

  /** `poke(silent)`: a silent poke only restarts the robot's wait; otherwise
      the heartbeat frame is sent through `_processCommand`, which appends a
      checksum to the already-checksummed frame. */
  function Poke(e: Engine, env: Env, silent: bool): (r: Result)
    ensures r.engine == e
    ensures silent && e.connected ==> r == Result(Silent, e, env.(signals := env.signals + [Code(0)]))
    ensures !(silent && e.connected) && Gate(e, HeartbeatFrame(Keepalive(e))) ==>
      r.env.sent == env.sent + [Write(Frame(HeartbeatFrame(Keepalive(e))), false, Some(if Keepalive(e) then 6 else 3))]
    // a Magstim 200 or a BiStim always sends `Q@`, whatever unlock code it holds
    ensures e.model != Rapid && !(silent && e.connected) && Gate(e, HeartbeatFrame(false)) ==>
      r.env.sent == env.sent + [Write(Frame(HeartbeatFrame(false)), false, Some(3))]
    ensures r.out.Silent?
  {
    if silent && e.connected then Result(Silent, e, env.(signals := env.signals + [Code(0)]))
    else
      var x := Process(e, env, HeartbeatFrame(Keepalive(e)), None, Some(if Keepalive(e) then 6 else 3));
      Result(Silent, e, x.env)
  }

  /** Re-checksumming a frame whose checksum holds appends a zero byte: the
      frame `poke()` writes is the heartbeat frame followed by 0. */
  lemma RechecksumAppendsZero(f: Bytes)
    requires CrcOk(f)
    ensures Frame(f) == f + [0]
  {
    CrcOkIffSum(f);
  }

  /** `arm(receipt, delay)`: `EB`; the 1.1 s arming delay is slept on request. */
  function Arm(e: Engine, env: Env, receipt: bool, delay: bool): (r: Result)
    ensures r.engine == e
    // arming needs remote control
    ensures !e.connected ==> r.out == Fail(NO_REMOTE_CONTROL_ERR) && r.env.sent == env.sent
    ensures e.connected ==> r.env.sent == env.sent + [Write(Frame([TAG_E, TAG_B]), receipt, Some(3))]
    ensures e.connected && !receipt ==> r.out == Ok(None)
    ensures r.env.sleeps == env.sleeps + (if delay && !(r.out.Raised? || r.out.Blocked?) then [1100] else [])
  {
    var x := Process(e, env, [TAG_E, TAG_B], InstrIf(receipt), Some(3));
    if delay && !(x.out.Raised? || x.out.Blocked?) then Result(x.out, e, x.env.(sleeps := x.env.sleeps + [1100]))
    else Result(x.out, e, x.env)
  }

  /** `disarm(receipt)`: `EA`, the one command besides Q, R, J and F that the
      gate lets through without remote control. */
  function Disarm(e: Engine, env: Env, receipt: bool): (x: Exchange)
    ensures x.env.sent == env.sent + [Write(Frame([TAG_E, TAG_A]), receipt, Some(3))]
    ensures !receipt ==> x.out == Ok(None)
  {
    Process(e, env, [TAG_E, TAG_A], InstrIf(receipt), Some(3))
  }

  /** `fire(receipt)` of the base class: `EH`. */
  function Fire(e: Engine, env: Env, receipt: bool): (x: Exchange)
    ensures !e.connected ==> x == Exchange(Fail(NO_REMOTE_CONTROL_ERR), env)
    ensures e.connected ==> x.env.sent == env.sent + [Write(Frame([TAG_E, TAG_H]), receipt, Some(3))]
  {
    Process(e, env, [TAG_E, TAG_H], InstrIf(receipt), Some(3))
  }

  /** `quickFire` raises the RTS pin; `resetQuickFire` lowers it. Neither waits
      for a reply nor needs remote control. */
  function QuickFire(env: Env): (r: Env)
    ensures r == env.(sent := env.sent + [RtsHigh])
  {
    env.(sent := env.sent + [RtsHigh])
  }

  function ResetQuickFire(env: Env): (r: Env)
    ensures r == env.(sent := env.sent + [RtsLow])
  {
    env.(sent := env.sent + [RtsLow])
  }

  /** BiStim `highResolutionMode(enable, receipt)`: `Y@` or `Z@`; the flag
      follows only when the command was not rejected. */
  function HighResolutionMode(e: Engine, env: Env, enable: bool, receipt: bool): (r: Result)
    ensures !e.connected ==> r == Result(Fail(NO_REMOTE_CONTROL_ERR), e, env)
    ensures e.connected ==> r.env.sent == env.sent + [Write(Frame([if enable then TAG_Y else TAG_Z, AT]), receipt, Some(3))]
    ensures r.engine == (if r.out.Ok? then e.(highRes := enable) else e)
  {
    var x := Process(e, env, [if enable then TAG_Y else TAG_Z, AT], InstrIf(receipt), Some(3));
    Result(x.out, if x.out.Ok? then e.(highRes := enable) else e, x.env)
  }

  /** The interval in the units sent: tenths of a millisecond in high-resolution mode. */
  function IntervalUnits(e: Engine, interval: real): real {
    if e.highRes then interval * 10.0 else interval
  }

  /** The paired-pulse offset in milliseconds that BiStim `getParameters`
      reports for a field value: the field counts tenths of a millisecond
      while high-resolution mode is on, so it is divided by ten. */
  function OffsetMillis(e: Engine, units: int): (ms: real)
    ensures IntervalUnits(e, ms) == units as real
  {
    if e.highRes then units as real / 10.0 else units as real
  }

  /** An interval that `setPulseInterval` accepts is reported back as
      itself, in either resolution. */
  lemma IntervalReadsBack(e: Engine, interval: real)
    requires IsWhole(IntervalUnits(e, interval)) && 0.0 <= IntervalUnits(e, interval) <= 999.0
    ensures OffsetMillis(e, IntervalUnits(e, interval).Floor) == interval
  {
    assert IntervalUnits(e, interval).Floor as real == IntervalUnits(e, interval);
  }

  /** BiStim `getParameters`: the base query, and the offset rescaled as
      `OffsetMillis` says when the reply is accepted. */
  datatype BiStimReading = BiStimReading(x: Exchange, offset: Option<real>)

  function BiStimGetParameters(e: Engine, env: Env): (r: BiStimReading)
    requires e.model == BiStim
    ensures r.x == GetParameters(e, env)
    ensures r.offset.Some? <==> r.x.out.Ok?
    ensures r.x.out.Ok? ==>
      r.x.out.reply.value.payload.BistimFields? &&
      IntervalUnits(e, r.offset.value) == r.x.out.reply.value.payload.ppOffset as real
  {
    var x := GetParameters(e, env);
    if x.out.Ok? then BiStimReading(x, Some(OffsetMillis(e, x.out.reply.value.payload.ppOffset)))
    else BiStimReading(x, None)
  }

  /** BiStim `setPulseInterval(newInterval, receipt)`. */
  function SetPulseInterval(e: Engine, env: Env, interval: real, receipt: bool): (x: Exchange)
    ensures !IsWhole(IntervalUnits(e, interval)) ==>
      x == Exchange(Fail(if e.highRes then PARAMETER_PRECISION_ERR else PARAMETER_FLOAT_ERR), env)
    ensures IsWhole(IntervalUnits(e, interval)) && !(0.0 <= IntervalUnits(e, interval) <= 999.0) ==>
      x == Exchange(Fail(PARAMETER_RANGE_ERR), env)
    // whatever is sent is a C command with a three-digit field in 0..999
    ensures x.env.sent != env.sent ==>
      var v := IntervalUnits(e, interval).Floor;
      0 <= v <= 999 && IntervalUnits(e, interval) == v as real &&
      x.env.sent == env.sent + [Write(Frame([TAG_C] + Field(v, 3)), receipt, Some(3))] &&
      |Field(v, 3)| == 3
  {
    var v := IntervalUnits(e, interval);
    if !IsWhole(v) then Exchange(Fail(if e.highRes then PARAMETER_PRECISION_ERR else PARAMETER_FLOAT_ERR), env)
    else if !(0.0 <= v <= 999.0) then Exchange(Fail(PARAMETER_RANGE_ERR), env)
    else
      FieldWidth(v.Floor, 3);
      Process(e, env, [TAG_C] + Field(v.Floor, 3), InstrIf(receipt), Some(3))
  }

  /** `disconnect` of the base class: disarm, pause the robot, give up remote
      control, stop the robot, close the port. */
  function Disconnect(e: Engine, env: Env): (r: Result)
    ensures !e.connected ==> r == Result(Silent, e, env)
    ensures e.connected && !(r.out.Raised? || r.out.Blocked?) ==>
      !r.engine.connected &&
      r.env.sent == env.sent + [Write(Frame([TAG_E, TAG_A]), false, Some(3)), Write(Frame([TAG_R, AT]), true, Some(3)), Close] &&
      // the robot hears 1 (disarmed), -1 (pause) and, last, the stop; the
      // accepted `R@` in between is itself reported with a 0
      |r.env.signals| >= |env.signals| + 3 &&
      r.env.signals[..|env.signals| + 2] == env.signals + [Code(1), Code(-1)] &&
      r.env.signals[|r.env.signals| - 1] == Stop
  {
    if !e.connected then Result(Silent, e, env)
    else
      var d := Disarm(e, env, false);
      var env1 := d.env.(signals := d.env.signals + [Code(-1)]);
      var rc := RemoteControl(e, env1, false, true);
      if rc.out.Raised? || rc.out.Blocked? then Result(rc.out, e, rc.env)
      else
        // the reply is discarded, and the robot is told to stop
        var env2 := rc.env.(signals := rc.env.signals + [Stop], sent := rc.env.sent + [Close]);
        Result(Silent, e.(connected := false), env2)
  }
}
