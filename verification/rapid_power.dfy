/** `Rapid.isEnhanced` and `Rapid.setPower` (magpy/magstim.py:1032-1037,
    1179-1226): each as written, and as evidently intended. */
module RapidPower {
  import opened Bytes
  import opened Checksum
  import opened StatusBits
  import opened Response
  import opened Framer
  import opened Command
  import opened Stimulator
  import opened RapidOps

  /** What `isEnhanced()` comes to: a flag, or an exception, or waiting
      forever on an empty reply queue. */
  datatype Answer = Enhanced(on: bool) | AnswerRaised | AnswerBlocked

  datatype Probe = Probe(answer: Answer, engine: Engine, env: Env)

  /** `_queryCommand`: `remoteControl(True, True)`, or `getSystemStatus`
      when an unlock code is set (magpy/magstim.py:842-845). */
  function QueryCommand(e: Engine, env: Env): (r: Result)
    ensures |e.unlockCode| == 0 ==>
      (r.engine == e.(validated := false) && r.env.sent == env.sent + [Write(Frame([TAG_Q, AT]), true, Some(3))])
    ensures |e.unlockCode| > 0 ==> r.engine == e
  {
    if |e.unlockCode| > 0 then
      var x := GetSystemStatus(e, env);
      Result(x.out, e, x.env)
    else RapidRemoteControl(e, env, true, true)
  }

  /** `parameters['rapid']['enhancedPowerMode'] if not error else False`: a
      reply without the rTMS status byte has no `'rapid'` key. */
  function ReadEnhanced(o: Outcome): (a: Answer)
    ensures a.Enhanced? && a.on ==> o.Ok?
    ensures o.Ok? && o.reply.Some? && o.reply.value.Status? && o.reply.value.rapidByte.Some? ==>
      a == Enhanced(RapidOf(o.reply.value).enhancedPowerMode)
    ensures o.Ok? && o.reply.Some? && o.reply.value.Status? && o.reply.value.rapidByte.None? ==> a == AnswerRaised
    ensures o.Fail? ==> a == Enhanced(false)
  {
    match o
    case Ok(reply) =>
      if reply.Some? && reply.value.Status? && reply.value.rapidByte.Some? then
        Enhanced(RapidOf(reply.value).enhancedPowerMode)
      else AnswerRaised
    case Fail(_) => Enhanced(false)
    case Blocked => AnswerBlocked
    case _ => AnswerRaised
  }

  /** `isEnhanced()` as written. Without an unlock code the query is `Q@`,
      whose `'instr'` reply never carries the rTMS status byte: every reply
      the driver accepts ends in `KeyError`. */
  function IsEnhancedAsWritten(e: Engine, env: Env): (p: Probe)
    ensures p.engine == QueryCommand(e, env).engine && p.env == QueryCommand(e, env).env
    ensures |e.unlockCode| == 0 && QueryCommand(e, env).out.Ok? ==> p.answer == AnswerRaised
  {
    var q := QueryCommand(e, env);
    Probe(ReadEnhanced(q.out), q.engine, q.env)
  }

  /** The discrepancy on a concrete exchange: a stimulator without an unlock
      code that answers `Q@` with a well-formed status reply makes
      `isEnhanced()` raise. */
  lemma IsEnhancedAsWrittenRaises(e: Engine, status: Byte)
    requires |e.unlockCode| == 0 && status != TAG_CONFLICT && status != TAG_QUERY
    ensures var env := Env([Posting(0, Frame([TAG_Q, status]))], [], [], []);
      QueryCommand(e, env).out == Ok(Some(Status(status, None, NoFields))) &&
      IsEnhancedAsWritten(e, env).answer == AnswerRaised
  {
    var env := Env([Posting(0, Frame([TAG_Q, status]))], [], [], []);
    var reply := Frame([TAG_Q, status]);
    assert Classify([TAG_Q, AT], reply).Accept?;
    assert Inner(reply) == [status];
    assert Parse([status], Instr) == Some(Status(status, None, NoFields));
  }

  /** `isEnhanced()` as intended: the flag is read from the parameter reply,
      which always carries the rTMS status byte. */
  function IsEnhanced(e: Engine, env: Env): (p: Probe)
    requires e.model == Rapid
    ensures p.engine == e && p.env == GetParameters(e, env).env
    ensures GetParameters(e, env).out.Ok? ==>
      p.answer == Enhanced(RapidOf(GetParameters(e, env).out.reply.value).enhancedPowerMode)
    ensures GetParameters(e, env).out.Fail? ==> p.answer == Enhanced(false)
    ensures p.answer == AnswerBlocked <==> GetParameters(e, env).out.Blocked?
  {
    var g := GetParameters(e, env);
    Probe(ReadEnhanced(g.out), e, g.env)
  }

  /** On a concrete exchange the intended query reads the flag from the
      reply's second status byte. */
  lemma IsEnhancedReadsFlag(e: Engine, rapid: Byte, fields: Bytes, p: Payload)
    requires e.model == Rapid && e.connected && e.paramBytes.Some?
    requires ParseRapidFields(fields) == Some(p)
    ensures var env := Env([Posting(0, Frame([TAG_BACKSLASH, 0, rapid] + fields))], [], [], []);
      IsEnhanced(e, env).answer == Enhanced(Bit(rapid, 0))
  {
    var body := [TAG_BACKSLASH, 0, rapid] + fields;
    var reply := Frame(body);
    assert Classify([TAG_BACKSLASH, AT], reply).Accept?;
    InnerOfFrame(body);
    assert body[1..] == [0, rapid] + fields;
    ParseRapidParam(0, rapid, fields, p);
  }

  // ------------------------------------------------------------- setPower

  /** The statement `if not self.setFrequency(maxFrequency)[0]: return
      PARAMETER_UPDATE_ERR` as written: `None[0]` raises, and an error
      tuple's non-zero code makes the test false. `None` is "go on". */
  function CapAsWritten(o: Outcome): (stop: Option<Outcome>)
    ensures o.Fail? && o.code != 0 ==> stop.None?
    ensures o.Silent? ==> stop == Some(Raised)
    ensures stop.Some? ==> !stop.value.Ok?
  {
    match o
    case Ok(_) => Some(Fail(PARAMETER_UPDATE_ERR))
    case Fail(c) => if c == 0 then Some(Fail(PARAMETER_UPDATE_ERR)) else None
    case Silent => Some(Raised)
    case Raised => Some(Raised)
    case Blocked => Some(Blocked)
  }

  /** As intended: the frequency is set with a receipt, and a failure to set
      it returns 10. */
  function Cap(o: Outcome): (stop: Option<Outcome>)
    ensures stop.None? <==> o.Ok?
    ensures o.Fail? ==> stop == Some(Fail(PARAMETER_UPDATE_ERR))
    ensures stop.Some? ==> !stop.value.Ok?
  {
    match o
    case Ok(_) => None
    case Fail(_) => Some(Fail(PARAMETER_UPDATE_ERR))
    case _ => Some(Unpack(o))
  }

  /** What the call of `setFrequency(maxFrequency)` comes to under the test
      as written: the driver never reports 10. On success (`None`, as no
      receipt was asked for) the test raises; an error tuple (9, 10, 12 or 13)
      is ignored, and a refused `B` returns `None` and raises like a
      success. */
  lemma CapAsWrittenMisreads(cfg: Config, e: Engine, env: Env, mf: real)
    requires e.model == Rapid
    ensures var o := SetFrequency(cfg, e, env, mf, false).out;
      CapAsWritten(o) != Some(Fail(PARAMETER_UPDATE_ERR)) &&
      (o.Fail? ==> CapAsWritten(o).None?)
  {
    var o := SetFrequency(cfg, e, env, mf, false).out;
    assert !o.Ok?;
    if o.Fail? {
      assert o.code != 0 by {
        FailCodesNonZero(cfg, e, env, mf);
      }
    }
  }

  /** `setFrequency` never answers with a zero error code. */
  lemma FailCodesNonZero(cfg: Config, e: Engine, env: Env, mf: real)
    requires e.model == Rapid
    ensures SetFrequency(cfg, e, env, mf, false).out.Fail? ==> SetFrequency(cfg, e, env, mf, false).out.code != 0
  {
  }

  /** The intended test reports 10 exactly when setting the frequency failed
      with an error code. */
  lemma CapReportsFailure(cfg: Config, e: Engine, env: Env, mf: real)
    requires e.model == Rapid
    ensures var o := SetFrequency(cfg, e, env, mf, true).out;
      (Cap(o) == Some(Fail(PARAMETER_UPDATE_ERR)) <==> o.Fail?) && (Cap(o).None? <==> o.Ok?)
  {
  }

  /** After the level is set: re-read, and in repetitive mode bring a
      frequency above the new level's limit down to it. `asWritten` selects
      the test of the follow-up as written or as intended. */
  function PowerTail(cfg: Config, e: Engine, sp: Result, receipt: bool, asWritten: bool): (r: Result)
    requires e.model == Rapid
    ensures r.engine == e
    ensures !receipt ==> !r.out.Ok?
  {
    match ErrorOf(sp.out)
    case None => Result(Unpack(sp.out), e, sp.env)
    case Some(err) =>
      if err != 0 then Result(Receipt(sp.out, receipt), e, sp.env)
      else
        match Reread(e, sp.env)
        case Halt(o, env1) => Result(o, e, env1)
        case Proceed(p, env1) =>
          if SinglePulse(p) then Result(Receipt(sp.out, receipt), e, env1)
          else
            match cfg.maxFrequency(p.payload.power)
            case None => Result(Raised, e, env1)
            case Some(mf) =>
              if p.payload.frequency as real / 10.0 <= mf then Result(Receipt(sp.out, receipt), e, env1)
              else
                var sf := SetFrequency(cfg, e, env1, mf, !asWritten);
                var stop := if asWritten then CapAsWritten(sf.out) else Cap(sf.out);
                if stop.Some? then Result(stop.value, e, sf.env)
                else Result(Receipt(sp.out, receipt), e, sf.env)
  }

  /** `setPower(newPower, receipt, delay)` as written: the level is checked
      against 110 when enhanced, but then handed to the base class, which
      checks it against 100 again. */
  function SetPowerAsWritten(cfg: Config, e: Engine, env: Env, power: real, receipt: bool, delay: bool): (r: Result)
    requires e.model == Rapid
    ensures r.engine == e.(validated := false)
  {
    var e1 := e.(validated := false);
    var ie := IsEnhancedAsWritten(e1, env);
    match ie.answer
    case AnswerRaised => Result(Raised, e1, ie.env)
    case AnswerBlocked => Result(Blocked, e1, ie.env)
    case Enhanced(on) =>
      var c := CheckWhole(power, if on then 110 else 100);
      if c.Some? then Result(Fail(c.value), e1, ie.env)
      else PowerTail(cfg, e1, SetPower(e1, ie.env, power, true, delay, AT, 100), receipt, true)
  }

  /** The discrepancy: with enhanced power on, a level above 100 passes the
      driver's own check and is then refused with 13 by the base class
      before anything is sent, so it is never set. */
  lemma EnhancedLevelsRefusedAsWritten(cfg: Config, e: Engine, env: Env, power: real, receipt: bool, delay: bool)
    requires e.model == Rapid && IsWhole(power) && 100.0 < power <= 110.0
    requires IsEnhancedAsWritten(e.(validated := false), env).answer == Enhanced(true)
    ensures var r := SetPowerAsWritten(cfg, e, env, power, receipt, delay);
      r.out == Receipt(Fail(PARAMETER_RANGE_ERR), receipt) &&
      r.env == IsEnhancedAsWritten(e.(validated := false), env).env
  {
  }

  /** `setPower` as intended: the flag is read from the parameter reply, the
      level is checked once against the right bound, and the frequency
      follow-up reports its failure. */
  function SetPowerRapid(cfg: Config, e: Engine, env: Env, power: real, receipt: bool, delay: bool): (r: Result)
    requires e.model == Rapid
    ensures r.engine == e.(validated := false)
    ensures IsEnhanced(e.(validated := false), env).answer.Enhanced? ==>
      var max := if IsEnhanced(e.(validated := false), env).answer.on then 110 else 100;
      CheckWhole(power, max).Some? ==>
        r == Result(Fail(CheckWhole(power, max).value), r.engine, IsEnhanced(e.(validated := false), env).env)
  {
    var e1 := e.(validated := false);
    var ie := IsEnhanced(e1, env);
    match ie.answer
    case AnswerRaised => Result(Raised, e1, ie.env)
    case AnswerBlocked => Result(Blocked, e1, ie.env)
    case Enhanced(on) =>
      var max := if on then 110 else 100;
      var c := CheckWhole(power, max);
      if c.Some? then Result(Fail(c.value), e1, ie.env)
      else PowerTail(cfg, e1, SetPower(e1, ie.env, power, true, delay, AT, max), receipt, false)
  }

  /** With enhanced power on, every whole level up to 110 is handed to the
      base class with 110 as its bound, which without a delay sends it as
      the set command. */
  lemma EnhancedLevelsSent(cfg: Config, e: Engine, env: Env, power: real, receipt: bool, delay: bool)
    requires e.model == Rapid && IsWhole(power) && 0.0 <= power <= 110.0
    requires IsEnhanced(e.(validated := false), env).answer == Enhanced(true)
    ensures var e1 := e.(validated := false);
      var g := IsEnhanced(e1, env).env;
      SetPowerRapid(cfg, e, env, power, receipt, delay) ==
        PowerTail(cfg, e1, SetPower(e1, g, power, true, delay, AT, 110), receipt, false) &&
      (e.connected && !delay ==>
        SetPower(e1, g, power, true, false, AT, 110).env.sent == g.sent + [Write(Frame(PowerCommand(AT, power.Floor)), true, Some(3))])
  {
  }

  /** Changing the frequency, the duration, the pulse count or the power
      locks a repetitive train again until it is validated, whatever the
      outcome of the change. */
  lemma ParameterChangesRelock(cfg: Config, e: Engine, env: Env, v: real, receipt: bool, delay: bool)
    requires e.model == Rapid && e.repetitive && cfg.enforceSafety
    ensures SequenceLocked(cfg, SetFrequency(cfg, e, env, v, receipt).engine)
    ensures SequenceLocked(cfg, SetDuration(e, env, v, receipt).engine)
    ensures SequenceLocked(cfg, SetNPulses(e, env, v, receipt).engine)
    ensures SequenceLocked(cfg, SetPowerRapid(cfg, e, env, v, receipt, delay).engine)
  {
  }
}
