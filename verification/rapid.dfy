/** The `Rapid` subclass of the driver (magpy/magstim.py:786-1340): the
    version query that fixes the parameter reply length, the rTMS parameters
    with their dependent updates, the charge delay, and the sequence
    validation that gates firing in repetitive mode. */
module RapidOps {
  import opened Bytes
  import opened Decimal
  import opened Checksum
  import opened StatusBits
  import opened Response
  import opened Framer
  import opened Command
  import opened Stimulator

  /** What the driver loads from its configuration files: the energy-safety
      switch, and, for its voltage and Rapid type, the maximum rTMS frequency
      in hertz and the energy per pulse in joules, keyed by power level.
      `None` is a missing key, which raises `KeyError`. */
  datatype Config = Config(
    enforceSafety: bool,
    maxFrequency: int -> Option<real>,
    joules: int -> Option<real>)

  predicate V9(e: Engine) {
    AtLeast(e.version, 9)
  }

  predicate V10(e: Engine) {
    AtLeast(e.version, 10)
  }

  function Abs(x: int): nat {
    if x < 0 then -x else x
  }

  /** Python's `int(a / b)`: the quotient truncated toward zero. */
  function TruncDiv(a: int, b: int): (q: int)
    requires b != 0
    ensures Abs(q) * Abs(b) <= Abs(a) < (Abs(q) + 1) * Abs(b)
    ensures q != 0 ==> ((q > 0) <==> ((a > 0) == (b > 0)))
  {
    var m := Abs(a) / Abs(b);
    if (a >= 0) == (b > 0) then m else -m
  }

  /** On non-negative operands truncation is Dafny's division, and negating
      the dividend negates the quotient. */
  lemma TruncDivAgrees(a: int, b: int)
    requires b != 0
    ensures a >= 0 && b > 0 ==> TruncDiv(a, b) == a / b
    ensures TruncDiv(-a, b) == -TruncDiv(a, b)
  {
  }

  // ------------------------------------------------------------ version

  /** The length of a parameter reply for each software version
      (magpy/magstim.py:869-876). */
  function ParamReplyLength(v: seq<int>): (n: int)
    ensures n == 24 <==> AtLeast(v, 9)
    ensures n == 22 <==> !AtLeast(v, 9) && AtLeast(v, 7)
    ensures n == 21 <==> !AtLeast(v, 7)
  {
    if AtLeast(v, 9) then 24 else if AtLeast(v, 7) then 22 else 21
  }

  /** A parameter reply of the length the version implies leaves, after its
      tag, two status bytes and checksum, the 20-byte field layout (5-digit
      pulse count) exactly when the version is 9 or later. */
  lemma ParamLayoutFollowsVersion(v: seq<int>, reply: Bytes)
    requires |reply| == ParamReplyLength(v)
    ensures |Inner(reply)[2..]| == 20 <==> AtLeast(v, 9)
  {
  }

  /** The serial worker reads an ordinary reply of `n` bytes, checksum
      included, exactly, whatever the device sends after it. */
  lemma FramedReplyRead(body: Bytes, rest: Bytes)
    requires |body| >= 2
    requires body[0] != TAG_QUERY && body[0] != TAG_VERSION
    requires body[1] != TAG_CONFLICT && body[1] != TAG_QUERY
    ensures ReadReply(Frame(body) + rest, Some(|body| + 1)) == Got(Frame(body), rest)
  {
    var reply := Frame(body);
    assert |reply| == |body| + 1;
    assert (reply + rest)[0] == body[0] && (reply + rest)[1] == body[1];
    ExactLength(reply + rest, |body| + 1);
    assert (reply + rest)[..|body| + 1] == reply && (reply + rest)[|body| + 1..] == rest;
  }

  /** The bytes between the tag and the checksum of a framed reply. */
  lemma InnerOfFrame(body: Bytes)
    requires |body| >= 1
    ensures Inner(Frame(body)) == body[1..]
  {
  }

  /** A parameter reply's data: the two status bytes, then the fields. */
  lemma ParseRapidParam(instr: Byte, rapid: Byte, fields: Bytes, p: Payload)
    requires ParseRapidFields(fields) == Some(p)
    ensures Parse([instr, rapid] + fields, RapidParam) == Some(Status(instr, Some(rapid), p))
  {
    assert ([instr, rapid] + fields)[2..] == fields;
  }

  /** The 5-digit layout is 20 bytes long. */
  lemma V9LayoutLength(fields: Bytes, power: nat, frequency: nat, nPulses: nat, duration: nat, wait: nat)
    requires power < 1000 && frequency < 10000 && nPulses < 100000 && duration < 10000 && wait < 10000
    requires fields == Encode([power, frequency, nPulses, duration], [3, 4, 5, 4]) + Field(wait, 4)
    ensures |fields| == 20
  {
    EncodeLength([power, frequency, nPulses, duration], [3, 4, 5, 4]);
    assert TotalWidth([3, 4, 5, 4]) == 16;
    FieldWidth(wait, 4);
  }

  /** A 20-byte parameter reply is consumed whole at the version 9 length. */
  lemma ParamReplyRead(v: seq<int>, instr: Byte, rapid: Byte, fields: Bytes, rest: Bytes)
    requires AtLeast(v, 9) && instr != TAG_CONFLICT && instr != TAG_QUERY && |fields| == 20
    ensures ReadReply(Frame([TAG_BACKSLASH, instr, rapid] + fields) + rest, Some(ParamReplyLength(v)))
         == Got(Frame([TAG_BACKSLASH, instr, rapid] + fields), rest)
  {
    var body := [TAG_BACKSLASH, instr, rapid] + fields;
    assert body[0] == TAG_BACKSLASH && body[1] == instr;
    FramedReplyRead(body, rest);
  }

  /** The data of a framed parameter reply: the status bytes and the fields. */
  lemma DataOfParamReply(instr: Byte, rapid: Byte, fields: Bytes)
    ensures Inner(Frame([TAG_BACKSLASH, instr, rapid] + fields)) == [instr, rapid] + fields
  {
    var body := [TAG_BACKSLASH, instr, rapid] + fields;
    InnerOfFrame(body);
    assert body[1..] == [instr, rapid] + fields;
  }

  /** The data of a framed parameter reply parses to the fields it carries. */
  lemma ParamReplyParsed(instr: Byte, rapid: Byte, fields: Bytes,
                         power: nat, frequency: nat, nPulses: nat, duration: nat, wait: nat)
    requires power < 1000 && frequency < 10000 && nPulses < 100000 && duration < 10000 && wait < 10000
    requires fields == Encode([power, frequency, nPulses, duration], [3, 4, 5, 4]) + Field(wait, 4)
    ensures Parse(Inner(Frame([TAG_BACKSLASH, instr, rapid] + fields)), RapidParam)
         == Some(Status(instr, Some(rapid), RapidFields(power, frequency, nPulses, duration, wait)))
  {
    var p := RapidFields(power, frequency, nPulses, duration, wait);
    RapidFieldsV9(power, frequency, nPulses, duration, wait);
    ParseRapidParam(instr, rapid, fields, p);
    DataOfParamReply(instr, rapid, fields);
  }

  /** On a version 9 stimulator, a parameter reply the device writes with
      the 5-digit layout is consumed whole by the serial worker and read back
      as the fields it carries. */
  lemma ParamReplyRoundTrip(v: seq<int>, instr: Byte, rapid: Byte, fields: Bytes,
                            power: nat, frequency: nat, nPulses: nat, duration: nat, wait: nat, rest: Bytes)
    requires AtLeast(v, 9) && instr != TAG_CONFLICT && instr != TAG_QUERY
    requires power < 1000 && frequency < 10000 && nPulses < 100000 && duration < 10000 && wait < 10000
    requires fields == Encode([power, frequency, nPulses, duration], [3, 4, 5, 4]) + Field(wait, 4)
    ensures ReadReply(Frame([TAG_BACKSLASH, instr, rapid] + fields) + rest, Some(ParamReplyLength(v)))
         == Got(Frame([TAG_BACKSLASH, instr, rapid] + fields), rest)
    ensures Parse(Inner(Frame([TAG_BACKSLASH, instr, rapid] + fields)), RapidParam)
         == Some(Status(instr, Some(rapid), RapidFields(power, frequency, nPulses, duration, wait)))
  {
    V9LayoutLength(fields, power, frequency, nPulses, duration, wait);
    ParamReplyRead(v, instr, rapid, fields, rest);
    ParamReplyParsed(instr, rapid, fields, power, frequency, nPulses, duration, wait);
  }

  /** `getVersion`: `ND`; on success the version is kept and, with it, the
      length of a parameter reply. */
  function GetVersion(e: Engine, env: Env): (r: Result)
    ensures e.connected ==> r.env.sent == env.sent + [Write(Frame([TAG_N, TAG_D]), true, None)]
    ensures r.out.Ok? ==>
      r.out.reply.Some? && r.out.reply.value.Version? &&
      r.engine == e.(version := r.out.reply.value.parts,
                     paramBytes := Some(ParamReplyLength(r.out.reply.value.parts)))
    ensures !r.out.Ok? ==> r.engine == e
  {
    var x := Process(e, env, [TAG_N, TAG_D], Some(VersionReply), None);
    if x.out.Ok? && x.out.reply.Some? && x.out.reply.value.Version? then
      var v := x.out.reply.value.parts;
      Result(x.out, e.(version := v, paramBytes := Some(ParamReplyLength(v))), x.env)
    else Result(x.out, e, x.env)
  }

  // ------------------------------------------------------- simple commands

  /** The remote-control command of the Rapid: with an unlock code, enabling
      sends `Q` followed by the code. */
  function RemoteCommand(e: Engine, enable: bool): (c: Bytes)
    ensures |c| >= 2 && c[0] == (if enable then TAG_Q else TAG_R)
    ensures c[1..] == (if enable && |e.unlockCode| > 0 then e.unlockCode else [AT])
  {
    if enable && |e.unlockCode| > 0 then [TAG_Q] + e.unlockCode
    else [if enable then TAG_Q else TAG_R, AT]
  }

  /** Rapid `remoteControl(enable, receipt)`. */
  function RapidRemoteControl(e: Engine, env: Env, enable: bool, receipt: bool): (r: Result)
    ensures r.engine == e.(validated := false)
    // Q and R always pass the gate
    ensures r.env.sent == env.sent + [Write(Frame(RemoteCommand(e, enable)), receipt, Some(3))]
    ensures !receipt ==> r.out.Ok? ==> r.out.reply.None?
  {
    var x := Process(e, env, RemoteCommand(e, enable), InstrIf(receipt), Some(3));
    Result(x.out, e.(validated := false), x.env)
  }

  /** `getSystemStatus`: `x@`, from software version 9. */
  function GetSystemStatus(e: Engine, env: Env): (x: Exchange)
    ensures !V9(e) ==> x == Exchange(Fail(SYSTEM_STATUS_VERSION_ERR), env)
    ensures V9(e) && e.connected ==> x.env.sent == env.sent + [Write(Frame([TAG_x, AT]), true, Some(6))]
    ensures x.out.Ok? ==>
      V9(e) && x.out.reply.Some? && x.out.reply.value.Status? &&
      x.out.reply.value.rapidByte.Some? && x.out.reply.value.payload.ExtFields?
  {
    if V9(e) then Process(e, env, [TAG_x, AT], Some(SystemRapid), Some(6))
    else Exchange(Fail(SYSTEM_STATUS_VERSION_ERR), env)
  }

  /** `getChargeDelay`: `o@`, from software version 9; the reply is one byte
      longer after version 9. */
  function GetChargeDelay(e: Engine, env: Env): (x: Exchange)
    ensures !V9(e) ==> x == Exchange(Fail(SYSTEM_STATUS_VERSION_ERR), env)
    ensures V9(e) && e.connected ==>
      x.env.sent == env.sent + [Write(Frame([TAG_o, AT]), true, Some(if Above9(e.version) then 8 else 7))]
    ensures x.out.Ok? ==>
      V9(e) && x.out.reply.Some? && x.out.reply.value.Status? && x.out.reply.value.payload.ChargeFields?
  {
    if V9(e) then Process(e, env, [TAG_o, AT], Some(InstrCharge), Some(if Above9(e.version) then 8 else 7))
    else Exchange(Fail(SYSTEM_STATUS_VERSION_ERR), env)
  }

  /** The charge-delay command: 5 digits from version 10, 4 before. */
  function ChargeDelayCommand(e: Engine, delay: int): Bytes {
    [TAG_n] + Field(delay, if V10(e) then 5 else 4)
  }

  /** `setChargeDelay(newDelay, receipt)`: refused before version 9 (without
      clearing the validation), otherwise a whole number of milliseconds. */
  function SetChargeDelay(e: Engine, env: Env, delay: real, receipt: bool): (r: Result)
    ensures !V9(e) ==> r == Result(Fail(SYSTEM_STATUS_VERSION_ERR), e, env)
    ensures V9(e) ==> r.engine == e.(validated := false)
    ensures V9(e) && !IsWhole(delay) ==> r.out == Fail(PARAMETER_FLOAT_ERR) && r.env == env
    ensures V9(e) && IsWhole(delay) && e.connected ==>
      r.env.sent == env.sent + [Write(Frame(ChargeDelayCommand(e, delay.Floor)), true, Some(if V10(e) then 6 else 4))]
    ensures !receipt ==> !r.out.Ok?
  {
    if !V9(e) then Result(Fail(SYSTEM_STATUS_VERSION_ERR), e, env)
    else
      var e1 := e.(validated := false);
      if !IsWhole(delay) then Result(Fail(PARAMETER_FLOAT_ERR), e1, env)
      else
        var x := Process(e1, env, ChargeDelayCommand(e, delay.Floor),
                         Some(if V10(e) then SystemRapid else InstrRapid), Some(if V10(e) then 6 else 4));
        Result(Receipt(x.out, receipt), e1, x.env)
  }

  /** A value fills the field it is sent in and reads back as itself when it
      is below `10^w`. */
  lemma CommandFieldFits(tag: Byte, n: int, w: nat)
    requires 1 <= w && 0 <= n < Pow10(w)
    ensures |[tag] + Field(n, w)| == w + 1
    ensures ParseInt(([tag] + Field(n, w))[1..]) == Some(n)
  {
    FieldWidth(n, w);
    assert ([tag] + Field(n, w))[1..] == Field(n, w);
    FieldRoundTrip(n, w);
  }

  /** Every delay the stimulator stores (up to 10000 from version 10, up to
      2000 before) travels in its field and reads back as itself. */
  lemma ChargeDelayFits(e: Engine, delay: int)
    requires V9(e) && 0 <= delay <= (if V10(e) then 10000 else 2000)
    ensures |ChargeDelayCommand(e, delay)| == (if V10(e) then 6 else 5)
    ensures ParseInt(ChargeDelayCommand(e, delay)[1..]) == Some(delay)
  {
    if V10(e) {
      CommandFieldFits(TAG_n, delay, 5);
    } else {
      CommandFieldFits(TAG_n, delay, 4);
    }
  }

  // ------------------------------------------------------ rTMS parameters

  /** One step of a composite operation: it goes on with what it read, or
      the operation returns `out`. */
  datatype Stage<T> = Proceed(value: T, env: Env) | Halt(out: Outcome, env: Env)

  /** A Rapid parameter reply: both status bytes and the five fields. */
  predicate RapidReply(p: Parsed) {
    p.Status? && p.rapidByte.Some? && p.payload.RapidFields?
  }

  /** `getParameters()` followed by `if updateError: return
      PARAMETER_ACQUISTION_ERR`. */
  function Reread(e: Engine, env: Env): (s: Stage<Parsed>)
    requires e.model == Rapid
    ensures s.env == GetParameters(e, env).env
    ensures s.Proceed? <==> GetParameters(e, env).out.Ok?
    ensures s.Proceed? ==> RapidReply(s.value)
    // a transport error or a rejected query ends the call with 9
    ensures GetParameters(e, env).out.Fail? ==> s.Halt? && s.out == Fail(PARAMETER_ACQUISTION_ERR)
    ensures s.Halt? ==> s.out == Fail(PARAMETER_ACQUISTION_ERR) || s.out.Raised? || s.out.Blocked?
  {
    var g := GetParameters(e, env);
    match g.out
    case Ok(reply) => Proceed(reply.value, g.env)
    case Fail(_) => Halt(Fail(PARAMETER_ACQUISTION_ERR), g.env)
    case _ => Halt(Unpack(g.out), g.env)
  }

  /** The pulse count `int(duration * frequency)` that a duration and a
      frequency, both in tenths, imply: the exact count truncated toward zero. */
  function DerivedPulses(p: Payload): int
    requires p.RapidFields?
  {
    TruncDiv(p.duration * p.frequency, 100)
  }

  /** The follow-up count is the exact count truncated toward zero. */
  lemma DerivedPulsesTruncates(p: Payload)
    requires p.RapidFields?
    ensures var n := DerivedPulses(p);
      (p.duration * p.frequency >= 0 ==> n * 100 <= p.duration * p.frequency < (n + 1) * 100) &&
      (p.duration * p.frequency < 0 ==> (n - 1) * 100 < p.duration * p.frequency <= n * 100)
  {
  }

  /** The value `int(nPulses / frequency)` that `setNPulses` sends as the
      duration, as written: the train's length in whole seconds. */
  function DurationAsWritten(p: Payload): int
    requires p.RapidFields? && p.frequency != 0
  {
    TruncDiv(p.nPulses * 10, p.frequency)
  }

  /** The duration the follow-up of `setNPulses` sends: the train's length in
      tenths of a second, the unit of the duration field. */
  function DerivedDuration(p: Payload): int
    requires p.RapidFields? && p.frequency != 0
  {
    TruncDiv(p.nPulses * 100, p.frequency)
  }

  /** As written the duration is the train's length in whole seconds, and
      corrected in tenths: each is the largest such count within the train. */
  lemma DurationUnits(p: Payload)
    requires p.RapidFields? && p.nPulses >= 0 && p.frequency > 0
    ensures var s := DurationAsWritten(p);
      s * p.frequency <= p.nPulses * 10 < (s + 1) * p.frequency
    ensures var t := DerivedDuration(p);
      t * p.frequency <= p.nPulses * 100 < (t + 1) * p.frequency
  {
  }

  /** As written, the follow-up shortens every train: the seconds it sends
      are read as tenths, so the device derives at most a tenth of the
      pulses that were set (100 pulses at 10 Hz become 10). */
  lemma DurationAsWrittenShortensTrain(p: Payload)
    requires p.RapidFields? && p.nPulses > 0 && p.frequency > 0
    ensures DerivedPulses(p.(duration := DurationAsWritten(p))) <= p.nPulses / 10 < p.nPulses
  {
    var s := DurationAsWritten(p);
    DurationUnits(p);
    MulMono(0, s, p.frequency);
    DerivedPulsesTruncates(p.(duration := s));
  }

  /** The corrected duration gives back the pulse count whenever the train
      lasts a whole number of tenths, and never more pulses otherwise. */
  lemma DurationKeepsPulses(p: Payload)
    requires p.RapidFields? && p.nPulses >= 0 && p.frequency > 0
    ensures DerivedPulses(p.(duration := DerivedDuration(p))) <= p.nPulses
    ensures (p.nPulses * 100) % p.frequency == 0 ==> DerivedPulses(p.(duration := DerivedDuration(p))) == p.nPulses
  {
    var d := DerivedDuration(p);
    DurationUnits(p);
    DerivedPulsesTruncates(p.(duration := d));
    PulsesBack(p.nPulses, p.frequency, d, DerivedPulses(p.(duration := d)));
  }

  /** The arithmetic of `DurationKeepsPulses`: `d` is the count of tenths in
      the train and `q` the pulses a train of `d` tenths holds. */
  lemma PulsesBack(n: int, f: int, d: int, q: int)
    requires n >= 0 && f > 0
    requires d * f <= n * 100 < (d + 1) * f
    requires d * f >= 0 ==> q * 100 <= d * f < (q + 1) * 100
    ensures q <= n
    ensures (n * 100) % f == 0 ==> q == n
  {
    if d < 0 {
      MulMono(d + 1, 0, f);
      assert false;
    }
    if (n * 100) % f == 0 {
      var k := (n * 100) / f;
      assert k * f == n * 100;
      if d < k {
        MulMono(d + 1, k, f);
        assert false;
      }
      if d > k {
        MulMono(k + 1, d, f);
        assert false;
      }
    }
  }

  lemma MulMono(a: int, b: int, f: int)
    requires a <= b && f >= 0
    ensures a * f <= b * f
  {
  }

  function FrequencyCommand(tenths: int): Bytes {
    [TAG_B] + Field(tenths, 4)
  }

  function PulsesCommand(e: Engine, n: int): Bytes {
    [TAG_D] + Field(n, if V9(e) then 5 else 4)
  }

  function DurationCommand(e: Engine, tenths: int): Bytes {
    [TAG_BRACKET] + Field(tenths, if V9(e) then 4 else 3)
  }

  /** The follow-up of `setFrequency` and `setDuration`: re-read the
      parameters and send the pulse count they imply; a failed re-read ends
      the call with 9, a refused update with 10. */
  function FollowWithPulses(e: Engine, env: Env): (s: Stage<Payload>)
    requires e.model == Rapid
    ensures Reread(e, env).Halt? ==> s == Halt(Reread(e, env).out, Reread(e, env).env)
    ensures Reread(e, env).Proceed? && e.connected ==>
      s.env.sent == Reread(e, env).env.sent +
        [Write(Frame(PulsesCommand(e, DerivedPulses(Reread(e, env).value.payload))), true, Some(4))]
    ensures Reread(e, env).Proceed? && s.Halt? ==> s.out == Fail(PARAMETER_UPDATE_ERR) || s.out.Raised? || s.out.Blocked?
    ensures s.Proceed? ==> Reread(e, env).Proceed? && s.value == Reread(e, env).value.payload
  {
    match Reread(e, env)
    case Halt(o, env1) => Halt(o, env1)
    case Proceed(p, env1) =>
      var d := Process(e, env1, PulsesCommand(e, DerivedPulses(p.payload)), Some(InstrRapid), Some(4));
      match d.out
      case Ok(_) => Proceed(p.payload, d.env)
      case Fail(_) => Halt(Fail(PARAMETER_UPDATE_ERR), d.env)
      case _ => Halt(Unpack(d.out), d.env)
  }

  /** Send a frequency or duration command and, once it is accepted, the
      pulse-count follow-up. */
  function SendThenPulses(e: Engine, env: Env, cmd: Bytes, receipt: bool): (r: Result)
    requires e.model == Rapid
    ensures r.engine == e
    ensures e.connected ==> |r.env.sent| > |env.sent| && r.env.sent[|env.sent|] == Write(Frame(cmd), true, Some(4))
    ensures !receipt ==> !r.out.Ok?
    ensures r.out.Fail? ==> r.out.code != 0
  {
    var s := Process(e, env, cmd, Some(InstrRapid), Some(4));
    if s.out.Ok? then
      match FollowWithPulses(e, s.env)
      case Halt(o, env2) => Result(o, e, env2)
      case Proceed(_, env2) => Result(Receipt(s.out, receipt), e, env2)
    else Result(Receipt(s.out, receipt), e, s.env)
  }

  /** The checks of a tenths-valued argument: a value finer than tenths
      returns 12, one outside `0..max` tenths returns 13. */
  function CheckTenths(v: real, max: int): (r: Option<int>)
    ensures r.None? <==> IsWhole(v * 10.0) && 0.0 <= v * 10.0 <= max as real
    ensures r == Some(PARAMETER_PRECISION_ERR) <==> !IsWhole(v * 10.0)
    ensures r == Some(PARAMETER_RANGE_ERR) <==> IsWhole(v * 10.0) && !(0.0 <= v * 10.0 <= max as real)
  {
    if !IsWhole(v * 10.0) then Some(PARAMETER_PRECISION_ERR)
    else if !(0.0 <= v * 10.0 <= max as real) then Some(PARAMETER_RANGE_ERR)
    else None
  }

  /** `setFrequency(newFrequency, receipt)`: the precision check, a re-read
      for the power level, the range check against the frequency table, then
      `B` in tenths of a hertz and the pulse-count follow-up. */
  function SetFrequency(cfg: Config, e: Engine, env: Env, freq: real, receipt: bool): (r: Result)
    requires e.model == Rapid
    ensures r.engine == e.(validated := false)
    ensures !IsWhole(freq * 10.0) ==> r == Result(Fail(PARAMETER_PRECISION_ERR), r.engine, env)
    ensures !receipt ==> !r.out.Ok?
  {
    var e1 := e.(validated := false);
    var ft := freq * 10.0;
    if !IsWhole(ft) then Result(Fail(PARAMETER_PRECISION_ERR), e1, env)
    else
      match Reread(e1, env)
      case Halt(o, env1) => Result(o, e1, env1)
      case Proceed(p, env1) =>
        match cfg.maxFrequency(p.payload.power)
        case None => Result(Raised, e1, env1)
        case Some(mf) =>
          if !(0.0 <= ft <= mf * 10.0) then Result(Fail(PARAMETER_RANGE_ERR), e1, env1)
          else SendThenPulses(e1, env1, FrequencyCommand(ft.Floor), receipt)
  }

  /** The range check of `setFrequency` uses the table's limit for the power
      level the re-read reports: outside it 13 is returned and only the query
      was sent; within it the next frame is `B` with the frequency in tenths. */
  lemma FrequencyRangeChecked(cfg: Config, e: Engine, env: Env, freq: real, receipt: bool)
    requires e.model == Rapid && IsWhole(freq * 10.0)
    requires Reread(e.(validated := false), env).Proceed?
    requires cfg.maxFrequency(Reread(e.(validated := false), env).value.payload.power).Some?
    ensures var g := Reread(e.(validated := false), env);
      var mf := cfg.maxFrequency(g.value.payload.power).value;
      var r := SetFrequency(cfg, e, env, freq, receipt);
      if 0.0 <= freq * 10.0 <= mf * 10.0 then
        (e.connected ==> |r.env.sent| > |g.env.sent| &&
                         r.env.sent[|g.env.sent|] == Write(Frame(FrequencyCommand((freq * 10.0).Floor)), true, Some(4)))
      else r == Result(Fail(PARAMETER_RANGE_ERR), e.(validated := false), g.env)
  {
  }

  /** The longest duration in tenths of a second: 999.9 s from version 9,
      99.9 s before. */
  function MaxDuration(e: Engine): (m: int)
    ensures m + 1 == Pow10(if V9(e) then 4 else 3)
  {
    assert Pow10(4) == 10 * Pow10(3) && Pow10(3) == 10 * Pow10(2) && Pow10(2) == 10 * Pow10(1) && Pow10(1) == 10;
    if V9(e) then 9999 else 999
  }

  /** The longest duration is exactly the largest value whose `[` command
      keeps the field width of the software version. */
  lemma MaxDurationFillsField(e: Engine, t: nat)
    ensures t <= MaxDuration(e) <==> |DurationCommand(e, t)| == (if V9(e) then 5 else 4)
  {
    FieldWidth(t, if V9(e) then 4 else 3);
  }

  /** `setDuration(newDuration, receipt)`: checked in tenths of a second,
      then `[` and the pulse-count follow-up. */
  function SetDuration(e: Engine, env: Env, dur: real, receipt: bool): (r: Result)
    requires e.model == Rapid
    ensures r.engine == e.(validated := false)
    ensures CheckTenths(dur, MaxDuration(e)).Some? ==>
      r == Result(Fail(CheckTenths(dur, MaxDuration(e)).value), r.engine, env)
    ensures CheckTenths(dur, MaxDuration(e)).None? && e.connected ==>
      |r.env.sent| > |env.sent| &&
      r.env.sent[|env.sent|] == Write(Frame(DurationCommand(e, (dur * 10.0).Floor)), true, Some(4))
    ensures !receipt ==> !r.out.Ok?
  {
    var e1 := e.(validated := false);
    var c := CheckTenths(dur, MaxDuration(e));
    if c.Some? then Result(Fail(c.value), e1, env)
    else SendThenPulses(e1, env, DurationCommand(e, (dur * 10.0).Floor), receipt)
  }

  /** Every duration that passes the checks fits its field and reads back as
      the tenths it was given. */
  lemma DurationFits(e: Engine, dur: real)
    requires CheckTenths(dur, MaxDuration(e)).None?
    ensures |DurationCommand(e, (dur * 10.0).Floor)| == (if V9(e) then 5 else 4)
    ensures ParseInt(DurationCommand(e, (dur * 10.0).Floor)[1..]) == Some((dur * 10.0).Floor)
    ensures (dur * 10.0).Floor as real == dur * 10.0
  {
    if V9(e) {
      CommandFieldFits(TAG_BRACKET, (dur * 10.0).Floor, 4);
    } else {
      CommandFieldFits(TAG_BRACKET, (dur * 10.0).Floor, 3);
    }
  }

  /** The duration the follow-up of `setNPulses` sends: whole seconds as
      written, or tenths once corrected. */
  function FollowUpDuration(p: Payload, asWritten: bool): int
    requires p.RapidFields? && p.frequency != 0
  {
    if asWritten then DurationAsWritten(p) else DerivedDuration(p)
  }

  /** The follow-up of `setNPulses`: re-read the parameters and send the
      duration they imply, with a receipt only when one was asked for. As
      written (`asWritten`) the duration is `DurationAsWritten`, whole
      seconds; corrected it is `DerivedDuration`, tenths. */
  function FollowWithDuration(e: Engine, env: Env, receipt: bool, asWritten: bool): (s: Stage<Payload>)
    requires e.model == Rapid
    ensures Reread(e, env).Halt? ==> s == Halt(Reread(e, env).out, Reread(e, env).env)
    // a zero frequency divides by zero
    ensures Reread(e, env).Proceed? && Reread(e, env).value.payload.frequency == 0 ==>
      s == Halt(Raised, Reread(e, env).env)
    ensures Reread(e, env).Proceed? && Reread(e, env).value.payload.frequency != 0 && e.connected ==>
      s.env.sent == Reread(e, env).env.sent +
        [Write(Frame(DurationCommand(e, FollowUpDuration(Reread(e, env).value.payload, asWritten))), receipt, Some(4))]
    ensures Reread(e, env).Proceed? && s.Halt? ==> s.out == Fail(PARAMETER_UPDATE_ERR) || s.out.Raised? || s.out.Blocked?
    ensures Extends(s.env.sent, env.sent)
  {
    match Reread(e, env)
    case Halt(o, env1) => Halt(o, env1)
    case Proceed(p, env1) =>
      if p.payload.frequency == 0 then Halt(Raised, env1)
      else
        var s := SendDuration(e, env1, p.payload, receipt, asWritten);
        ExtendsTrans(s.env.sent, env1.sent, env.sent);
        s
  }

  /** The `[` command of the follow-up, for a nonzero frequency. */
  function SendDuration(e: Engine, env: Env, p: Payload, receipt: bool, asWritten: bool): (s: Stage<Payload>)
    requires e.model == Rapid && p.RapidFields? && p.frequency != 0
    ensures e.connected ==>
      s.env.sent == env.sent + [Write(Frame(DurationCommand(e, FollowUpDuration(p, asWritten))), receipt, Some(4))]
    ensures s.Halt? ==> s.out == Fail(PARAMETER_UPDATE_ERR) || s.out.Raised? || s.out.Blocked?
    ensures Extends(s.env.sent, env.sent)
  {
    var kind := if receipt then Some(InstrRapid) else None;
    var d := Process(e, env, DurationCommand(e, FollowUpDuration(p, asWritten)), kind, Some(4));
    match d.out
    case Ok(_) => Proceed(p, d.env)
    case Fail(_) => Halt(Fail(PARAMETER_UPDATE_ERR), d.env)
    case _ => Halt(Unpack(d.out), d.env)
  }

  /** `setNPulses(newNPulses, receipt)` as written: a whole count in
      `0..6000`, sent as `D`, then the follow-up with the duration in whole
      seconds. */
  function SetNPulses(e: Engine, env: Env, n: real, receipt: bool): (r: Result)
    requires e.model == Rapid
    ensures r.engine == e.(validated := false)
    ensures CheckWhole(n, 6000).Some? ==> r == Result(Fail(CheckWhole(n, 6000).value), r.engine, env)
    ensures !receipt ==> !r.out.Ok?
  {
    var e1 := e.(validated := false);
    var c := CheckWhole(n, 6000);
    if c.Some? then Result(Fail(c.value), e1, env)
    else
      var s := Process(e1, env, PulsesCommand(e, n.Floor), Some(InstrRapid), Some(4));
      if s.out.Ok? then AfterPulses(e1, s, receipt, true)
      else Result(Receipt(s.out, receipt), e1, s.env)
  }

  /** `setNPulses` with its follow-up corrected to send the train's length
      in tenths; otherwise as `SetNPulses`. */
  function SetNPulsesCorrected(e: Engine, env: Env, n: real, receipt: bool): (r: Result)
    requires e.model == Rapid
    ensures r.engine == e.(validated := false)
    ensures CheckWhole(n, 6000).Some? ==> r == Result(Fail(CheckWhole(n, 6000).value), r.engine, env)
    ensures !receipt ==> !r.out.Ok?
  {
    var e1 := e.(validated := false);
    var c := CheckWhole(n, 6000);
    if c.Some? then Result(Fail(c.value), e1, env)
    else
      var s := Process(e1, env, PulsesCommand(e, n.Floor), Some(InstrRapid), Some(4));
      if s.out.Ok? then AfterPulses(e1, s, receipt, false)
      else Result(Receipt(s.out, receipt), e1, s.env)
  }

  /** `setNPulses` once `D` is accepted: the duration follow-up decides the
      outcome, and a success is reported only with a receipt. */
  function AfterPulses(e: Engine, s: Exchange, receipt: bool, asWritten: bool): (r: Result)
    requires e.model == Rapid && s.out.Ok?
    ensures r.engine == e
    ensures r.env == FollowWithDuration(e, s.env, receipt, asWritten).env
    ensures Extends(r.env.sent, s.env.sent)
    ensures !receipt ==> !r.out.Ok?
  {
    match FollowWithDuration(e, s.env, receipt, asWritten)
    case Halt(o, env2) => Result(o, e, env2)
    case Proceed(_, env2) => Result(Receipt(s.out, receipt), e, env2)
  }

  /** Once `D` is accepted and the re-read gives a nonzero frequency, the
      last frame `setNPulses` sends is `[` with the duration in whole
      seconds as written, and in tenths once corrected. */
  lemma NPulsesFollowUp(e: Engine, env: Env, n: real, receipt: bool)
    requires e.model == Rapid && CheckWhole(n, 6000).None? && e.connected
    requires var e1 := e.(validated := false);
      var s := Process(e1, env, PulsesCommand(e, n.Floor), Some(InstrRapid), Some(4));
      s.out.Ok? && Reread(e1, s.env).Proceed? && Reread(e1, s.env).value.payload.frequency != 0
    ensures var e1 := e.(validated := false);
      var s := Process(e1, env, PulsesCommand(e, n.Floor), Some(InstrRapid), Some(4));
      var g := Reread(e1, s.env);
      SetNPulses(e, env, n, receipt).env.sent ==
        g.env.sent + [Write(Frame(DurationCommand(e, DurationAsWritten(g.value.payload))), receipt, Some(4))] &&
      SetNPulsesCorrected(e, env, n, receipt).env.sent ==
        g.env.sent + [Write(Frame(DurationCommand(e, DerivedDuration(g.value.payload))), receipt, Some(4))]
  {
  }

  /** A pulse count that passes the checks is sent first, as `D`; the
      duration follow-up is sent only once that is accepted. */
  lemma NPulsesSent(e: Engine, env: Env, n: real, receipt: bool)
    requires e.model == Rapid && CheckWhole(n, 6000).None? && e.connected
    ensures var r := SetNPulses(e, env, n, receipt);
      |r.env.sent| > |env.sent| && r.env.sent[|env.sent|] == Write(Frame(PulsesCommand(e, n.Floor)), true, Some(4))
  {
    var e1 := e.(validated := false);
    var s := Process(e1, env, PulsesCommand(e, n.Floor), Some(InstrRapid), Some(4));
    ExtendsAt(SetNPulses(e, env, n, receipt).env.sent, s.env.sent, |env.sent|);
  }

  /** Every pulse count that passes the checks fits its field, whatever the
      version, and reads back as itself. */
  lemma PulsesFit(e: Engine, n: real)
    requires CheckWhole(n, 6000).None?
    ensures |PulsesCommand(e, n.Floor)| == (if V9(e) then 6 else 5)
    ensures ParseInt(PulsesCommand(e, n.Floor)[1..]) == Some(n.Floor)
  {
    if V9(e) {
      CommandFieldFits(TAG_D, n.Floor, 5);
    } else {
      CommandFieldFits(TAG_D, n.Floor, 4);
    }
  }

  // ------------------------------------------------------------ rTMS mode

  /** The command that switches repetitive mode: a duration of 1.0 s turns it
      on and a duration of zero turns it off. */
  function ModeCommand(e: Engine, enable: bool): (c: Bytes)
    ensures c == DurationCommand(e, if enable then 10 else 0)
  {
    var d := if enable then 49 else 48;
    if V9(e) then [TAG_BRACKET, 48, 48, d, 48] else [TAG_BRACKET, 48, d, 48]
  }

  const FREQUENCY_1HZ: Bytes := [TAG_B, 48, 48, 49, 48] // 'B0010'

  /** After repetitive mode is switched on: re-read, and set 1 Hz if the
      frequency is zero. */
  function EnsureFrequency(e: Engine, env: Env): (s: Stage<Payload>)
    requires e.model == Rapid
    ensures Reread(e, env).Halt? ==> s == Halt(Reread(e, env).out, Reread(e, env).env)
    ensures Reread(e, env).Proceed? && Reread(e, env).value.payload.frequency != 0 ==>
      s == Proceed(Reread(e, env).value.payload, Reread(e, env).env)
    ensures Reread(e, env).Proceed? && Reread(e, env).value.payload.frequency == 0 && e.connected ==>
      s.env.sent == Reread(e, env).env.sent + [Write(Frame(FREQUENCY_1HZ), true, Some(4))]
    ensures Reread(e, env).Proceed? && s.Halt? ==> s.out == Fail(PARAMETER_UPDATE_ERR) || s.out.Raised? || s.out.Blocked?
    ensures Extends(s.env.sent, env.sent)
  {
    match Reread(e, env)
    case Halt(o, env1) => Halt(o, env1)
    case Proceed(p, env1) =>
      if p.payload.frequency != 0 then Proceed(p.payload, env1)
      else
        var b := Process(e, env1, FREQUENCY_1HZ, Some(InstrRapid), Some(4));
        match b.out
        case Ok(_) => Proceed(p.payload, b.env)
        case Fail(_) => Halt(Fail(PARAMETER_UPDATE_ERR), b.env)
        case _ => Halt(Unpack(b.out), b.env)
  }

  /** `singlePulseMode` of a parameter reply's rTMS status byte. */
  function SinglePulse(p: Parsed): bool
    requires RapidReply(p)
  {
    RapidOf(p).singlePulseMode
  }

  /** The switch itself, once the stimulator is known to be in the other mode. */
  function SwitchMode(e: Engine, env: Env, enable: bool, receipt: bool): (r: Result)
    requires e.model == Rapid
    ensures e.connected ==> |r.env.sent| > |env.sent| && r.env.sent[|env.sent|] == Write(Frame(ModeCommand(e, enable)), true, Some(4))
    ensures r.engine == e || r.engine == e.(repetitive := enable)
    ensures !receipt ==> !r.out.Ok?
  {
    var s := Process(e, env, ModeCommand(e, enable), Some(InstrRapid), Some(4));
    var r := if !s.out.Ok? then Result(Receipt(s.out, receipt), e, s.env) else Toggled(e, s, enable, receipt);
    if e.connected then ExtendsAt(r.env.sent, s.env.sent, |env.sent|); r else r
  }

  /** After an accepted toggle the driver's flag follows it; enabling also
      makes sure the frequency is not zero. */
  function Toggled(e: Engine, s: Exchange, enable: bool, receipt: bool): (r: Result)
    requires e.model == Rapid && s.out.Ok?
    ensures r.engine == e.(repetitive := enable)
    ensures Extends(r.env.sent, s.env.sent)
    ensures !receipt ==> !r.out.Ok?
  {
    var e2 := e.(repetitive := enable);
    if !enable then Result(Receipt(s.out, receipt), e2, s.env)
    else
      match EnsureFrequency(e2, s.env)
      case Halt(o, env2) => Result(o, e2, env2)
      case Proceed(_, env2) => Result(Receipt(s.out, receipt), e2, env2)
  }

  /** `rTMSMode(enable, receipt)`: re-read; when the stimulator is already in
      the requested mode answer with the status alone; otherwise switch. */
  function RTMSMode(e: Engine, env: Env, enable: bool, receipt: bool): (r: Result)
    requires e.model == Rapid
    ensures r.engine == e.(validated := false) || r.engine == e.(validated := false, repetitive := enable)
    ensures !receipt ==> !r.out.Ok?
  {
    var e1 := e.(validated := false);
    match Reread(e1, env)
    case Halt(o, env1) => Result(o, e1, env1)
    case Proceed(p, env1) =>
      if SinglePulse(p) != enable then
        Result(if receipt then Ok(Some(p.(payload := NoFields))) else Silent, e1, env1)
      else SwitchMode(e1, env1, enable, receipt)
  }

  /** `rTMSMode` when the stimulator is already in the requested mode: the
      status alone is answered, with the parameter fields dropped, and
      nothing beyond the query is sent. Otherwise the next frame is the
      switch. */
  lemma RTMSModeAnswersOrSwitches(e: Engine, env: Env, enable: bool, receipt: bool)
    requires e.model == Rapid && Reread(e.(validated := false), env).Proceed?
    ensures var g := Reread(e.(validated := false), env);
      var r := RTMSMode(e, env, enable, receipt);
      if SinglePulse(g.value) != enable then
        r == Result(if receipt then Ok(Some(g.value.(payload := NoFields))) else Silent, e.(validated := false), g.env)
      else
        (e.connected ==> |r.env.sent| > |g.env.sent| &&
                         r.env.sent[|g.env.sent|] == Write(Frame(ModeCommand(e, enable)), true, Some(4)))
  {
  }

  /** The repetitive flag changes only once the stimulator has accepted the
      switch. */
  lemma ModeFlagFollowsDevice(e: Engine, env: Env, enable: bool, receipt: bool)
    requires e.model == Rapid
    ensures SwitchMode(e, env, enable, receipt).engine.repetitive != e.repetitive ==>
      Process(e, env, ModeCommand(e, enable), Some(InstrRapid), Some(4)).out.Ok?
  {
  }

  // ------------------------------------------------- validation and firing

  function MinReal(a: real, b: real): real {
    if a <= b then a else b
  }

  /** `getRapidMaxOnTime`: the longest train, in seconds, the energy budget
      of 63000 J allows at the reply's power and frequency; `None` where the
      driver raises (no table entry, or a division by zero). */
  function MaxOnTime(cfg: Config, power: int, frequency: int): (t: Option<real>)
    ensures t.Some? <==> cfg.joules(power).Some? && frequency != 0 && cfg.joules(power).value != 0.0
  {
    match cfg.joules(power)
    case None => None
    case Some(j) =>
      if frequency == 0 || j == 0.0 then None
      else Some(63000.0 / ((frequency as real / 10.0) * j))
  }

  /** A train within the energy budget: its duration, counted at most up to
      60 s, does not exceed the longest allowed train. */
  predicate WithinOnTime(cfg: Config, p: Payload)
    requires p.RapidFields?
    // a train whose budget cannot be computed never passes
    ensures WithinOnTime(cfg, p) ==> p.frequency != 0 && cfg.joules(p.power).Some?
  {
    var t := MaxOnTime(cfg, p.power, p.frequency);
    t.Some? && MinReal(p.duration as real / 10.0, 60.0) <= t.value
  }

  /** With a positive rate and pulse energy, the budget says that the energy
      of the first minute of the train is at most 63 kJ. */
  lemma WithinOnTimeIsEnergyBudget(cfg: Config, p: Payload)
    requires p.RapidFields? && cfg.joules(p.power).Some? && cfg.joules(p.power).value > 0.0 && p.frequency > 0
    ensures WithinOnTime(cfg, p) <==>
      MinReal(p.duration as real / 10.0, 60.0) * (p.frequency as real / 10.0) * cfg.joules(p.power).value <= 63000.0
  {
  }

  /** `validateSequence()`: the flag is set exactly when the current
      parameters are within the energy budget. */
  function ValidateSequence(cfg: Config, e: Engine, env: Env): (r: Result)
    requires e.model == Rapid
    ensures r.engine == e.(validated := r.out.Ok?)
    ensures r.env == GetParameters(e, env).env
    ensures GetParameters(e, env).out.Fail? ==> r.out == Fail(PARAMETER_ACQUISTION_ERR)
    ensures GetParameters(e, env).out.Ok? ==>
      var p := GetParameters(e, env).out.reply.value.payload;
      p.RapidFields? && (r.out.Ok? <==> WithinOnTime(cfg, p))
  {
    // the query does not depend on the flag, which is cleared first
    var e1 := e.(validated := false);
    match Reread(e, env)
    case Halt(o, env1) => Result(o, e1, env1)
    case Proceed(p, env1) =>
      match MaxOnTime(cfg, p.payload.power, p.payload.frequency)
      case None => Result(Raised, e1, env1)
      case Some(t) =>
        if MinReal(p.payload.duration as real / 10.0, 60.0) > t then Result(Fail(MAX_ON_TIME_ERR), e1, env1)
        else Result(Ok(Some(p)), e.(validated := true), env1)
  }

  /** A computable budget that the train exceeds is answered with 18. */
  lemma OverBudgetIs18(cfg: Config, e: Engine, env: Env)
    requires e.model == Rapid && GetParameters(e, env).out.Ok?
    ensures var p := GetParameters(e, env).out.reply.value.payload;
      p.RapidFields? &&
      (ValidateSequence(cfg, e, env).out == Fail(MAX_ON_TIME_ERR) <==> MaxOnTime(cfg, p.power, p.frequency).Some? && !WithinOnTime(cfg, p))
  {
  }

  /** A train that fits the energy budget still fits when it is shortened. */
  lemma ShorterTrainStaysValid(cfg: Config, p: Payload, d: int)
    requires p.RapidFields? && WithinOnTime(cfg, p) && d <= p.duration
    ensures WithinOnTime(cfg, p.(duration := d))
  {
    assert d as real / 10.0 <= p.duration as real / 10.0;
  }

  /** Beyond 60 s the duration no longer matters: a train that fits the
      budget at 60 s fits at any length. */
  lemma LongTrainsJudgedAtOneMinute(cfg: Config, p: Payload, d: int)
    requires p.RapidFields? && p.duration >= 600 && d >= 600
    ensures WithinOnTime(cfg, p) <==> WithinOnTime(cfg, p.(duration := d))
  {
    assert MinReal(d as real / 10.0, 60.0) == 60.0 == MinReal(p.duration as real / 10.0, 60.0);
  }

  /** Firing is refused while a repetitive train has not been validated and
      the energy safety is on. */
  predicate SequenceLocked(cfg: Config, e: Engine)
    // single-pulse mode and a disabled energy safety never lock
    ensures SequenceLocked(cfg, e) ==> e.repetitive && cfg.enforceSafety
  {
    e.repetitive && cfg.enforceSafety && !e.validated
  }

  /** A successful validation unlocks firing: the next `fire` sends `EH`. */
  lemma ValidationUnlocks(cfg: Config, e: Engine, env: Env, later: Env, receipt: bool)
    requires e.model == Rapid && ValidateSequence(cfg, e, env).out.Ok?
    ensures var v := ValidateSequence(cfg, e, env).engine;
      !SequenceLocked(cfg, v) &&
      (v.connected ==> RapidFire(cfg, v, later, receipt).env.sent == later.sent + [Write(Frame([TAG_E, TAG_H]), receipt, Some(3))])
  {
  }

  /** Rapid `fire(receipt)`. */
  function RapidFire(cfg: Config, e: Engine, env: Env, receipt: bool): (x: Exchange)
    ensures SequenceLocked(cfg, e) ==> x == Exchange(Fail(SEQUENCE_VALIDATION_ERR), env)
    ensures !SequenceLocked(cfg, e) && e.connected ==>
      x.env.sent == env.sent + [Write(Frame([TAG_E, TAG_H]), receipt, Some(3))]
    ensures x.env.sent != env.sent ==> !SequenceLocked(cfg, e)
  {
    if SequenceLocked(cfg, e) then Exchange(Fail(SEQUENCE_VALIDATION_ERR), env)
    else Fire(e, env, receipt)
  }

  /** Rapid `quickFire()`: the RTS pin is raised only when firing is allowed. */
  function RapidQuickFire(cfg: Config, e: Engine, env: Env): (x: Exchange)
    ensures SequenceLocked(cfg, e) ==> x == Exchange(Fail(SEQUENCE_VALIDATION_ERR), env)
    ensures !SequenceLocked(cfg, e) ==> x.out == Silent && x.env.sent == env.sent + [RtsHigh]
  {
    if SequenceLocked(cfg, e) then Exchange(Fail(SEQUENCE_VALIDATION_ERR), env)
    else Exchange(Silent, QuickFire(env))
  }

  /** Rapid `disconnect()`: both flags are cleared before the base disconnect. */
  function RapidDisconnect(e: Engine, env: Env): (r: Result)
    ensures !r.engine.validated && !r.engine.repetitive
    ensures e.connected && !(r.out.Raised? || r.out.Blocked?) ==> !r.engine.connected
  {
    Disconnect(e.(validated := false, repetitive := false), env)
  }
}
