/** The driver's command round trip `Magstim._processCommand`
    (magpy/magstim.py:391-445): the remote-control gate, the framed write, the
    classification of the reply and the robot signal after success.

    The serial worker and the robot run in other processes; here the reply
    queue is an oracle (`Env.inbox`) and what the driver puts on the other two
    queues is logged (`Env.sent`, `Env.signals`). */
module Command {
  import opened Bytes
  import opened Checksum
  import opened Response
  import opened Framer
  import opened Heartbeat

  // Command tags.
  const AT: Byte := 64     // '@', the placeholder data byte
  const TAG_A: Byte := 65  // 'A'
  const TAG_B: Byte := 66  // 'B'
  const TAG_C: Byte := 67  // 'C'
  const TAG_D: Byte := 68  // 'D'
  const TAG_E: Byte := 69  // 'E'
  const TAG_F: Byte := 70  // 'F'
  const TAG_H: Byte := 72  // 'H'
  const TAG_I: Byte := 73  // 'I'
  const TAG_J: Byte := 74  // 'J'
  const TAG_N: Byte := 78  // 'N'
  const TAG_Q: Byte := 81  // 'Q'
  const TAG_R: Byte := 82  // 'R'
  const TAG_S: Byte := 83  // 'S'
  const TAG_Y: Byte := 89  // 'Y'
  const TAG_Z: Byte := 90  // 'Z'
  const TAG_BRACKET: Byte := 91   // '['
  const TAG_BACKSLASH: Byte := 92 // '\\'
  const TAG_CARET: Byte := 94     // '^'
  const TAG_UNDERSCORE: Byte := 95 // '_'
  const TAG_b: Byte := 98   // 'b'
  const TAG_n: Byte := 110  // 'n'
  const TAG_o: Byte := 111  // 'o'
  const TAG_x: Byte := 120  // 'x'

  // Error codes of the driver.
  const INVALID_COMMAND_ERR: int := 3
  const INVALID_DATA_ERR: int := 4
  const COMMAND_CONFLICT_ERR: int := 5
  const INVALID_CONFIRMATION_ERR: int := 6
  const CRC_MISMATCH_ERR: int := 7
  const NO_REMOTE_CONTROL_ERR: int := 8
  const PARAMETER_ACQUISTION_ERR: int := 9
  const PARAMETER_UPDATE_ERR: int := 10
  const PARAMETER_FLOAT_ERR: int := 11
  const PARAMETER_PRECISION_ERR: int := 12
  const PARAMETER_RANGE_ERR: int := 13
  const SYSTEM_STATUS_VERSION_ERR: int := 15
  const SEQUENCE_VALIDATION_ERR: int := 16
  const MAX_ON_TIME_ERR: int := 18

  datatype Model = Magstim200 | BiStim | Rapid

  /** The driver object's state. */
  datatype Engine = Engine(
    model: Model,
    connected: bool,
    paramBytes: Option<int>, // `_parameterReturnBytes`
    version: seq<int>,       // `_version`
    validated: bool,         // `_sequenceValidated`
    repetitive: bool,        // `_repetitiveMode`
    highRes: bool,           // `_highResolutionMode`
    unlockCode: Bytes)

  /** The driver's side of its three queues. */
  datatype Env = Env(
    inbox: seq<Posting>,     // what the serial worker will post, in order
    sent: seq<Directive>,    // what the driver has put on the write queue
    signals: seq<Signal>,    // what the driver has put on the robot queue
    sleeps: seq<int>)        // the delays it has slept, in milliseconds

  /** What a driver call comes to: `(0, message)`, an error pair
      `(code, text)` (every error constant of the driver is such a pair), a
      bare `None` (no receipt asked for), an exception, or waiting forever on
      an empty reply queue. */
  datatype Outcome = Ok(reply: Option<Parsed>) | Fail(code: int) | Silent | Raised | Blocked

  datatype Exchange = Exchange(out: Outcome, env: Env)

  /** Commands that may be sent without remote control: Q, R, J, F, the
      command `EA`, and `\\` once the parameter reply length is known. */
  predicate Gate(e: Engine, cmd: Bytes)
    // without remote control the only `E` command let through is disarming
    ensures !e.connected && |cmd| >= 1 && cmd[0] == TAG_E ==> (Gate(e, cmd) <==> cmd == [TAG_E, TAG_A])
    // the parameter query waits for the reply length to be known
    ensures !e.connected && |cmd| >= 1 && cmd[0] == TAG_BACKSLASH ==> (Gate(e, cmd) <==> e.paramBytes.Some?)
  {
    e.connected ||
    (|cmd| >= 1 &&
     (cmd[0] in {TAG_Q, TAG_R, TAG_J, TAG_F} || cmd == [TAG_E, TAG_A] ||
      (cmd[0] == TAG_BACKSLASH && e.paramBytes.Some?)))
  }

  /** `after` is `before` with more directives queued behind it. */
  predicate Extends(after: seq<Directive>, before: seq<Directive>) {
    |after| >= |before| && after[..|before|] == before
  }

  /** Extending is transitive. */
  lemma ExtendsTrans(c: seq<Directive>, b: seq<Directive>, a: seq<Directive>)
    requires Extends(c, b) && Extends(b, a)
    ensures Extends(c, a)
  {
    assert c[..|a|] == c[..|b|][..|a|];
  }

  /** A log that extends another keeps each of its entries in place. */
  lemma ExtendsAt(after: seq<Directive>, before: seq<Directive>, i: int)
    requires Extends(after, before) && 0 <= i < |before|
    ensures after[i] == before[i]
  {
    assert after[..|before|][i] == after[i];
  }

  datatype Verdict = Accept | Reject(code: int) | Crash

  /** The reply checks of magpy/magstim.py:414-433, in their order. */
  function Classify(cmd: Bytes, reply: Bytes): (v: Verdict)
    ensures v == Reject(INVALID_COMMAND_ERR) <==> |reply| >= 1 && reply[0] == TAG_QUERY
    ensures v.Accept? ==> |reply| >= 2 && |cmd| >= 1 && reply[0] == cmd[0] && CrcOk(reply)
    ensures v.Accept? ==> reply[1] != TAG_QUERY && reply[1] != TAG_CONFLICT
    ensures v.Reject? ==> INVALID_COMMAND_ERR <= v.code <= CRC_MISMATCH_ERR
    ensures v.Crash? <==>
      (|reply| == 0 || (reply[0] != TAG_QUERY && (|reply| == 1 ||
       (reply[1] != TAG_QUERY && reply[1] != TAG_CONFLICT && |cmd| == 0))))
  {
    if |reply| == 0 then Crash
    else if reply[0] == TAG_QUERY then Reject(INVALID_COMMAND_ERR)
    else if |reply| < 2 then Crash
    else if reply[1] == TAG_QUERY then Reject(INVALID_DATA_ERR)
    else if reply[1] == TAG_CONFLICT then Reject(COMMAND_CONFLICT_ERR)
    else if |cmd| == 0 then Crash
    else if reply[0] != cmd[0] then Reject(INVALID_CONFIRMATION_ERR)
    else if !CrcOk(reply) then Reject(CRC_MISMATCH_ERR)
    else Accept
  }

  /** The robot signal after an accepted command, when connected. */
  function Notify(e: Engine, env: Env, cmd: Bytes): (r: Env)
    ensures r.inbox == env.inbox && r.sent == env.sent && r.sleeps == env.sleeps
    ensures r.signals == env.signals + (if e.connected then [CommandSignal(cmd)] else [])
  {
    if e.connected then env.(signals := env.signals + [CommandSignal(cmd)]) else env
  }

  /** `_processCommand(cmd, kind, readBytes)`; `kind == None` asks for no reply. */
  function Process(e: Engine, env: Env, cmd: Bytes, kind: Option<ReplyKind>, readBytes: Option<int>): (x: Exchange)
    // the gate: a refused command is answered with code 8 and nothing is queued
    ensures !Gate(e, cmd) && (e.connected || |cmd| >= 1) ==> x == Exchange(Fail(NO_REMOTE_CONTROL_ERR), env)
    ensures Gate(e, cmd) ==> x.env.sent == env.sent + [Write(Frame(cmd), kind.Some?, readBytes)]
    ensures !Gate(e, cmd) ==> x.env.sent == env.sent
    ensures x.env.sleeps == env.sleeps
    // without a receipt the driver does not wait
    ensures Gate(e, cmd) && kind.None? ==> x.out == Ok(None) && x.env.inbox == env.inbox
    // with one it takes exactly one posting, or blocks on an empty queue
    ensures Gate(e, cmd) && kind.Some? && |env.inbox| == 0 ==> x.out == Blocked
    ensures Gate(e, cmd) && kind.Some? && |env.inbox| > 0 ==> x.env.inbox == env.inbox[1..]
    // transport errors pass through unchanged
    ensures Gate(e, cmd) && kind.Some? && |env.inbox| > 0 && env.inbox[0].code != 0 ==> x.out == Fail(env.inbox[0].code)
    // hardware rejections are classified in order
    ensures (Gate(e, cmd) && kind.Some? && |env.inbox| > 0 && env.inbox[0].code == 0 &&
             Classify(cmd, env.inbox[0].data).Reject?) ==> x.out == Fail(Classify(cmd, env.inbox[0].data).code)
    // an accepted reply is parsed from between its tag and its checksum
    ensures x.out.Ok? && x.out.reply.Some? ==>
      kind.Some? && |env.inbox| > 0 && env.inbox[0].code == 0 && Classify(cmd, env.inbox[0].data).Accept? &&
      Parse(Inner(env.inbox[0].data), kind.value) == x.out.reply
    // the robot hears of every success, and of nothing else
    ensures x.out.Ok? ==> x.env.signals == env.signals + (if e.connected then [CommandSignal(cmd)] else [])
    ensures x.out.Fail? ==> x.env.signals == env.signals && x.out.code != 0
  {
    if !e.connected && |cmd| == 0 then Exchange(Raised, env)
    else if !Gate(e, cmd) then Exchange(Fail(NO_REMOTE_CONTROL_ERR), env)
    else
      var env1 := env.(sent := env.sent + [Write(Frame(cmd), kind.Some?, readBytes)]);
      if kind.None? then Exchange(Ok(None), Notify(e, env1, cmd))
      else if |env1.inbox| == 0 then Exchange(Blocked, env1)
      else
        var p := env1.inbox[0];
        var env2 := env1.(inbox := env1.inbox[1..]);
        if p.code != 0 then Exchange(Fail(p.code), env2)
        else
          match Classify(cmd, p.data)
          case Crash => Exchange(Raised, env2)
          case Reject(c) => Exchange(Fail(c), env2)
          case Accept =>
            var env3 := Notify(e, env2, cmd);
            var parsed := Parse(Inner(p.data), kind.value);
            if parsed.None? then Exchange(Raised, env3) else Exchange(Ok(parsed), env3)
  }

  /** A reply the driver accepts stops being accepted when any one of its bytes
      is corrupted, whether the tag, the data or the checksum. */
  lemma CorruptReplyRejected(cmd: Bytes, reply: Bytes, i: nat, b: Byte)
    requires Classify(cmd, reply).Accept? && i < |reply| && b != reply[i]
    ensures !Classify(cmd, reply[i := b]).Accept?
  {
    SingleByteCorruptionDetected(reply, i, b);
  }

  /** A reply is accepted exactly when it echoes the tag, carries neither `'?'`
      nor `'S'` in its first two bytes, and its checksum holds. */
  lemma AcceptIff(cmd: Bytes, reply: Bytes)
    ensures Classify(cmd, reply).Accept? <==>
      (|cmd| >= 1 && |reply| >= 2 && reply[0] == cmd[0] && reply[0] != TAG_QUERY &&
       reply[1] != TAG_QUERY && reply[1] != TAG_CONFLICT && CrcOk(reply))
  {
  }

  /** Python's `v % 1 == 0`. */
  predicate IsWhole(v: real) {
    v.Floor as real == v
  }

  /** The error code of an outcome as the driver's `error, message = ...`
      reads it: 0 for success; `None` where there is no pair to unpack. */
  function ErrorOf(o: Outcome): (r: Option<int>)
    ensures r.Some? <==> o.Ok? || o.Fail?
    ensures o.Ok? ==> r == Some(0)
  {
    match o
    case Ok(_) => Some(0)
    case Fail(c) => Some(c)
    case _ => None
  }

  /** The statement `error, message = o`: a bare `None` cannot be unpacked. */
  function Unpack(o: Outcome): (r: Outcome)
    ensures ErrorOf(o).Some? ==> r == o
    ensures ErrorOf(o).None? ==> r == (if o.Blocked? then Blocked else Raised)
  {
    if o.Ok? || o.Fail? || o.Blocked? then o else Raised
  }
}
