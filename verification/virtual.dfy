/** The virtual stimulators of magpy/_virtual.py: `virtualMagstim`,
    `virtualBiStim` and `virtualRapid`, each a transition from its state, one
    command frame and the current time (integer milliseconds) to its new state
    and reply. The device's remote-control expiry timer is not modelled. */
module Virtual {
  import opened Bytes
  import opened Decimal
  import opened Checksum
  import opened StatusBits
  import opened Response
  import opened Framer
  import opened Command

  /** A time stamp; `Never` is the device's `float('-Inf')`. */
  datatype Stamp = Never | At(ms: int)

  /** `now > t + gap`, which `-Inf` always satisfies. */
  predicate Passed(t: Stamp, gap: int, now: int) {
    t.Never? || now > t.ms + gap
  }

  /** `max(a, b)` of two stamps. */
  function Latest(a: Stamp, b: Stamp): (r: Stamp)
    ensures r == a || r == b
    ensures r.Never? <==> a.Never? && b.Never?
    ensures r.At? ==> (a.At? ==> a.ms <= r.ms) && (b.At? ==> b.ms <= r.ms)
  {
    if a.Never? then b
    else if b.Never? then a
    else if a.ms >= b.ms then a else b
  }

  datatype Unit = Unit200 | UnitBiStim | UnitRapid

  /** The state of a virtual stimulator. Fields a unit does not have keep
      their initial values. */
  datatype Device = Device(
    unit: Unit,
    instr: InstrStatus,
    rapid: RapidStatus,      // `_rapidStatus`
    power: int,
    powerB: int,
    ppOffset: int,
    highRes: bool,
    frequency: int,          // the Rapid's `_params`, as stored
    nPulses: int,
    duration: int,
    wait: int,
    coil1: int,              // coil temperatures, in tenths of a degree
    coil2: int,
    lastFired: Stamp,
    timeArmed: Stamp,
    chargeDelay: int,
    version: seq<int>,
    plus1: bool)             // `plus1ModuleDetected`: a Super Rapid Plus

  /** The Rapid's `_secretUnlockCode`, `'1234-12345678-ý\x91'` in Latin-1. */
  const SECRET: Bytes := [49, 50, 51, 52, 45, 49, 50, 51, 52, 53, 54, 55, 56, 45, 253, 145]

  /** A device as its constructor leaves it. */
  function Fresh(unit: Unit, version: seq<int>, superRapid: int): (d: Device)
    ensures d.instr.standby && d.instr.coilPresent && !d.instr.armed && !d.instr.ready && !d.instr.remoteStatus
    ensures d.rapid.singlePulseMode && !d.rapid.enhancedPowerMode
    ensures d.power == 30 && d.lastFired.Never? && d.timeArmed.Never?
    ensures d.plus1 <==> superRapid > 1
  {
    Device(unit,
      InstrStatus(true, false, false, true, false, false, false, false),
      RapidStatus(false, false, false, true, true, true, true, false),
      30, 30, 10, false, 0, 1, 0, 1, 240, 240, Never, Never, 0, version, superRapid > 1)
  }

  /** What the device does with a frame: a reply, no reply at all, or an
      exception that ends the device's thread. */
  datatype VReply = NoReply | Reply(bytes: Bytes) | Crashed

  datatype Step = Step(dev: Device, reply: VReply)

  /** A reply `message[0] + data + calcCRC(message[0] + data)`. */
  function Answer(tag: Byte, data: Bytes): (r: VReply)
    ensures r.Reply? && |r.bytes| == |data| + 2 && r.bytes[0] == tag && CrcOk(r.bytes)
    ensures Inner(r.bytes) == data
  {
    var f := Frame([tag] + data);
    assert Inner(f) == data by {
      assert f[..|data| + 1] == [tag] + data;
    }
    Reply(f)
  }

  /** The bare `'?'` of a command the device does not know. */
  const UNKNOWN: VReply := Reply([TAG_QUERY])

  /** What every reply of the device is: the bare `'?'`, or a frame that
      echoes the command's tag and carries its own checksum. */
  predicate Echoes(m: Bytes, r: VReply) {
    r.Reply? ==> |m| >= 1 && (r == UNKNOWN || (|r.bytes| >= 2 && r.bytes[0] == m[0] && CrcOk(r.bytes)))
  }

  /** `_parseStatus(self._instrStatus)`. */
  function StatusByte(d: Device): Byte {
    EncodeInstr(d.instr)
  }

  /** `_disarm`: back to standby. */
  function Disarm(s: InstrStatus): (r: InstrStatus)
    ensures r.standby && !r.armed && !r.ready
    ensures r.remoteStatus == s.remoteStatus && r.coilPresent == s.coilPresent
  {
    s.(ready := false, armed := false, standby := true)
  }

  /** `_okToFire`: the time since the last pulse the unit needs before it
      may fire again. The Rapid reads its stored wait as seconds. */
  function FireGap(d: Device): (ms: int)
    ensures d.unit == Unit200 ==> ms == (if 0 <= d.power <= 49 then 2000 else if 50 <= d.power <= 79 then 3000 else 4000)
    ensures d.unit == UnitBiStim ==> ms == 4000
    ensures d.unit == UnitRapid ==> ms == d.wait * 1000
  {
    match d.unit
    case Unit200 => if 0 <= d.power <= 49 then 2000 else if 50 <= d.power <= 79 then 3000 else 4000
    case UnitBiStim => 4000
    case UnitRapid => d.wait * 1000
  }

  predicate OkToFire(d: Device, now: int) {
    Passed(d.lastFired, FireGap(d), now)
  }

  /** A minute has passed since the last arming or pulse of an armed or
      ready device. */
  predicate Expired(d: Device, now: int) {
    (d.instr.armed || d.instr.ready) && Passed(Latest(d.timeArmed, d.lastFired), 60000, now)
  }

  /** The time-driven updates that precede every message of the base class:
      a device armed or ready for a minute drops to standby, and one armed
      for a second that may fire becomes ready. */
  function Settle(d: Device, now: int): (r: Device)
    ensures r == d.(instr := r.instr)
    ensures r.instr.remoteStatus == d.instr.remoteStatus && r.instr.coilPresent == d.instr.coilPresent
    ensures r.instr.errorPresent == d.instr.errorPresent && r.instr.errorType == d.instr.errorType
    ensures r.instr.replaceCoil == d.instr.replaceCoil
    ensures Expired(d, now) ==> r.instr == Disarm(d.instr)
    ensures !Expired(d, now) && d.instr.armed && Passed(d.timeArmed, 1000, now) && OkToFire(d, now) ==>
      r.instr == d.instr.(armed := false, ready := true)
    ensures !Expired(d, now) && !(d.instr.armed && Passed(d.timeArmed, 1000, now) && OkToFire(d, now)) ==>
      r == d
  {
    var d1 := if Expired(d, now) then d.(instr := Disarm(d.instr)) else d;
    if d1.instr.armed && Passed(d1.timeArmed, 1000, now) && OkToFire(d1, now) then
      d1.(instr := d1.instr.(armed := false, ready := true))
    else d1
  }

  /** `_getParams` of each unit. */
  function Params(d: Device): Bytes {
    match d.unit
    case Unit200 => Field(d.power, 3) + Zeros(6)
    case UnitBiStim => Encode([d.power, d.powerB, d.ppOffset], [3, 3, 3])
    case UnitRapid => Encode([d.power, d.frequency, d.nPulses, d.duration], [3, 4, 4, 3]) + Field(d.wait, 3)
  }

  /** `_getCoilTemp`. */
  function CoilTemp(d: Device): Bytes {
    Encode([d.coil1, d.coil2], [3, 3])
  }

  /** `int(message[1:-1])` checked against `lo..hi`. */
  datatype Setting = Unreadable | OutOfRange | Accepted(n: int)

  function ReadSetting(m: Bytes, lo: int, hi: int): (s: Setting)
    ensures s.Unreadable? <==> ParseInt(Inner(m)).None?
    ensures s.Accepted? <==> ParseInt(Inner(m)).Some? && lo <= ParseInt(Inner(m)).value <= hi
    ensures s.Accepted? ==> s.n == ParseInt(Inner(m)).value
  {
    match ParseInt(Inner(m))
    case None => Unreadable
    case Some(n) => if lo <= n <= hi then Accepted(n) else OutOfRange
  }

  /** `@` with remote control: the level is stored within `0..max`; data
      that is not a number answers `'?'` and a level out of range `'S'`. */
  function SetLevel(d: Device, m: Bytes, max: int): (s: Step)
    requires |m| >= 1
    ensures ReadSetting(m, 0, max).Accepted? ==>
      s == Step(d.(power := ReadSetting(m, 0, max).n), Answer(m[0], [StatusByte(d)]))
    ensures ReadSetting(m, 0, max).Unreadable? ==> s == Step(d, Answer(m[0], [TAG_QUERY]))
    ensures ReadSetting(m, 0, max).OutOfRange? ==> s == Step(d, Answer(m[0], [TAG_CONFLICT]))
  {
    match ReadSetting(m, 0, max)
    case Unreadable => Step(d, Answer(m[0], [TAG_QUERY]))
    case OutOfRange => Step(d, Answer(m[0], [TAG_CONFLICT]))
    case Accepted(n) => Step(d.(power := n), Answer(m[0], [StatusByte(d)]))
  }

  /** `E` with remote control: `EB` arms from standby, `EH` fires from
      ready; anything else answers `'S'`. */
  function ArmOrFire(d: Device, m: Bytes, now: int): (s: Step)
    requires |m| >= 1
    ensures |m| < 2 <==> s.reply.Crashed?
    // the answer carries the status from before the change, or 'S' with nothing changed
    ensures |m| >= 2 ==>
      s.reply == Answer(m[0], [StatusByte(d)]) || s == Step(d, Answer(m[0], [TAG_CONFLICT]))
    // only `EB` from standby starts the arming clock, only `EH` when ready fires
    ensures s.dev.timeArmed != d.timeArmed ==>
      |m| >= 2 && m[1] == TAG_B && d.instr.standby && s.dev.instr.armed && !s.dev.instr.standby && s.dev.timeArmed == At(now)
    ensures s.dev.lastFired != d.lastFired ==>
      |m| >= 2 && m[1] == TAG_H && d.instr.ready && s.dev.instr.armed && !s.dev.instr.ready && s.dev.lastFired == At(now)
  {
    if |m| < 2 then Step(d, Crashed)
    else if m[1] == TAG_B && d.instr.standby then
      Step(d.(instr := d.instr.(armed := true, standby := false), timeArmed := At(now)), Answer(m[0], [StatusByte(d)]))
    else if m[1] == TAG_H && d.instr.ready then
      Step(d.(instr := d.instr.(armed := true, ready := false), lastFired := At(now)), Answer(m[0], [StatusByte(d)]))
    else Step(d, Answer(m[0], [TAG_CONFLICT]))
  }

  /** `virtualMagstim._processMessage`. */
  function BaseStep(d: Device, m: Bytes, now: int): (s: Step)
    // the base class always answers: a frame echoing the tag, or a bare '?'
    ensures s.reply.Reply? || s.reply.Crashed?
    ensures Echoes(m, s.reply)
    ensures |m| == 0 ==> s.reply.Crashed?
    // a command whose checksum fails is answered with '?' as its data
    ensures |m| >= 1 && !CrcOk(m) ==> s == Step(Settle(d, now), Answer(m[0], [TAG_QUERY]))
  {
    var d1 := Settle(d, now);
    if |m| == 0 then Step(d1, Crashed)
    else if !CrcOk(m) then Step(d1, Answer(m[0], [TAG_QUERY]))
    else if m[0] == TAG_Q then
      var d2 := d1.(instr := d1.instr.(remoteStatus := true));
      Step(d2, Answer(m[0], [StatusByte(d2)]))
    else if m[0] == TAG_R then
      var d2 := d1.(instr := d1.instr.(remoteStatus := false));
      Step(d2.(instr := Disarm(d2.instr)), Answer(m[0], [StatusByte(d2)]))
    else if m[0] == TAG_J then Step(d1, Answer(m[0], [StatusByte(d1)] + Params(d1)))
    else if m[0] == TAG_F then Step(d1, Answer(m[0], [StatusByte(d1)] + CoilTemp(d1)))
    else if m[0] == AT || m[0] == TAG_E then
      if !d1.instr.remoteStatus then Step(d1, Answer(m[0], [TAG_CONFLICT]))
      else if m[0] == AT then SetLevel(d1, m, 100)
      else ArmOrFire(d1, m, now)
    else Step(d1, UNKNOWN)
  }

  // ------------------------------------------------------------------ BiStim

  /** `C`, the paired-pulse offset, as written: 0 is stored when in standby
      but still answers `'S'`, because the range test `1..999` that follows
      it is not an alternative. */
  function SetOffset(d: Device, m: Bytes): (s: Step)
    requires |m| >= 1
    ensures ReadSetting(m, 0, 0).Accepted? ==>
      s.reply == Answer(m[0], [TAG_CONFLICT]) && s.dev.ppOffset == (if d.instr.standby then 0 else d.ppOffset)
    ensures ReadSetting(m, 1, 999).Accepted? ==>
      s == Step(d.(ppOffset := ReadSetting(m, 1, 999).n), Answer(m[0], [StatusByte(d)]))
  {
    match ParseInt(Inner(m))
    case None => Step(d, Answer(m[0], [TAG_QUERY]))
    case Some(n) =>
      if n == 0 then Step(if d.instr.standby then d.(ppOffset := 0) else d, Answer(m[0], [TAG_CONFLICT]))
      else if 1 <= n <= 999 then Step(d.(ppOffset := n), Answer(m[0], [StatusByte(d)]))
      else Step(d, Answer(m[0], [TAG_CONFLICT]))
  }

  /** The BiStim's own commands, tried when the base class answers `'?'`. */
  function BiStimOwn(d: Device, m: Bytes): (s: Step)
    requires |m| >= 1
    ensures s.reply.Reply? && Echoes(m, s.reply)
    ensures m[0] == TAG_A && d.instr.remoteStatus && ReadSetting(m, 0, 100).Accepted? ==>
      s == Step(d.(powerB := ReadSetting(m, 0, 100).n), Answer(m[0], [StatusByte(d)]))
    ensures m[0] in {TAG_A, TAG_Y, TAG_Z, TAG_C} && !d.instr.remoteStatus ==> s == Step(d, Answer(m[0], [TAG_CONFLICT]))
  {
    if m[0] in {TAG_A, TAG_Y, TAG_Z, TAG_C} then
      if !d.instr.remoteStatus then Step(d, Answer(m[0], [TAG_CONFLICT]))
      else if m[0] == TAG_A then
        match ReadSetting(m, 0, 100)
        case Unreadable => Step(d, Answer(m[0], [TAG_QUERY]))
        case OutOfRange => Step(d, Answer(m[0], [TAG_CONFLICT]))
        case Accepted(n) => Step(d.(powerB := n), Answer(m[0], [StatusByte(d)]))
      else if m[0] == TAG_Y then Step(d.(highRes := true), Answer(m[0], [StatusByte(d)]))
      else if m[0] == TAG_Z then Step(d.(highRes := false), Answer(m[0], [StatusByte(d)]))
      else SetOffset(d, m)
    else Step(d, UNKNOWN)
  }

  /** `virtualBiStim._processMessage`: the base class first, then its own
      commands when the base class's reply starts with `'?'`. */
  function BiStimStep(d: Device, m: Bytes, now: int): (s: Step)
    ensures s.reply.Reply? || s.reply.Crashed?
    ensures Echoes(m, s.reply)
  {
    var p := BaseStep(d, m, now);
    if p.reply.Reply? && p.reply.bytes[0] == TAG_QUERY then BiStimOwn(p.dev, m) else p
  }

  // ------------------------------------------------------------------ Rapid

  /** `version >= (9, 0, 0)`, `version > (9, 0, 0)` and `version >= (10, 0, 0)`. */
  predicate From9(v: seq<int>) { !TupleLess(v, [9, 0, 0]) }
  predicate After9(v: seq<int>) { TupleLess([9, 0, 0], v) }
  predicate From10(v: seq<int>) { !TupleLess(v, [10, 0, 0]) }

  /** `''.join(str(x) for x in version)`. */
  function VersionDigits(v: seq<int>): Bytes {
    if |v| == 0 then [] else Str(v[0]) + VersionDigits(v[1..])
  }

  /** The low byte of the extended status: `plus1ModuleDetected` first of
      eight flags, so in bit 7. */
  function ExtLow(d: Device): Byte {
    var flags := [d.plus1, false, false, false, false, false, false, false];
    PackByte(flags);
    Pack(flags)
  }

  /** The commands the Rapid answers itself. */
  predicate RapidTag(b: Byte, v: seq<int>) {
    b in {TAG_Q, TAG_BACKSLASH, TAG_I, TAG_N, AT, TAG_E, TAG_b, TAG_CARET, TAG_UNDERSCORE, TAG_B, TAG_D, TAG_BRACKET} ||
    (After9(v) && b in {TAG_x, TAG_o, TAG_n})
  }

  /** The Rapid's commands that need remote control. Several branches
      raise: `o` calls `zfill` on an integer, `^` and `_` read a
      `_getRapidStatus` attribute that does not exist, and `[`, `B` and `D`
      read a `'singlePulseMode'` parameter that does not exist. */
  function RapidRemote(d: Device, m: Bytes): (s: Step)
    requires |m| >= 1 && d.instr.remoteStatus
    ensures m[0] == AT ==> s == SetLevel(d, m, if d.rapid.enhancedPowerMode then 110 else 100)
    ensures m[0] == TAG_n && ReadSetting(m, 0, if From10(d.version) then 10000 else 2000).Accepted? ==>
      s == Step(d.(chargeDelay := ReadSetting(m, 0, if From10(d.version) then 10000 else 2000).n), Answer(m[0], [StatusByte(d)]))
    ensures m[0] == TAG_n && !ReadSetting(m, 0, if From10(d.version) then 10000 else 2000).Accepted? ==> s.dev == d
  {
    var pre := [StatusByte(d)];
    if m[0] == TAG_N then
      if |m| < 2 then Step(d, Crashed)
      else if m[1] == TAG_D then Step(d, Answer(m[0], VersionDigits(d.version) + [0]))
      else Step(d, Answer(m[0], [TAG_QUERY]))
    else if m[0] == AT then SetLevel(d, m, if d.rapid.enhancedPowerMode then 110 else 100)
    else if m[0] == TAG_x then Step(d, Answer(m[0], pre + [EncodeRapid(d.rapid), 0, ExtLow(d)]))
    else if m[0] == TAG_o then Step(d, Crashed)
    else if m[0] == TAG_n then
      match ReadSetting(m, 0, if From10(d.version) then 10000 else 2000)
      case Unreadable => Step(d, Answer(m[0], [TAG_QUERY]))
      case OutOfRange => Step(d, Answer(m[0], [TAG_CONFLICT]))
      case Accepted(n) => Step(d.(chargeDelay := n), Answer(m[0], pre))
    else if m[0] == TAG_b then Step(d, Answer(m[0], pre))
    else if m[0] == TAG_CARET || m[0] == TAG_UNDERSCORE then
      if d.instr.standby then Step(d, Crashed) else Step(d, Answer(m[0], [TAG_CONFLICT]))
    else if m[0] in {TAG_BRACKET, TAG_B, TAG_D} then Step(d, Crashed)
    else Step(d, Answer(m[0], pre))
  }

  /** The Rapid's own commands, tried when the base class answers `'?'` or
      is bypassed. From version 9, `Q` is honoured only with the secret
      unlock code and is otherwise ignored. */
  function RapidOwn(d: Device, m: Bytes): (s: Step)
    requires |m| >= 1
    ensures Echoes(m, s.reply)
    ensures !RapidTag(m[0], d.version) ==> s == Step(d, UNKNOWN)
    ensures m[0] == TAG_Q && From9(d.version) && Inner(m) != SECRET ==> s == Step(d, NoReply)
    ensures m[0] == TAG_Q && !(From9(d.version) && Inner(m) != SECRET) ==>
      s.dev == d.(instr := d.instr.(remoteStatus := true)) && s.reply == Answer(m[0], [StatusByte(s.dev)])
    ensures m[0] == TAG_I ==> s == Step(d, Answer(m[0], [TAG_CONFLICT]))
  {
    if RapidTag(m[0], d.version) then
      if m[0] == TAG_Q then
        if From9(d.version) && Inner(m) != SECRET then Step(d, NoReply)
        else
          var d2 := d.(instr := d.instr.(remoteStatus := true));
          Step(d2, Answer(m[0], [StatusByte(d2)]))
      else if m[0] == TAG_BACKSLASH then
        Step(d, Answer(m[0], [StatusByte(d), EncodeRapid(d.rapid)] + Params(d)))
      else if m[0] == TAG_I then Step(d, Answer(m[0], [TAG_CONFLICT]))
      else if !d.instr.remoteStatus then Step(d, Answer(m[0], [TAG_CONFLICT]))
      else RapidRemote(d, m)
    else Step(d, UNKNOWN)
  }

  /** `virtualRapid._processMessage`. Without remote control only `Q`, `R`,
      `F` and `\\` get an answer. `Q`, `@` and `J` bypass the base class,
      so they skip its time-driven updates and its checksum test. */
  function RapidStep(d: Device, m: Bytes, now: int): (s: Step)
    ensures |m| >= 1 && !(m[0] in {TAG_Q, TAG_R, TAG_F, TAG_BACKSLASH}) && !d.instr.remoteStatus ==> s == Step(d, NoReply)
    ensures Echoes(m, s.reply)
  {
    if |m| == 0 then Step(d, Crashed)
    else if !(m[0] in {TAG_Q, TAG_R, TAG_F, TAG_BACKSLASH}) && !d.instr.remoteStatus then Step(d, NoReply)
    else
      var p := if m[0] in {TAG_Q, AT, TAG_J} then Step(d, UNKNOWN) else BaseStep(d, m, now);
      if p.reply == UNKNOWN then RapidOwn(p.dev, m) else p
  }

  /** One message to a virtual stimulator of any kind. */
  function Respond(d: Device, m: Bytes, now: int): (s: Step)
    ensures Echoes(m, s.reply)
  {
    match d.unit
    case Unit200 => BaseStep(d, m, now)
    case UnitBiStim => BiStimStep(d, m, now)
    case UnitRapid => RapidStep(d, m, now)
  }

  // -------------------------------------------------------------- properties

  /** `Q` takes remote control and reports the status after the change. */
  lemma RemoteOn(d: Device, m: Bytes, now: int)
    requires |m| >= 1 && CrcOk(m) && m[0] == TAG_Q
    ensures var s := BaseStep(d, m, now);
      s.dev == Settle(d, now).(instr := Settle(d, now).instr.(remoteStatus := true)) &&
      s.reply == Answer(TAG_Q, [EncodeInstr(s.dev.instr)]) &&
      DecodeInstr(Inner(s.reply.bytes)[0]).remoteStatus
  {
    var s := BaseStep(d, m, now);
    InstrRoundTrip(s.dev.instr);
  }

  /** `R` gives up remote control and forces standby; its reply shows remote
      control gone but the arming state from before the disarm. */
  lemma RemoteOff(d: Device, m: Bytes, now: int)
    requires |m| >= 1 && CrcOk(m) && m[0] == TAG_R
    ensures var st := Settle(d, now).instr.(remoteStatus := false);
      var s := BaseStep(d, m, now);
      s.dev.instr == Disarm(st) && !s.dev.instr.remoteStatus &&
      s.reply == Answer(TAG_R, [EncodeInstr(st)])
  {
  }

  /** With remote control, `EB` arms a device in standby and notes the
      time; the reply shows the status from before arming. */
  lemma ArmFromStandby(d: Device, m: Bytes, now: int)
    requires |m| >= 2 && CrcOk(m) && m[0] == TAG_E && m[1] == TAG_B
    requires Settle(d, now).instr.remoteStatus && Settle(d, now).instr.standby
    ensures var d1 := Settle(d, now);
      var s := BaseStep(d, m, now);
      s.dev.instr.armed && !s.dev.instr.standby && s.dev.timeArmed == At(now) &&
      s.reply == Answer(TAG_E, [EncodeInstr(d1.instr)]) &&
      DecodeInstr(Inner(s.reply.bytes)[0]).standby
  {
    InstrRoundTrip(Settle(d, now).instr);
  }

  /** With remote control, `EH` fires a ready device: it is armed again and
      the pulse time is noted. */
  lemma FireFromReady(d: Device, m: Bytes, now: int)
    requires |m| >= 2 && CrcOk(m) && m[0] == TAG_E && m[1] == TAG_H
    requires Settle(d, now).instr.remoteStatus && !Settle(d, now).instr.standby && Settle(d, now).instr.ready
    ensures var s := BaseStep(d, m, now);
      s.dev.instr.armed && !s.dev.instr.ready && s.dev.lastFired == At(now) &&
      s.reply == Answer(TAG_E, [EncodeInstr(Settle(d, now).instr)])
  {
  }

  /** Any other `E` command, and `@` or `E` without remote control, answers
      `'S'` and changes nothing but the time-driven updates. */
  lemma ConflictsChangeNothing(d: Device, m: Bytes, now: int)
    requires |m| >= 2 && CrcOk(m) && (m[0] == TAG_E || m[0] == AT)
    requires var d1 := Settle(d, now);
      !d1.instr.remoteStatus ||
      (m[0] == TAG_E && !(m[1] == TAG_B && d1.instr.standby) && !(m[1] == TAG_H && d1.instr.ready))
    ensures BaseStep(d, m, now) == Step(Settle(d, now), Answer(m[0], [TAG_CONFLICT]))
  {
  }

  /** With remote control, `@` stores a level in `0..100`; anything else
      leaves the level as it was and answers `'?'` or `'S'`. */
  lemma BasePowerLevels(d: Device, m: Bytes, now: int)
    requires |m| >= 1 && CrcOk(m) && m[0] == AT && Settle(d, now).instr.remoteStatus
    ensures var s := BaseStep(d, m, now);
      var v := ParseInt(Inner(m));
      (v.Some? && 0 <= v.value <= 100 ==> s.dev.power == v.value && s.reply == Answer(AT, [StatusByte(Settle(d, now))])) &&
      (v.None? ==> s == Step(Settle(d, now), Answer(AT, [TAG_QUERY]))) &&
      (v.Some? && !(0 <= v.value <= 100) ==> s == Step(Settle(d, now), Answer(AT, [TAG_CONFLICT])))
  {
  }

  /** An armed Magstim 200 that has not fired becomes ready once a second
      has passed, and stays so until a minute has passed. */
  lemma ReadyAfterOneSecond(d: Device, t: int, now: int)
    requires d.unit == Unit200 && d.instr.armed && !d.instr.ready
    requires d.timeArmed == At(t) && d.lastFired.Never? && t + 1000 < now <= t + 60000
    ensures Settle(d, now).instr == d.instr.(armed := false, ready := true)
  {
  }

  /** A unit that has fired stays armed, and not ready, until both a second
      has passed since arming and its fire gap since the last pulse. */
  lemma FiredUnitWaitsForGap(d: Device, t: int, f: int, now: int)
    requires d.instr.armed && !d.instr.ready
    requires d.timeArmed == At(t) && d.lastFired == At(f) && !Expired(d, now)
    ensures Settle(d, now).instr.ready <==> now > t + 1000 && now > f + FireGap(d)
    ensures !(now > t + 1000 && now > f + FireGap(d)) ==> Settle(d, now) == d
  {
  }

  /** On a 200 a higher power never shortens the gap between pulses: 2 s up
      to 49, 3 s up to 79 and 4 s above. */
  lemma GapGrowsWithPower(d: Device, lo: int, hi: int)
    requires d.unit == Unit200 && 0 <= lo <= hi
    ensures FireGap(d.(power := lo)) <= FireGap(d.(power := hi))
    ensures 2000 <= FireGap(d.(power := lo)) <= 4000
  {
  }

  /** A device left armed or ready for a minute is in standby when the next
      message arrives. */
  lemma StandbyAfterOneMinute(d: Device, t: int, now: int)
    requires d.instr.armed || d.instr.ready
    requires d.timeArmed.Never? || d.timeArmed.ms <= t
    requires d.lastFired.Never? || d.lastFired.ms <= t
    requires now > t + 60000
    ensures Settle(d, now).instr == Disarm(d.instr)
  {
  }

  /** From version 9 the Rapid ignores a `Q` without the secret code,
      whether or not it is under remote control. */
  lemma RapidNeedsSecret(d: Device, m: Bytes, now: int)
    requires |m| >= 1 && m[0] == TAG_Q && From9(d.version) && Inner(m) != SECRET
    ensures RapidStep(d, m, now) == Step(d, NoReply)
  {
  }

  /** Under remote control the Rapid answers `J` with a bare `'?'`. */
  lemma RapidRefusesJ(d: Device, m: Bytes, now: int)
    requires |m| >= 1 && m[0] == TAG_J && d.instr.remoteStatus
    ensures RapidStep(d, m, now) == Step(d, UNKNOWN)
  {
  }

  /** The Rapid stores a level up to 110 when in enhanced power mode and up
      to 100 otherwise, without the base class's time-driven updates. */
  lemma RapidPowerLevels(d: Device, m: Bytes, now: int)
    requires |m| >= 1 && m[0] == AT && d.instr.remoteStatus
    requires ParseInt(Inner(m)).Some? && 0 <= ParseInt(Inner(m)).value <= 110
    ensures var n := ParseInt(Inner(m)).value;
      var s := RapidStep(d, m, now);
      if n <= 100 || d.rapid.enhancedPowerMode then s.dev == d.(power := n) && s.reply == Answer(AT, [StatusByte(d)])
      else s == Step(d, Answer(AT, [TAG_CONFLICT]))
  {
  }

  /** Under remote control, the Rapid answers `ND` with its version digits
      and a zero byte. */
  lemma RapidVersionReply(d: Device, m: Bytes, now: int)
    requires |m| >= 2 && CrcOk(m) && m[0] == TAG_N && m[1] == TAG_D && d.instr.remoteStatus
    ensures RapidStep(d, m, now) == Step(Settle(d, now), Answer(TAG_N, VersionDigits(d.version) + [0]))
  {
  }

  /** After version 9, `n` stores a charge delay up to 10000 from version 10
      and up to 2000 before, and answers `'S'` beyond it. */
  lemma RapidChargeDelay(d: Device, m: Bytes, now: int)
    requires |m| >= 1 && CrcOk(m) && m[0] == TAG_n && d.instr.remoteStatus && After9(d.version)
    requires ParseInt(Inner(m)).Some? && ParseInt(Inner(m)).value >= 0
    ensures var n := ParseInt(Inner(m)).value;
      var s := RapidStep(d, m, now);
      if n <= (if From10(d.version) then 10000 else 2000) then
        s.dev == Settle(d, now).(chargeDelay := n) && s.reply == Answer(TAG_n, [StatusByte(Settle(d, now))])
      else s == Step(Settle(d, now), Answer(TAG_n, [TAG_CONFLICT]))
  {
    var d1 := Settle(d, now);
    assert BaseStep(d, m, now) == Step(d1, UNKNOWN);
    assert RapidStep(d, m, now) == RapidOwn(d1, m) == RapidRemote(d1, m);
  }

  /** Under remote control `I` is always answered with `'S'`. */
  lemma RapidErrorCodeRefused(d: Device, m: Bytes, now: int)
    requires |m| >= 1 && CrcOk(m) && m[0] == TAG_I && d.instr.remoteStatus
    ensures RapidStep(d, m, now) == Step(Settle(d, now), Answer(TAG_I, [TAG_CONFLICT]))
  {
  }
}
