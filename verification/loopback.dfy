/** The driver against the virtual stimulator: what the driver makes of the
    replies of magpy/_virtual.py. Together they give the protocol's round
    trips: status bits, checksums, parameter fields and framing. */
module Loopback {
  import opened Bytes
  import opened Decimal
  import opened Checksum
  import opened StatusBits
  import opened Response
  import opened Framer
  import opened Command
  import opened Stimulator
  import opened RapidOps
  import opened Virtual

  /** A device that reports no error: its status byte is then neither of the
      driver's markers `'?'` (bits 0-5) nor `'S'` (bits 0, 1, 4 and 6). */
  predicate Healthy(s: InstrStatus) {
    !s.errorPresent && !s.errorType
  }

  lemma HealthyStatusIsNoMarker(s: InstrStatus)
    requires Healthy(s)
    ensures EncodeInstr(s) != TAG_QUERY && EncodeInstr(s) != TAG_CONFLICT
  {
    InstrRoundTrip(s);
    MarkerFlags();
  }

  /** Read as status bytes, `'?'` has the error flag set and `'S'` the
      error-type flag. */
  lemma MarkerFlags()
    ensures DecodeInstr(TAG_QUERY).errorPresent && DecodeInstr(TAG_CONFLICT).errorType
  {
    assert Shr(63, 5) == 1;
    assert Shr(83, 6) == 1;
  }

  /** A reply whose data starts with a healthy status byte is accepted by
      the driver for the command it echoes. */
  lemma AnswerAccepted(cmd: Bytes, s: InstrStatus, data: Bytes)
    requires |cmd| >= 1 && cmd[0] != TAG_QUERY && Healthy(s)
    ensures Classify(cmd, Answer(cmd[0], [EncodeInstr(s)] + data).bytes).Accept?
  {
    var r := Answer(cmd[0], [EncodeInstr(s)] + data).bytes;
    assert r[1] == Inner(r)[0] == EncodeInstr(s);
    HealthyStatusIsNoMarker(s);
  }

  /** The device's refusals reach the caller as the driver's codes: an
      unknown command as 3, a checksum failure or unreadable data as 4, a
      refused value or state as 5. */
  lemma RefusalCodes(cmd: Bytes)
    requires |cmd| >= 1 && cmd[0] != TAG_QUERY
    ensures Classify(cmd, UNKNOWN.bytes) == Reject(INVALID_COMMAND_ERR)
    ensures Classify(cmd, Answer(cmd[0], [TAG_QUERY]).bytes) == Reject(INVALID_DATA_ERR)
    ensures Classify(cmd, Answer(cmd[0], [TAG_CONFLICT]).bytes) == Reject(COMMAND_CONFLICT_ERR)
  {
    var q := Answer(cmd[0], [TAG_QUERY]).bytes;
    var c := Answer(cmd[0], [TAG_CONFLICT]).bytes;
    assert q[1] == Inner(q)[0];
    assert c[1] == Inner(c)[0];
  }

  /** The status byte the device packs is read back by the driver as the
      very flags the device holds. */
  lemma StatusSeen(tag: Byte, s: InstrStatus)
    ensures var p := Parse(Inner(Answer(tag, [EncodeInstr(s)]).bytes), Instr);
      p == Some(Status(EncodeInstr(s), None, NoFields)) && InstrOf(p.value) == s
  {
    InstrRoundTrip(s);
  }

  /** The driver's set-power frame for a level in `0..100`, sent to a
      Magstim 200 under remote control, sets that level; the driver accepts
      the reply and reads from it the status from before the change. */
  lemma PowerLoopback(d: Device, n: int, now: int)
    requires d.unit == Unit200 && 0 <= n <= 100
    requires Settle(d, now).instr.remoteStatus && Healthy(d.instr)
    ensures var cmd := PowerCommand(AT, n);
      var s := Respond(d, Frame(cmd), now);
      s.dev.power == n && s.reply.Reply? &&
      Classify(cmd, s.reply.bytes).Accept? &&
      Parse(Inner(s.reply.bytes), Instr) == Some(Status(EncodeInstr(Settle(d, now).instr), None, NoFields))
  {
    var cmd := PowerCommand(AT, n);
    PowerCommandFits(AT, n);
    InnerOfFrame(cmd);
    BasePowerLevels(d, Frame(cmd), now);
    AnswerAccepted(cmd, Settle(d, now).instr, []);
    StatusSeen(AT, Settle(d, now).instr);
    assert [EncodeInstr(Settle(d, now).instr)] + [] == [EncodeInstr(Settle(d, now).instr)];
  }

  /** A reply of a kind with one status byte reads as that byte and the
      fields after it. */
  lemma ParseAfterStatus(b: Byte, f: Bytes, kind: ReplyKind, p: Payload)
    requires kind != VersionReply && !CarriesRapid(kind) && ParsePayload(f, kind) == Some(p)
    ensures Parse([b] + f, kind) == Some(Status(b, None, p))
  {
    assert ([b] + f)[1..] == f;
  }

  /** The parameter reply of a Magstim 200 reads back as its power level. */
  lemma MagstimParamsLoopback(d: Device)
    requires d.unit == Unit200 && 0 <= d.power < 1000
    ensures Parse(Inner(Answer(TAG_J, [StatusByte(d)] + Params(d)).bytes), MagstimParam)
         == Some(Status(StatusByte(d), None, MagstimFields(d.power)))
  {
    assert Params(d) == Encode([d.power], [3]) + Zeros(6);
    FieldsRoundTrip([d.power], [3], Zeros(6));
    ParseAfterStatus(StatusByte(d), Params(d), MagstimParam, MagstimFields(d.power));
  }

  /** The parameter reply of a BiStim reads back as its two levels and its
      paired-pulse offset. */
  lemma BiStimParamsLoopback(d: Device)
    requires d.unit == UnitBiStim && 0 <= d.power < 1000 && 0 <= d.powerB < 1000 && 0 <= d.ppOffset < 1000
    ensures Parse(Inner(Answer(TAG_J, [StatusByte(d)] + Params(d)).bytes), BistimParam)
         == Some(Status(StatusByte(d), None, BistimFields(d.power, d.powerB, d.ppOffset)))
  {
    var vals := [d.power, d.powerB, d.ppOffset];
    assert Params(d) + [] == Encode(vals, [3, 3, 3]);
    FieldsRoundTrip(vals, [3, 3, 3], []);
    ParseAfterStatus(StatusByte(d), Params(d), BistimParam, BistimFields(d.power, d.powerB, d.ppOffset));
  }

  /** The coil temperatures a device reports read back as they are held. */
  lemma CoilTempLoopback(d: Device)
    requires 0 <= d.coil1 < 1000 && 0 <= d.coil2 < 1000
    ensures Parse(Inner(Answer(TAG_F, [StatusByte(d)] + CoilTemp(d)).bytes), MagstimTemp)
         == Some(Status(StatusByte(d), None, TempFields(d.coil1, d.coil2)))
  {
    var vals := [d.coil1, d.coil2];
    assert CoilTemp(d) + [] == Encode(vals, [3, 3]);
    FieldsRoundTrip(vals, [3, 3], []);
    assert Fields(CoilTemp(d), [3, 3]) == Some(vals);
    ParseAfterStatus(StatusByte(d), CoilTemp(d), MagstimTemp, TempFields(d.coil1, d.coil2));
  }

  /** The virtual Rapid answers the driver's parameter query, with or without
      remote control, with its status bytes and its fields. */
  lemma RapidParamsAnswer(d: Device, now: int)
    requires d.unit == UnitRapid
    ensures var d1 := Settle(d, now);
      RapidStep(d, Frame([TAG_BACKSLASH, AT]), now) ==
        Step(d1, Answer(TAG_BACKSLASH, [StatusByte(d1), EncodeRapid(d.rapid)] + Params(d1)))
  {
    assert Frame([TAG_BACKSLASH, AT])[0] == TAG_BACKSLASH;
  }

  /** The driver reads back the Rapid's two status bytes and its five
      fields in the older 17-byte layout. */
  lemma RapidParamsLoopback(d: Device)
    requires d.unit == UnitRapid
    requires 0 <= d.power < 1000 && 0 <= d.frequency < 10000 && 0 <= d.nPulses < 10000
    requires 0 <= d.duration < 1000 && 0 <= d.wait < 1000
    ensures var p := Parse(Inner(Answer(TAG_BACKSLASH, [StatusByte(d), EncodeRapid(d.rapid)] + Params(d)).bytes), RapidParam);
      p == Some(Status(StatusByte(d), Some(EncodeRapid(d.rapid)), RapidFields(d.power, d.frequency, d.nPulses, d.duration, d.wait))) &&
      RapidOf(p.value) == d.rapid
  {
    RapidFieldsOld(d.power, d.frequency, d.nPulses, d.duration, d.wait);
    ParseRapidParam(StatusByte(d), EncodeRapid(d.rapid), Params(d),
                    RapidFields(d.power, d.frequency, d.nPulses, d.duration, d.wait));
    RapidRoundTrip(d.rapid);
  }

  /** The virtual Rapid in enhanced power mode takes every level up to 110
      from a set command framed as the driver frames it. */
  lemma EnhancedLevelsTakenByDevice(d: Device, n: int, now: int)
    requires d.unit == UnitRapid && d.instr.remoteStatus && d.rapid.enhancedPowerMode && 0 <= n <= 110
    ensures var s := RapidStep(d, Frame(PowerCommand(AT, n)), now);
      s.dev.power == n && s.reply == Answer(AT, [StatusByte(d)])
  {
    var cmd := PowerCommand(AT, n);
    CommandFieldFits(AT, n, 3);
    InnerOfFrame(cmd);
    RapidPowerLevels(d, Frame(cmd), now);
  }

  /** Version digits are never a zero byte. */
  lemma {:induction false} VersionDigitsNonZero(v: seq<int>)
    ensures forall i :: 0 <= i < |VersionDigits(v)| ==> VersionDigits(v)[i] != 0
  {
    if |v| > 0 {
      VersionDigitsNonZero(v[1..]);
      var s := Str(v[0]);
      assert forall i :: 0 <= i < |s| ==> s[i] != 0;
    }
  }

  /** The virtual Rapid's version reply ends in the zero byte the driver's
      reader looks for: the reader takes exactly the reply, checksum
      included, and leaves what follows. */
  lemma VersionReplyFramed(v: seq<int>, rest: Bytes, readBytes: Option<int>)
    ensures var r := Answer(TAG_N, VersionDigits(v) + [0]).bytes;
      ReadReply(r + rest, readBytes) == Got(r, rest)
  {
    var digits := VersionDigits(v);
    var body := [TAG_N] + (digits + [0]);
    var r := Answer(TAG_N, digits + [0]).bytes;
    assert r == body + [Crc(body)];
    var k := |digits| + 1;
    VersionDigitsNonZero(v);
    TerminatorFound(body, rest, k);
    assert (r + rest)[..k + 2] == r && (r + rest)[k + 2..] == rest;
  }

  /** The first zero of a framed reply is its terminator when no byte
      before it is zero. */
  lemma TerminatorFound(body: Bytes, rest: Bytes, k: nat)
    requires 1 <= k && |body| == k + 1 && body[k] == 0
    requires forall i :: 1 <= i < k ==> body[i] != 0
    ensures FirstZero(body + [Crc(body)] + rest, 1) == Some(k)
  {
    var st := body + [Crc(body)] + rest;
    assert forall i :: 1 <= i <= k ==> st[i] == body[i];
    FirstZeroAt(st, 1, k);
  }

  /** `FirstZero` finds the zero at `k` when there is none before it. */
  lemma {:induction false} FirstZeroAt(s: Bytes, j: nat, k: nat)
    requires j <= k < |s| && s[k] == 0
    requires forall i :: j <= i < k ==> s[i] != 0
    ensures FirstZero(s, j) == Some(k)
    decreases k - j
  {
    if j < k {
      FirstZeroAt(s, j + 1, k);
    }
  }

  /** The driver reads the extended status from the first byte after the
      two status bytes, which the virtual Rapid always sends as zero; the
      plus-1 module flag the device sets is in bit 7 of the byte after it,
      which the driver never reads. */
  lemma ExtendedStatusReadFromHighByte(d: Device)
    ensures var r := Answer(TAG_x, [StatusByte(d), EncodeRapid(d.rapid), 0, ExtLow(d)]).bytes;
      var p := Parse(Inner(r), SystemRapid);
      p.Some? && ExtOf(p.value.payload) == ExtStatus(false, false, false) &&
      Bit(ExtLow(d), 7) == d.plus1
  {
    var flags := [d.plus1, false, false, false, false, false, false, false];
    PackEight(flags);
    assert Shr(0, 0) == 0 && Shr(0, 1) == 0 && Shr(0, 2) == 0;
  }
}
