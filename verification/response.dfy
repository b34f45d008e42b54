/** Decoding of reply payloads, `Magstim.parseMagstimResponse`
    (magpy/magstim.py:261-334), and the software-version tuple it yields. */
module Response {
  import opened Bytes
  import opened Decimal
  import opened StatusBits

  /** The `receiptType` strings of the driver. */
  datatype ReplyKind =
    | Instr | InstrRapid | RapidParam | SystemRapid | BistimParam
    | MagstimParam | MagstimTemp | ErrorReply | InstrCharge | VersionReply

  /** Payload fields after the status bytes. Values the driver divides by 10.0
      (frequency, duration, wait, coil temperatures) are kept in tenths. */
  datatype Payload =
    | NoFields
    | BistimFields(powerA: int, powerB: int, ppOffset: int)
    | MagstimFields(power: int)
    | RapidFields(power: int, frequency: int, nPulses: int, duration: int, wait: int)
    | TempFields(coil1: int, coil2: int)
    | ExtFields(extByte: Byte)
    | ErrorFields(code: Bytes)
    | ChargeFields(delay: int)

  /** A parsed reply. The status bytes are kept as received; `InstrOf`,
      `RapidOf` and `ExtOf` unpack them into the driver's flag dictionaries. */
  datatype Parsed =
    | Version(parts: seq<int>)
    | Status(instrByte: Byte, rapidByte: Option<Byte>, payload: Payload)

  function InstrOf(p: Parsed): InstrStatus
    requires p.Status?
  {
    DecodeInstr(p.instrByte)
  }

  function RapidOf(p: Parsed): RapidStatus
    requires p.Status? && p.rapidByte.Some?
  {
    DecodeRapid(p.rapidByte.value)
  }

  function ExtOf(p: Payload): ExtStatus
    requires p.ExtFields?
  {
    DecodeExt(p.extByte)
  }

  /** Reply kinds that carry the second (rTMS) status byte. */
  predicate CarriesRapid(k: ReplyKind) {
    k == InstrRapid || k == RapidParam || k == SystemRapid
  }

  /** Decode the bytes between the echoed tag and the checksum (`reply[1:-1]`);
      `None` where Python raises (`pop` from an empty list, `int()` of a bad field). */
  function Parse(data: Bytes, kind: ReplyKind): (r: Option<Parsed>)
    ensures kind == VersionReply ==> r == (var v := ParseVersion(Inner(data)); if v.Some? then Some(Version(v.value)) else None)
    // the first byte is the instrument status
    ensures kind != VersionReply && r.Some? ==> r.value.Status? && |data| >= 1 && r.value.instrByte == data[0]
    // a second status byte is consumed exactly for the three rTMS kinds
    ensures kind != VersionReply && r.Some? ==> (r.value.rapidByte.Some? <==> CarriesRapid(kind))
    ensures r.Some? && r.value.Status? && r.value.rapidByte.Some? ==> |data| >= 2 && r.value.rapidByte.value == data[1]
    ensures kind != VersionReply && |data| == 0 ==> r.None?
    ensures CarriesRapid(kind) && |data| < 2 ==> r.None?
    ensures r.Some? && r.value.Status? ==> Fits(kind, r.value.payload)
  {
    if kind == VersionReply then
      var v :- ParseVersion(Inner(data));
      Some(Version(v))
    else if |data| == 0 then None
    else if CarriesRapid(kind) then
      if |data| < 2 then None
      else
        var p :- ParsePayload(data[2..], kind);
        Some(Status(data[0], Some(data[1]), p))
    else
      var p :- ParsePayload(data[1..], kind);
      Some(Status(data[0], None, p))
  }

  /** Consecutive fixed-width decimal fields, read with `int()` from Python
      slices (clamped to the data). */
  function Fields(f: Bytes, widths: seq<nat>): (r: Option<seq<int>>)
    ensures r.Some? ==> |r.value| == |widths|
    decreases |widths|
  {
    if |widths| == 0 then Some([])
    else
      var v :- ParseInt(Slice(f, 0, widths[0]));
      var rest :- Fields(From(f, widths[0]), widths[1..]);
      Some([v] + rest)
  }

  /** The five fields of a Rapid parameter reply: the 20-byte layout has a
      5-digit pulse count and a 4-digit duration, any other length the older
      4-digit count and 3-digit duration; the wait is the rest. */
  function ParseRapidFields(f: Bytes): (r: Option<Payload>)
    ensures r.Some? ==> r.value.RapidFields?
  {
    var widths := if |f| == 20 then [3, 4, 5, 4] else [3, 4, 4, 3];
    var v :- Fields(f, widths);
    var wait :- ParseInt(From(f, if |f| == 20 then 16 else 14));
    Some(RapidFields(v[0], v[1], v[2], v[3], wait))
  }

  /** The payload shape each reply kind yields. */
  predicate Fits(kind: ReplyKind, p: Payload) {
    match kind
    case BistimParam => p.BistimFields?
    case MagstimParam => p.MagstimFields?
    case RapidParam => p.RapidFields?
    case MagstimTemp => p.TempFields?
    case SystemRapid => p.ExtFields?
    case ErrorReply => p.ErrorFields?
    case InstrCharge => p.ChargeFields?
    case _ => p.NoFields?
  }

  function ParsePayload(f: Bytes, kind: ReplyKind): (r: Option<Payload>)
    ensures r.Some? ==> Fits(kind, r.value)
  {
    match kind
    case BistimParam =>
      var v :- Fields(f, [3, 3, 3]);
      Some(BistimFields(v[0], v[1], v[2]))
    case MagstimParam =>
      var v :- Fields(f, [3]);
      Some(MagstimFields(v[0]))
    case RapidParam => ParseRapidFields(f)
    case MagstimTemp =>
      var v :- Fields(f, [3, 3]);
      Some(TempFields(v[0], v[1]))
    case SystemRapid =>
      if |f| == 0 then None else Some(ExtFields(f[0]))
    case ErrorReply =>
      Some(ErrorFields(if |f| >= 1 then f[..|f| - 1] else []))
    case InstrCharge =>
      var d :- ParseInt(f);
      Some(ChargeFields(d))
    case _ => Some(NoFields)
  }

  // ---------------------------------------------------------------- version

  const DOT: Byte := 46

  /** Python's `s.split('.')`. */
  function Split(s: Bytes, sep: Byte): (r: seq<Bytes>)
    ensures |r| >= 1
    decreases |s|
  {
    if |s| == 0 then [[]]
    else if s[0] == sep then [[]] + Split(s[1..], sep)
    else
      var tail := Split(s[1..], sep);
      [[s[0]] + tail[0]] + tail[1..]
  }

  /** Python's `str.isdigit` on a Latin-1 character: the ASCII digits and the
      superscripts one, two and three. */
  predicate IsDigitLatin1(b: Byte) {
    IsDigit(b) || b == 178 || b == 179 || b == 185
  }

  predicate IsDigitString(s: Bytes) {
    |s| > 0 && forall i :: 0 <= i < |s| ==> IsDigitLatin1(s[i])
  }

  /** `int(x) for x in pieces if x.isdigit()`; `int()` raises on a superscript. */
  function VersionParts(pieces: seq<Bytes>): Option<seq<int>> {
    if |pieces| == 0 then Some([])
    else
      var rest :- VersionParts(pieces[1..]);
      var x := pieces[0];
      if !IsDigitString(x) then Some(rest)
      else if !AllDigits(x) then None
      else Some([DigitsValue(x)] + rest)
  }

  /** The version tuple of a version reply (magpy/magstim.py:266). */
  function ParseVersion(s: Bytes): Option<seq<int>> {
    VersionParts(Split(Strip(s), DOT))
  }

  /** Python's tuple `a < b`: lexicographic, a proper prefix being smaller. */
  predicate TupleLess(a: seq<int>, b: seq<int>)
    decreases |a|
  {
    if |b| == 0 then false
    else if |a| == 0 then true
    else if a[0] != b[0] then a[0] < b[0]
    else TupleLess(a[1..], b[1..])
  }

  /** `version >= (major,)`, as the driver's thresholds use it. */
  predicate AtLeast(v: seq<int>, major: int) {
    |v| >= 1 && v[0] >= major
  }

  /** `version > (9,)`: a first component above 9, or 9 followed by anything. */
  predicate Above9(v: seq<int>) {
    |v| >= 1 && (v[0] > 9 || (v[0] == 9 && |v| >= 2))
  }

  /** `AtLeast` is Python's `not (version < (major,))`. */
  lemma AtLeastIsTupleOrder(v: seq<int>, major: int)
    ensures AtLeast(v, major) <==> !TupleLess(v, [major])
  {
    if |v| >= 1 && v[0] == major {
      assert !TupleLess(v[1..], []);
    }
  }

  /** `Above9` is Python's `(9,) < version`. */
  lemma Above9IsTupleOrder(v: seq<int>)
    ensures Above9(v) <==> TupleLess([9], v)
  {
    if |v| >= 1 && v[0] == 9 {
      assert [9][1..] == [];
    }
  }

  /** Python's tuple order is a strict order: irreflexive and transitive. */
  lemma {:induction false} TupleLessIrreflexive(a: seq<int>)
    ensures !TupleLess(a, a)
    decreases |a|
  {
    if |a| > 0 {
      TupleLessIrreflexive(a[1..]);
    }
  }

  lemma {:induction false} TupleLessTransitive(a: seq<int>, b: seq<int>, c: seq<int>)
    requires TupleLess(a, b) && TupleLess(b, c)
    ensures TupleLess(a, c)
    decreases |a|
  {
    if |a| > 0 && a[0] == b[0] && b[0] == c[0] {
      TupleLessTransitive(a[1..], b[1..], c[1..]);
    }
  }

  // ---------------------------------------------------------------- layouts

  /** Fixed-width fields written the way the driver and the virtual device
      write them: each value `str(v).zfill(w)`, one after another. */
  function Encode(vals: seq<int>, widths: seq<nat>): Bytes
    requires |vals| == |widths|
  {
    if |vals| == 0 then [] else Field(vals[0], widths[0]) + Encode(vals[1..], widths[1..])
  }

  /** Each value fits its field: non-negative and below `10^w`. */
  predicate FitWidths(vals: seq<int>, widths: seq<nat>) {
    |vals| == |widths| &&
    forall i :: 0 <= i < |vals| ==> 1 <= widths[i] && 0 <= vals[i] < Pow10(widths[i])
  }

  lemma {:induction false} EncodeLength(vals: seq<int>, widths: seq<nat>)
    requires FitWidths(vals, widths)
    ensures |Encode(vals, widths)| == TotalWidth(widths)
    decreases |vals|
  {
    if |vals| > 0 {
      FieldWidth(vals[0], widths[0]);
      assert FitWidths(vals[1..], widths[1..]);
      EncodeLength(vals[1..], widths[1..]);
    }
  }

  function TotalWidth(ws: seq<nat>): nat {
    if |ws| == 0 then 0 else ws[0] + TotalWidth(ws[1..])
  }

  /** Round trip of the field layout: fields written at their widths are read
      back, in order, as the values written, whatever follows them. */
  lemma {:induction false} FieldsRoundTrip(vals: seq<int>, widths: seq<nat>, tail: Bytes)
    requires FitWidths(vals, widths)
    ensures Fields(Encode(vals, widths) + tail, widths) == Some(vals)
    decreases |vals|
  {
    if |vals| > 0 {
      var head := Field(vals[0], widths[0]);
      var more := Encode(vals[1..], widths[1..]) + tail;
      FieldWidth(vals[0], widths[0]);
      assert Encode(vals, widths) + tail == head + more;
      SplitAt(head, more);
      FieldRoundTrip(vals[0], widths[0]);
      assert FitWidths(vals[1..], widths[1..]);
      FieldsRoundTrip(vals[1..], widths[1..], tail);
      FieldsCons(head + more, widths, vals[0], vals[1..]);
      assert [vals[0]] + vals[1..] == vals;
    }
  }

  /** One step of `Fields`: the first field, then the others after it. */
  lemma FieldsCons(f: Bytes, widths: seq<nat>, v: int, rest: seq<int>)
    requires |widths| > 0
    requires ParseInt(Slice(f, 0, widths[0])) == Some(v)
    requires Fields(From(f, widths[0]), widths[1..]) == Some(rest)
    ensures Fields(f, widths) == Some([v] + rest)
  {
  }

  /** The 20-byte Rapid layout (software version 9 and later) reads back the
      five fields it was written from. */
  lemma RapidFieldsV9(power: nat, frequency: nat, nPulses: nat, duration: nat, wait: nat)
    requires power < 1000 && frequency < 10000 && nPulses < 100000 && duration < 10000 && wait < 10000
    ensures ParseRapidFields(Encode([power, frequency, nPulses, duration], [3, 4, 5, 4]) + Field(wait, 4))
         == Some(RapidFields(power, frequency, nPulses, duration, wait))
  {
    RapidLayout([power, frequency, nPulses, duration], [3, 4, 5, 4], wait, 4);
  }

  /** The 17-byte layout of older software reads back its five fields. */
  lemma RapidFieldsOld(power: nat, frequency: nat, nPulses: nat, duration: nat, wait: nat)
    requires power < 1000 && frequency < 10000 && nPulses < 10000 && duration < 1000 && wait < 1000
    ensures ParseRapidFields(Encode([power, frequency, nPulses, duration], [3, 4, 4, 3]) + Field(wait, 3))
         == Some(RapidFields(power, frequency, nPulses, duration, wait))
  {
    RapidLayout([power, frequency, nPulses, duration], [3, 4, 4, 3], wait, 3);
  }

  lemma RapidLayout(vals: seq<int>, widths: seq<nat>, wait: nat, ww: nat)
    requires (widths == [3, 4, 5, 4] && ww == 4) || (widths == [3, 4, 4, 3] && ww == 3)
    requires FitWidths(vals, widths) && wait < Pow10(ww)
    ensures ParseRapidFields(Encode(vals, widths) + Field(wait, ww))
         == Some(RapidFields(vals[0], vals[1], vals[2], vals[3], wait))
  {
    var head := Encode(vals, widths);
    var tail := Field(wait, ww);
    var f := head + tail;
    EncodeLength(vals, widths);
    assert TotalWidth(widths) == |head| == (if ww == 4 then 16 else 14) by {
      assert TotalWidth(widths[3..]) == widths[3];
      assert TotalWidth(widths[2..]) == widths[2] + widths[3];
    }
    FieldWidth(wait, ww);
    assert |f| == 20 <==> ww == 4;
    FieldsRoundTrip(vals, widths, tail);
    SplitAt(head, tail);
    FieldRoundTrip(wait, ww);
    assert Fields(f, widths) == Some(vals);
    assert ParseInt(From(f, |head|)) == Some(wait);
  }

  /** Writing a layout is writing its first `k` fields, then the others. */
  lemma {:induction false} EncodeSplit(vals: seq<int>, widths: seq<nat>, k: nat)
    requires |vals| == |widths| && k <= |vals|
    ensures Encode(vals, widths) == Encode(vals[..k], widths[..k]) + Encode(vals[k..], widths[k..])
    decreases k
  {
    if k > 0 {
      assert vals[..k][1..] == vals[1..][..k - 1];
      assert widths[..k][1..] == widths[1..][..k - 1];
      assert vals[k..] == vals[1..][k - 1..];
      assert widths[k..] == widths[1..][k - 1..];
      EncodeSplit(vals[1..], widths[1..], k - 1);
    } else {
      assert vals[..0] == [] && widths[..0] == [];
    }
  }
}
