/** The frame checksum (`calcCRC`, magpy/magstim.py:34-48): the one's complement
    of the low byte of the byte sum, appended to every command and checked on
    every reply. */
module Checksum {
  import opened Bytes

  function Sum(s: Bytes): nat {
    if |s| == 0 then 0 else Sum(s[..|s| - 1]) + s[|s| - 1]
  }

  /** `~sum(command) & 0xff`: Python's `&` on a negative number reads its
      two's-complement bits, which Dafny's non-negative `%` reproduces. */
  function Crc(s: Bytes): (c: Byte)
    ensures c == 255 - Sum(s) % 256
  {
    (-(Sum(s) as int) - 1) % 256
  }

  /** A command frame: the command bytes followed by their checksum. */
  function Frame(cmd: Bytes): (f: Bytes)
    ensures |f| == |cmd| + 1 && f[..|cmd|] == cmd
    ensures CrcOk(f)
  {
    cmd + [Crc(cmd)]
  }

  /** The driver's reply test `ord(calcCRC(reply[:-1])) == reply[-1]`. */
  predicate CrcOk(f: Bytes) {
    |f| >= 1 && Crc(f[..|f| - 1]) == f[|f| - 1]
  }

  /** A frame passes the checksum test exactly when all its bytes, checksum
      included, add up to 255 modulo 256. */
  lemma CrcOkIffSum(f: Bytes)
    requires |f| >= 1
    ensures CrcOk(f) <==> Sum(f) % 256 == 255
  {
    var p := f[..|f| - 1];
    assert Sum(f) == Sum(p) + f[|f| - 1];
    LowByteOfSum(Sum(p), f[|f| - 1]);
  }

  /** Adding a byte to `s` gives 255 modulo 256 exactly when it tops up the
      low byte of `s` to 255. */
  lemma LowByteOfSum(s: nat, b: Byte)
    ensures (s + b) % 256 == 255 <==> s % 256 + b == 255
  {
    var q, r := s / 256, s % 256;
    assert s + b == 256 * q + (r + b);
    if r + b < 256 {
      assert (s + b) % 256 == r + b;
    } else {
      assert (s + b) % 256 == r + b - 256;
    }
  }

  /** Changing one byte of a sequence changes its sum by exactly the difference. */
  lemma {:induction false} SumUpdate(f: Bytes, i: nat, b: Byte)
    requires i < |f|
    ensures Sum(f[i := b]) == Sum(f) - f[i] + b
    decreases |f|
  {
    var g := f[i := b];
    if i < |f| - 1 {
      assert g[..|g| - 1] == f[..|f| - 1][i := b];
      SumUpdate(f[..|f| - 1], i, b);
    } else {
      assert g[..|g| - 1] == f[..|f| - 1];
    }
  }

  /** Any corruption of a single byte of a checked frame, the checksum byte
      included, makes the checksum test fail; in particular every single-bit
      flip is detected. */
  lemma SingleByteCorruptionDetected(f: Bytes, i: nat, b: Byte)
    requires CrcOk(f) && i < |f| && b != f[i]
    ensures !CrcOk(f[i := b])
  {
    CrcOkIffSum(f);
    CrcOkIffSum(f[i := b]);
    SumUpdate(f, i, b);
  }

  /** The frame of a two-byte command. */
  lemma FrameOfPair(a: Byte, b: Byte)
    ensures Frame([a, b]) == [a, b, 255 - (a + b) % 256]
  {
    assert [a, b][..1] == [a] && [a][..0] == [];
    assert Sum([a]) == a;
    assert Sum([a, b]) == Sum([a]) + b;
    var f := Frame([a, b]);
    assert f[..|f| - 1] == [a, b];
  }

  /** The heartbeat frames hard-coded in the driver, `b'Q@n'` and `b'x@G'`
      (magpy/magstim.py:345, 845), are the frames of `Q@` and `x@`. */
  function HeartbeatFrame(unlocked: bool): (f: Bytes)
    ensures f == Frame(if unlocked then Latin1("x@") else Latin1("Q@"))
  {
    if unlocked then
      FrameOfPair(120, 64);
      assert Latin1("x@") == [120, 64] && Latin1("x@G") == [120, 64, 71];
      Latin1("x@G")
    else
      FrameOfPair(81, 64);
      assert Latin1("Q@") == [81, 64] && Latin1("Q@n") == [81, 64, 110];
      Latin1("Q@n")
  }
}
