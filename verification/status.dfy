/** The packed status bytes of a reply. The driver unpacks bit `i` with
    `(temp >> i) & 1` (magpy/magstim.py:269-292); the virtual device packs its
    ordered flag dictionary with `status = (status << 1) | bit`
    (magpy/_virtual.py:64-68), so the first flag lands in bit 7. */
module StatusBits {
  import opened Bytes

  function Pow2(k: nat): nat {
    if k == 0 then 1 else 2 * Pow2(k - 1)
  }

  /** `x >> i` */
  function Shr(x: nat, i: nat): nat {
    if i == 0 then x else Shr(x / 2, i - 1)
  }

  /** `(x >> i) & 1 == 1` */
  predicate Bit(x: nat, i: nat) {
    Shr(x, i) % 2 == 1
  }

  /** `_parseStatus`: fold the flags in order with `(status << 1) | bit`. */
  function Pack(flags: seq<bool>): nat {
    if |flags| == 0 then 0
    else 2 * Pack(flags[..|flags| - 1]) + (if flags[|flags| - 1] then 1 else 0)
  }

  /** The bits of `x` below position `n`, most significant first. */
  function BitsOf(x: nat, n: nat): (r: seq<bool>)
    ensures |r| == n
  {
    seq(n, k requires 0 <= k < n => Bit(x, n - 1 - k))
  }

  /** Packing `n` flags gives a number below `2^n`. */
  lemma {:induction false} PackBound(flags: seq<bool>)
    ensures Pack(flags) < Pow2(|flags|)
  {
    if |flags| > 0 {
      PackBound(flags[..|flags| - 1]);
    }
  }

  /** Bit `i` of the packed value is the flag `i` places from the end. */
  lemma {:induction false} PackBit(flags: seq<bool>, i: nat)
    requires i < |flags|
    ensures Bit(Pack(flags), i) == flags[|flags| - 1 - i]
  {
    var n := |flags|;
    var p := flags[..n - 1];
    var x := Pack(flags);
    if i > 0 {
      assert x / 2 == Pack(p);
      assert Shr(x, i) == Shr(Pack(p), i - 1);
      PackBit(p, i - 1);
    }
  }

  /** Packing the bits of a number below `2^n` gives the number back. */
  lemma {:induction false} PackBitsOf(x: nat, n: nat)
    requires x < Pow2(n)
    ensures Pack(BitsOf(x, n)) == x
  {
    if n > 0 {
      var bs := BitsOf(x, n);
      var hi := BitsOf(x / 2, n - 1);
      forall k | 0 <= k < n - 1
        ensures bs[k] == hi[k]
      {
        assert bs[k] == Bit(x, n - 1 - k);
        assert hi[k] == Bit(x / 2, n - 2 - k);
        assert Shr(x, n - 1 - k) == Shr(x / 2, n - 2 - k);
      }
      assert bs[..n - 1] == hi;
      assert bs[n - 1] == Bit(x, 0) == (x % 2 == 1);
      PackBitsOf(x / 2, n - 1);
      assert Pack(bs) == 2 * (x / 2) + x % 2;
    }
  }

  lemma PackByte(flags: seq<bool>)
    requires |flags| == 8
    ensures Pack(flags) < 256
  {
    PackBound(flags);
  }

  /** Bit `i` of a byte, for the eight positions, as the driver reads it. */
  lemma BitsOfByte(b: Byte)
    ensures BitsOf(b, 8) == [Bit(b, 7), Bit(b, 6), Bit(b, 5), Bit(b, 4), Bit(b, 3), Bit(b, 2), Bit(b, 1), Bit(b, 0)]
  {
  }

  /** Instrument status, the first status byte of every reply. */
  datatype InstrStatus = InstrStatus(
    standby: bool, armed: bool, ready: bool, coilPresent: bool,
    replaceCoil: bool, errorPresent: bool, errorType: bool, remoteStatus: bool)

  /** rTMS status, the second status byte of Rapid replies. */
  datatype RapidStatus = RapidStatus(
    enhancedPowerMode: bool, train: bool, wait: bool, singlePulseMode: bool,
    hvpsuConnected: bool, coilReady: bool, thetaPSUDetected: bool, modifiedCoilAlgorithm: bool)

  /** Extended instrument status of `getSystemStatus` (three low bits). */
  datatype ExtStatus = ExtStatus(plus1ModuleDetected: bool, specialTriggerModeActive: bool, chargeDelaySet: bool)

  /** Driver side: unpack the instrument status byte. */
  function DecodeInstr(b: nat): InstrStatus {
    InstrStatus(Bit(b, 0), Bit(b, 1), Bit(b, 2), Bit(b, 3), Bit(b, 4), Bit(b, 5), Bit(b, 6), Bit(b, 7))
  }

  function DecodeRapid(b: nat): RapidStatus {
    RapidStatus(Bit(b, 0), Bit(b, 1), Bit(b, 2), Bit(b, 3), Bit(b, 4), Bit(b, 5), Bit(b, 6), Bit(b, 7))
  }

  function DecodeExt(b: nat): ExtStatus {
    ExtStatus(Bit(b, 0), Bit(b, 1), Bit(b, 2))
  }

  /** Virtual device side: the flags of `_instrStatus` in dictionary order. */
  function InstrFlags(s: InstrStatus): seq<bool> {
    [s.remoteStatus, s.errorType, s.errorPresent, s.replaceCoil, s.coilPresent, s.ready, s.armed, s.standby]
  }

  /** The flags of `_rapidStatus` in dictionary order. */
  function RapidFlags(s: RapidStatus): seq<bool> {
    [s.modifiedCoilAlgorithm, s.thetaPSUDetected, s.coilReady, s.hvpsuConnected,
     s.singlePulseMode, s.wait, s.train, s.enhancedPowerMode]
  }

  function EncodeInstr(s: InstrStatus): Byte {
    PackByte(InstrFlags(s));
    Pack(InstrFlags(s))
  }

  function EncodeRapid(s: RapidStatus): Byte {
    PackByte(RapidFlags(s));
    Pack(RapidFlags(s))
  }

  /** Packing eight flags puts the first in bit 7 and the last in bit 0. */
  lemma PackEight(flags: seq<bool>)
    requires |flags| == 8
    ensures Bit(Pack(flags), 0) == flags[7] && Bit(Pack(flags), 1) == flags[6]
    ensures Bit(Pack(flags), 2) == flags[5] && Bit(Pack(flags), 3) == flags[4]
    ensures Bit(Pack(flags), 4) == flags[3] && Bit(Pack(flags), 5) == flags[2]
    ensures Bit(Pack(flags), 6) == flags[1] && Bit(Pack(flags), 7) == flags[0]
  {
    PackBit(flags, 0); PackBit(flags, 1); PackBit(flags, 2); PackBit(flags, 3);
    PackBit(flags, 4); PackBit(flags, 5); PackBit(flags, 6); PackBit(flags, 7);
  }

  /** The virtual device's instrument status byte decodes, in the driver, to the
      very flags it was packed from: remoteStatus in bit 7, standby in bit 0. */
  lemma InstrRoundTrip(s: InstrStatus)
    ensures DecodeInstr(EncodeInstr(s)) == s
  {
    PackEight(InstrFlags(s));
  }

  /** ... and every byte is the packing of the flags the driver reads from it. */
  lemma InstrByteRoundTrip(b: Byte)
    ensures EncodeInstr(DecodeInstr(b)) == b
  {
    BitsOfByte(b);
    PackBitsOf(b, 8);
  }

  /** The rTMS status byte round-trips too: modifiedCoilAlgorithm in bit 7,
      enhancedPowerMode in bit 0. */
  lemma RapidRoundTrip(s: RapidStatus)
    ensures DecodeRapid(EncodeRapid(s)) == s
  {
    PackEight(RapidFlags(s));
  }

  lemma RapidByteRoundTrip(b: Byte)
    ensures EncodeRapid(DecodeRapid(b)) == b
  {
    BitsOfByte(b);
    PackBitsOf(b, 8);
  }
}
