/** ASCII decimal fields: the driver writes every numeric argument as
    `str(int(v)).zfill(n)`, and both sides read fields back with Python's `int()`. */
module Decimal {
  import opened Bytes

  const ZERO: Byte := 48
  const PLUS: Byte := 43
  const MINUS: Byte := 45

  predicate IsDigit(b: Byte) {
    48 <= b <= 57
  }

  predicate AllDigits(s: Bytes) {
    forall i :: 0 <= i < |s| ==> IsDigit(s[i])
  }

  function Pow10(k: nat): nat {
    if k == 0 then 1 else 10 * Pow10(k - 1)
  }

  /** Decimal digits of `n`, most significant first, without leading zeros. */
  function Digits(n: nat): (r: Bytes)
    ensures 1 <= |r|
    ensures AllDigits(r)
  {
    if n < 10 then [48 + n] else Digits(n / 10) + [48 + n % 10]
  }

  /** Python's `str(n)` for an integer. */
  function Str(n: int): Bytes {
    if n < 0 then [MINUS] + Digits(-n) else Digits(n)
  }

  function Zeros(k: nat): (r: Bytes)
    ensures |r| == k
    ensures forall i :: 0 <= i < k ==> r[i] == ZERO
  {
    seq(k, i => ZERO)
  }

  /** Python's `s.zfill(w)`: left-pad with '0' to width `w`, keeping a leading sign in front. */
  function ZFill(s: Bytes, w: int): Bytes {
    if w <= |s| then s
    else if |s| > 0 && (s[0] == PLUS || s[0] == MINUS) then [s[0]] + Zeros(w - |s|) + s[1..]
    else Zeros(w - |s|) + s
  }

  /** The data field `str(int(n)).zfill(w)` that follows a command tag. */
  function Field(n: int, w: nat): Bytes {
    ZFill(Str(n), w)
  }

  /** Value of a digit run, most significant digit first. */
  function DigitsValue(s: Bytes): int {
    if |s| == 0 then 0 else 10 * DigitsValue(s[..|s| - 1]) + (s[|s| - 1] - ZERO)
  }

  /** Python's `str.isspace` on a Latin-1 character. */
  predicate IsSpace(b: Byte) {
    (9 <= b <= 13) || (28 <= b <= 32) || b == 133 || b == 160
  }

  function StripLeft(s: Bytes): Bytes {
    if |s| > 0 && IsSpace(s[0]) then StripLeft(s[1..]) else s
  }

  function StripRight(s: Bytes): Bytes {
    if |s| > 0 && IsSpace(s[|s| - 1]) then StripRight(s[..|s| - 1]) else s
  }

  /** Python's `str.strip()`. */
  function Strip(s: Bytes): Bytes {
    StripRight(StripLeft(s))
  }

  /** Python's `int(s)` on a Latin-1 string: surrounding white space, an optional
      sign and at least one ASCII digit; `None` where Python raises `ValueError`. */
  function ParseInt(s: Bytes): Option<int> {
    var t := Strip(s);
    var signed := |t| > 0 && (t[0] == PLUS || t[0] == MINUS);
    var digits := if signed then t[1..] else t;
    if |digits| == 0 || !AllDigits(digits) then None
    else
      var v := DigitsValue(digits);
      Some(if signed && t[0] == MINUS then -v else v)
  }

  /** A string whose ends are not white space is left alone by `Strip`. */
  lemma StripNoSpace(s: Bytes)
    requires |s| > 0 && !IsSpace(s[0]) && !IsSpace(s[|s| - 1])
    ensures Strip(s) == s
  {
  }

  /** Reading back the digits of `n` gives `n`. */
  lemma {:induction false} DigitsValueOfDigits(n: nat)
    ensures DigitsValue(Digits(n)) == n
  {
    if n >= 10 {
      var d := Digits(n / 10) + [48 + n % 10];
      assert d[..|d| - 1] == Digits(n / 10);
      DigitsValueOfDigits(n / 10);
    }
  }

  lemma {:induction false} DigitsValueOfZeros(k: nat)
    ensures DigitsValue(Zeros(k)) == 0
  {
    if k > 0 {
      assert Zeros(k)[..k - 1] == Zeros(k - 1);
      DigitsValueOfZeros(k - 1);
    }
  }

  /** Leading zeros do not change the value of a digit run. */
  lemma {:induction false} DigitsValueLeadingZeros(k: nat, s: Bytes)
    ensures DigitsValue(Zeros(k) + s) == DigitsValue(s)
    decreases |s|
  {
    if |s| == 0 {
      assert Zeros(k) + s == Zeros(k);
      DigitsValueOfZeros(k);
    } else {
      var t := Zeros(k) + s;
      assert t[..|t| - 1] == Zeros(k) + s[..|s| - 1];
      DigitsValueLeadingZeros(k, s[..|s| - 1]);
    }
  }

  /** A plain digit run is read as its value. */
  lemma ParseDigitRun(f: Bytes)
    requires |f| > 0 && AllDigits(f)
    ensures ParseInt(f) == Some(DigitsValue(f))
  {
    StripNoSpace(f);
  }

  /** A minus sign followed by a digit run is read as the negated value. */
  lemma ParseNegativeRun(f: Bytes)
    requires |f| > 1 && f[0] == MINUS && AllDigits(f[1..])
    ensures ParseInt(f) == Some(-DigitsValue(f[1..]))
  {
    assert IsDigit(f[1..][|f| - 2]);
    StripNoSpace(f);
  }

  /** The padded field of a non-negative value is its digits behind zeros. */
  lemma FieldOfNat(n: nat, w: nat)
    ensures Field(n, w) == if w > |Digits(n)| then Zeros(w - |Digits(n)|) + Digits(n) else Digits(n)
  {
    assert Str(n) == Digits(n);
    assert Digits(n)[0] != PLUS && Digits(n)[0] != MINUS;
  }

  /** The padded field of a negative value is a minus sign, zeros, then the digits. */
  lemma FieldOfNegative(n: int, w: nat)
    requires n < 0
    ensures |Field(n, w)| > 0 && Field(n, w)[0] == MINUS
    ensures Field(n, w)[1..] == if w > |Digits(-n)| + 1 then Zeros(w - |Digits(-n)| - 1) + Digits(-n) else Digits(-n)
  {
    var d := Digits(-n);
    assert Str(n) == [MINUS] + d;
    if w > |d| + 1 {
      assert Field(n, w) == [MINUS] + Zeros(w - |d| - 1) + d;
    } else {
      assert Field(n, w) == [MINUS] + d;
    }
  }

  /** Zeros in front of a digit run leave it a digit run, of the same value. */
  lemma PaddedRun(k: nat, d: Bytes)
    requires |d| > 0 && AllDigits(d)
    ensures |Zeros(k) + d| > 0 && AllDigits(Zeros(k) + d)
    ensures DigitsValue(Zeros(k) + d) == DigitsValue(d)
  {
    var t := Zeros(k) + d;
    forall i | 0 <= i < |t|
      ensures IsDigit(t[i])
    {
      if i >= k {
        assert t[i] == d[i - k];
      }
    }
    DigitsValueLeadingZeros(k, d);
  }

  lemma FieldRoundTripNat(n: nat, w: nat)
    ensures ParseInt(Field(n, w)) == Some(n)
  {
    var d := Digits(n);
    var f := Field(n, w);
    FieldOfNat(n, w);
    DigitsValueOfDigits(n);
    var k := if w > |d| then w - |d| else 0;
    assert f == Zeros(k) + d by {
      if k == 0 {
        assert Zeros(0) + d == d;
      }
    }
    PaddedRun(k, d);
    ParseDigitRun(f);
  }

  lemma FieldRoundTripNegative(n: int, w: nat)
    requires n < 0
    ensures ParseInt(Field(n, w)) == Some(n)
  {
    var m: nat := -n;
    var d := Digits(m);
    var f := Field(n, w);
    FieldOfNegative(n, w);
    DigitsValueOfDigits(m);
    var k := if w > |d| + 1 then w - |d| - 1 else 0;
    assert f[1..] == Zeros(k) + d by {
      if k == 0 {
        assert Zeros(0) + d == d;
      }
    }
    SignedPaddedRun(f, k, d, m);
  }

  /** A minus sign, zeros, then a digit run, read as the negated run. */
  lemma SignedPaddedRun(f: Bytes, k: nat, d: Bytes, m: nat)
    requires |d| > 0 && AllDigits(d) && DigitsValue(d) == m
    requires |f| > 0 && f[0] == MINUS && f[1..] == Zeros(k) + d
    ensures ParseInt(f) == Some(-(m as int))
  {
    PaddedRun(k, d);
    ParseNegativeRun(f);
  }

  /** Round trip of the wire encoding: Python's `int()` reads back the zero-padded
      field `str(n).zfill(w)` as `n`, for every integer and every width. */
  lemma FieldRoundTrip(n: int, w: nat)
    ensures ParseInt(Field(n, w)) == Some(n)
  {
    if n >= 0 {
      FieldRoundTripNat(n, w);
    } else {
      FieldRoundTripNegative(n, w);
    }
  }

  /** A number below `10^k` has at most `k` digits. */
  lemma {:induction false} DigitsShort(n: nat, k: nat)
    requires 1 <= k && n < Pow10(k)
    ensures |Digits(n)| <= k
  {
    if n >= 10 {
      DigitsShort(n / 10, k - 1);
    }
  }

  /** A number of at least `10^k` has more than `k` digits. */
  lemma {:induction false} DigitsLong(n: nat, k: nat)
    requires n >= Pow10(k)
    ensures |Digits(n)| > k
  {
    if k > 0 {
      DigitsLong(n / 10, k - 1);
    }
  }

  /** A non-negative value fills its zero-padded field exactly when it is below
      `10^w`; it is all digits either way. */
  lemma FieldWidth(n: nat, w: nat)
    requires 1 <= w
    ensures |Field(n, w)| == w <==> n < Pow10(w)
    ensures AllDigits(Field(n, w))
  {
    if n < Pow10(w) {
      DigitsShort(n, w);
    } else {
      DigitsLong(n, w);
    }
    FieldOfNat(n, w);
  }
}
