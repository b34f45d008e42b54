/** Byte-level vocabulary shared by the driver and the virtual device.

    Every frame on the Magstim serial link is a sequence of 8-bit values; the
    Python code treats it as a (Python 2) string of one-byte characters. */
module Bytes {

  /** One octet on the wire. */
  type Byte = b: int | 0 <= b < 256

  type Bytes = seq<Byte>

  /** Optional value; `None` also stands for Python's `None`. */
  datatype Option<+T> = None | Some(value: T) {
    predicate IsFailure() {
      None?
    }

    function PropagateFailure<U>(): Option<U>
      requires None?
    {
      None
    }

    function Extract(): T
      requires Some?
    {
      value
    }
  }

  /** The byte of a Latin-1 character literal. */
  function B(c: char): Byte
    requires c as int < 256
  {
    c as int
  }

  predicate IsLatin1(s: string) {
    forall i :: 0 <= i < |s| ==> s[i] as int < 256
  }

  /** The bytes of a Latin-1 string literal, one byte per character. */
  function Latin1(s: string): (r: Bytes)
    requires IsLatin1(s)
    ensures |r| == |s|
    ensures forall i :: 0 <= i < |s| ==> r[i] == s[i] as int
  {
    if |s| == 0 then [] else [s[0] as int] + Latin1(s[1..])
  }

  /** Python's `s[a:b]` on a sequence: both bounds are clamped to the length. */
  function Slice<T>(s: seq<T>, a: nat, b: nat): (r: seq<T>)
    ensures a <= b <= |s| ==> r == s[a..b]
    ensures |r| <= |s|
  {
    var lo := if a < |s| then a else |s|;
    var hi := if b < |s| then b else |s|;
    if lo <= hi then s[lo..hi] else []
  }

  /** Python's `s[a:]`. */
  function From<T>(s: seq<T>, a: nat): (r: seq<T>)
    ensures a <= |s| ==> r == s[a..]
    ensures a >= |s| ==> r == []
  {
    if a < |s| then s[a..] else []
  }

  /** Python's `s[1:-1]`: drop the first and the last element (empty when fewer than two). */
  function Inner<T>(s: seq<T>): (r: seq<T>)
    ensures |s| >= 2 ==> |r| == |s| - 2 && forall i :: 0 <= i < |r| ==> r[i] == s[i + 1]
    ensures |s| < 2 ==> r == []
  {
    if |s| >= 2 then s[1..|s| - 1] else []
  }

  /** Slicing a concatenation at the seam gives back its two parts. */
  lemma SplitAt<T>(a: seq<T>, b: seq<T>)
    ensures Slice(a + b, 0, |a|) == a && From(a + b, |a|) == b
  {
    assert (a + b)[..|a|] == a;
    assert (a + b)[|a|..] == b;
  }
}
