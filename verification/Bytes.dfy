/** Octets, and the NUL-terminated strings that are made of them. */
module Bytes {

  type Byte = b: int | 0 <= b < 256

  /** The 16-bit number in two bytes, low byte first. */
  function Le16(lo: Byte, hi: Byte): nat {
    lo as int + 0x100 * (hi as int)
  }

  function Low(v: nat): Byte { v % 0x100 }

  function High(v: nat): Byte { v / 0x100 % 0x100 }

  lemma LowAndHigh(v: nat)
    requires v < 0x10000
    ensures Le16(Low(v), High(v)) == v
  {}

  /** Where a separator is first, or the end. */
  function Break(s: seq<Byte>, sep: Byte): (k: nat)
    ensures k <= |s| && (k < |s| ==> s[k] == sep) && forall i :: 0 <= i < k ==> s[i] != sep
  {
    if s == [] || s[0] == sep then 0 else 1 + Break(s[1..], sep)
  }

  /** The C string that a buffer starts with: everything in front of the first NUL. */
  function CString(cells: seq<Byte>): seq<Byte> {
    if cells == [] || cells[0] == 0 then [] else [cells[0]] + CString(cells[1..])
  }

  /** A buffer that holds a string and then a NUL reads as that string. */
  lemma {:induction false} CStringOf(text: seq<Byte>, rest: seq<Byte>)
    requires forall i :: 0 <= i < |text| ==> text[i] != 0
    ensures CString(text + [0] + rest) == text
  {
    if text != [] {
      CStringOf(text[1..], rest);
      assert (text + [0] + rest)[1..] == text[1..] + [0] + rest;
    }
  }

  // Facts about joined sequences that longer proofs need one at a time.

  lemma Regroup<T>(a: seq<T>, b: seq<T>, c: seq<T>)
    ensures (a + b) + c == a + (b + c)
  {}

  lemma RestOfJoined<T>(a: seq<T>, b: seq<T>)
    requires a != []
    ensures (a + b)[0] == a[0] && (a + b)[1..] == a[1..] + b
  {}

  lemma Behind<T>(front: seq<T>, rest: seq<T>)
    ensures (front + rest)[|front|..] == rest
  {}

  lemma SliceOfSlice<T>(s: seq<T>, a: nat, b: nat, i: nat, j: nat)
    requires a <= b <= |s| && i <= j <= b - a
    ensures s[a..b][i..j] == s[a + i..a + j]
  {
    var x, y := s[a..b][i..j], s[a + i..a + j];
    assert |x| == |y| && forall k :: 0 <= k < |x| ==> x[k] == y[k];
  }
}
