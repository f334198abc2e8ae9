/** Writing into buffers, as a function on their contents. */
module Buffers {
  import opened Bytes

  /** `bytes` written over `s` from `at` on. */
  function Put(s: seq<Byte>, at: nat, bytes: seq<Byte>): (r: seq<Byte>)
    requires at + |bytes| <= |s|
    ensures |r| == |s|
    ensures forall i {:trigger r[i]} :: 0 <= i < |s| ==> r[i] == if at <= i < at + |bytes| then bytes[i - at] else s[i]
  {
    seq(|s|, i requires 0 <= i < |s| => if at <= i < at + |bytes| then bytes[i - at] else s[i])
  }

  lemma PutNext(s: seq<Byte>, at: nat, a: seq<Byte>, b: seq<Byte>)
    requires at + |a| + |b| <= |s|
    ensures Put(Put(s, at, a), at + |a|, b) == Put(s, at, a + b)
  {
  }

  /** Writing over the middle of what has been written. */
  lemma PutInside(s: seq<Byte>, at: nat, a: seq<Byte>, old_: seq<Byte>, new_: seq<Byte>, c: seq<Byte>)
    requires |old_| == |new_| && at + |a| + |old_| + |c| <= |s|
    ensures Put(Put(s, at, a + old_ + c), at + |a|, new_) == Put(s, at, a + new_ + c)
  {
  }

  /** `memcpy(p_frame, bytes, |bytes|)` */
  method CopyIn(buf: array<Byte>, at: nat, bytes: seq<Byte>)
    requires at + |bytes| <= buf.Length
    modifies buf
    ensures buf[..] == Put(old(buf[..]), at, bytes)
  {
    for i := 0 to |bytes|
      invariant forall j :: 0 <= j < buf.Length ==> buf[j] == if at <= j < at + i then bytes[j - at] else old(buf[j])
    {
      buf[at + i] := bytes[i];
    }
  }

  lemma PutTwo(s: seq<Byte>, a: seq<Byte>, b: seq<Byte>)
    requires |a| + |b| <= |s|
    ensures Put(Put(s, 0, a), |a|, b)[..|a| + |b|] == a + b
  {
    PutNext(s, 0, a, b);
  }

  /** What is then in front of the end of the written part. */
  lemma PutBehind(s: seq<Byte>, at: nat, bytes: seq<Byte>)
    requires at + |bytes| <= |s|
    ensures Put(s, at, bytes)[..at + |bytes|] == s[..at] + bytes
  {}
}
