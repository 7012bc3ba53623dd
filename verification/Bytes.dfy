/** Byte buffers: fixed-width numbers in both byte orders (the encoding/binary calls of
    pkg/security/pcap.go). */
module Bytes {
  type Byte = x: int | 0 <= x < 0x100
  type Word = x: int | 0 <= x < 0x1_0000
  type Long = x: int | 0 <= x < 0x1_0000_0000

  // The conversions uint16(x), uint32(x) and byte(x) keep the low bits.
  function ToByte(x: int): Byte { x % 0x100 }
  function ToWord(x: int): Word { x % 0x1_0000 }
  function ToLong(x: int): Long { x % 0x1_0000_0000 }

  function BigWord(s: seq<Byte>, at: nat): (w: Word)
    requires at + 2 <= |s|
  {
    var high: int := s[at];
    high * 0x100 + s[at + 1]
  }

  function BigLong(s: seq<Byte>, at: nat): (x: Long)
    requires at + 4 <= |s|
  {
    BigWord(s, at) * 0x1_0000 + BigWord(s, at + 2)
  }

  function LittleWord(s: seq<Byte>, at: nat): (w: Word)
    requires at + 2 <= |s|
  {
    var high: int := s[at + 1];
    s[at] + high * 0x100
  }

  function LittleLong(s: seq<Byte>, at: nat): (x: Long)
    requires at + 4 <= |s|
  {
    LittleWord(s, at) + LittleWord(s, at + 2) * 0x1_0000
  }

  // Only the bytes from `from` up to `to` may differ.
  predicate SameOutside(s: seq<Byte>, t: seq<Byte>, from: nat, to: nat) {
    |s| == |t| && forall k | 0 <= k < |s| && !(from <= k < to) :: s[k] == t[k]
  }

  method PutBigWord(a: array<Byte>, at: nat, x: Word)
    requires at + 2 <= a.Length
    modifies a
    ensures BigWord(a[..], at) == x && SameOutside(old(a[..]), a[..], at, at + 2)
  {
    a[at], a[at + 1] := x / 0x100, x % 0x100;
  }

  method PutBigLong(a: array<Byte>, at: nat, x: Long)
    requires at + 4 <= a.Length
    modifies a
    ensures BigLong(a[..], at) == x && SameOutside(old(a[..]), a[..], at, at + 4)
  {
    PutBigWord(a, at, x / 0x1_0000);
    PutBigWord(a, at + 2, x % 0x1_0000);
  }

  // Least significant byte first.
  function LittleWordBytes(x: Word): (s: seq<Byte>)
    ensures |s| == 2
  {
    [x % 0x100, x / 0x100]
  }

  function LittleLongBytes(x: Long): (s: seq<Byte>)
    ensures |s| == 4
  {
    LittleWordBytes(x % 0x1_0000) + LittleWordBytes(x / 0x1_0000)
  }

  lemma LittleWordReadsBack(s: seq<Byte>, at: nat, x: Word)
    requires at + 2 <= |s| && s[at..at + 2] == LittleWordBytes(x)
    ensures LittleWord(s, at) == x
  {
    assert s[at] == s[at..at + 2][0] && s[at + 1] == s[at..at + 2][1];
  }

  lemma LittleLongReadsBack(s: seq<Byte>, at: nat, x: Long)
    requires at + 4 <= |s| && s[at..at + 4] == LittleLongBytes(x)
    ensures LittleLong(s, at) == x
  {
    assert s[at..at + 2] == s[at..at + 4][..2] == LittleWordBytes(x % 0x1_0000);
    assert s[at + 2..at + 4] == s[at..at + 4][2..] == LittleWordBytes(x / 0x1_0000);
    LittleWordReadsBack(s, at, x % 0x1_0000);
    LittleWordReadsBack(s, at + 2, x / 0x1_0000);
  }

  method PutLittleWord(a: array<Byte>, at: nat, x: Word)
    requires at + 2 <= a.Length
    modifies a
    ensures a[at..at + 2] == LittleWordBytes(x) && SameOutside(old(a[..]), a[..], at, at + 2)
  {
    a[at], a[at + 1] := x % 0x100, x / 0x100;
  }

  method PutLittleLong(a: array<Byte>, at: nat, x: Long)
    requires at + 4 <= a.Length
    modifies a
    ensures a[at..at + 4] == LittleLongBytes(x) && SameOutside(old(a[..]), a[..], at, at + 4)
  {
    PutLittleWord(a, at, x % 0x1_0000);
    ghost var low := a[at..at + 2];
    PutLittleWord(a, at + 2, x / 0x1_0000);
    assert a[at..at + 2] == low;
    assert a[at..at + 4] == a[at..at + 2] + a[at + 2..at + 4];
  }
}
