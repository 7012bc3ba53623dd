/** The Bloom filter in front of the threat lists (pkg/security/filter/bloom.go). */
module Bloom {

  const TWO_64 := 0x1_0000_0000_0000_0000
  const FNV_OFFSET := 14695981039346656037
  const FNV_PRIME := 1099511628211
  const SALT: seq<nat> := [0x5A, 0xC3, 0x19, 0x8D]

  // ---------------------------------------------------------------------------------------
  // Hashing
  // ---------------------------------------------------------------------------------------

  // UTF-8, as Go stores strings.
  function CharBytes(c: char): seq<nat> {
    var n := c as int;
    if n < 0x80 then [n]
    else if n < 0x800 then [0xC0 + n / 64, 0x80 + n % 64]
    else if n < 0x10000 then [0xE0 + n / 4096, 0x80 + n / 64 % 64, 0x80 + n % 64]
    else [0xF0 + n / 262144, 0x80 + n / 4096 % 64, 0x80 + n / 64 % 64, 0x80 + n % 64]
  }

  function Bytes(s: string): seq<nat> {
    if s == "" then [] else CharBytes(s[0]) + Bytes(s[1..])
  }

  // Exclusive or with the lowest byte.
  function XorLow(h: nat, b: nat): nat {
    h / 256 * 256 + ((h % 256) as bv8 ^ (b % 256) as bv8) as nat
  }

  // The 64-bit FNV-1a hash.
  function Fnv(bytes: seq<nat>): nat {
    if bytes == [] then FNV_OFFSET
    else XorLow(Fnv(bytes[..|bytes| - 1]), bytes[|bytes| - 1]) * FNV_PRIME % TWO_64
  }

  function Hash1(key: string): nat { Fnv(Bytes(key)) }

  function Hash2(key: string): nat {
    var h := Fnv(Bytes(key) + SALT);
    if h == 0 then 1 else h
  }

  // Unsigned 64-bit arithmetic wraps around.
  function Combined(h1: nat, h2: nat, i: nat, size: nat): (p: nat)
    requires size > 0
    ensures p < size
  {
    Wrapped(h1 + i * h2) % size
  }

  // The i-th bit of a key.
  function Position(key: string, i: nat, size: nat): (p: nat)
    requires size > 0
    ensures p < size
  {
    Combined(Hash1(key), Hash2(key), i, size)
  }

  function Wrapped(n: nat): nat { n % TWO_64 }

  function Positions(key: string, count: nat, size: nat): set<nat>
    requires size > 0
  {
    set i | 0 <= i < count :: Position(key, i, size)
  }

  lemma SixBitDigits(n: nat)
    ensures n == n / 64 * 64 + n % 64 && n / 64 == n / 4096 * 64 + n / 64 % 64
  {}

  // The code point that the UTF-8 form of a character stands for (section 3 of RFC 3629).
  function CodePoint(b: seq<nat>): int {
    match |b|
    case 1 => b[0]
    case 2 => Six(Lead(b[0], 0xC0), b[1])
    case 3 => Six(Six(Lead(b[0], 0xE0), b[1]), b[2])
    case 4 => Six(Six(Six(Lead(b[0], 0xF0), b[1]), b[2]), b[3])
    case _ => -1
  }

  function Lead(b: int, mark: int): int { b - mark }

  function Six(high: int, b: int): int { high * 0x40 + (b - 0x80) }

  /** A character is hashed in its UTF-8 form. */
  lemma CharBytesAreUtf8(c: char)
    ensures var b, n := CharBytes(c), c as int;
            && |b| == (if n <= 0x7F then 1 else if n <= 0x7FF then 2 else if n <= 0xFFFF then 3 else 4)
            && CodePoint(b) == n && forall i | 0 < i < |b| :: 0x80 <= b[i] <= 0xBF
  {
    var n := c as int;
    SixBitDigits(n);
    SixBitDigits(n / 64);
    assert n / 64 / 64 == n / 4096 && n / 64 / 4096 == n / 262144;
  }

  /** All of a key is hashed, character by character. */
  lemma {:induction false} BytesOfConcat(s: string, t: string)
    ensures Bytes(s + t) == Bytes(s) + Bytes(t)
    ensures |s| == 1 ==> Bytes(s) == CharBytes(s[0])
  {
    if s == "" {
      assert s + t == t;
    } else {
      BytesOfConcat(s[1..], t);
      assert (s + t)[1..] == s[1..] + t;
    }
  }

  lemma XorOfA()
    ensures XorLow(0xcbf29ce484222325, 0x61) == 0xcbf29ce484222344
  {
    assert 0xcbf29ce484222325 % 256 == 0x25;
    assert (0x25 as bv8) ^ (0x61 as bv8) == 0x44;
  }

  lemma FnvOfOne(b: nat, mixed: nat, hash: nat)
    requires XorLow(FNV_OFFSET, b) == mixed && mixed * FNV_PRIME % TWO_64 == hash
    ensures Fnv([b]) == hash
  {
    assert [b][..0] == [];
  }

  lemma ProductOfA()
    ensures 0xcbf29ce484222344 * FNV_PRIME % TWO_64 == 0xaf63dc4c8601ec8c
  {}

  /** Known values of the 64-bit FNV-1a hash: of nothing, and of the letter a. */
  lemma FnvIsKnown(a: nat)
    requires a == 0x61
    ensures Fnv([]) == 0xcbf29ce484222325 && Fnv([a]) == 0xaf63dc4c8601ec8c
  {
    XorOfA();
    ProductOfA();
    FnvOfOne(a, 0xcbf29ce484222344, 0xaf63dc4c8601ec8c);
  }

  /** The second hash is never zero, so the positions of a key do not all fall on one another for its sake. */
  lemma SecondHashMoves(key: string)
    ensures Hash2(key) != 0
    ensures Fnv(Bytes(key) + [0x5A, 0xC3, 0x19, 0x8D]) != 0 ==> Hash2(key) == Fnv(Bytes(key) + [0x5A, 0xC3, 0x19, 0x8D])
    ensures Fnv(Bytes(key) + [0x5A, 0xC3, 0x19, 0x8D]) == 0 ==> Hash2(key) == 1
  {}

  lemma OneMorePosition(key: string, i: nat, size: nat)
    requires size > 0
    ensures Positions(key, i + 1, size) == Positions(key, i, size) + {Position(key, i, size)}
  {}

  // ---------------------------------------------------------------------------------------
  // Bits of a word
  // ---------------------------------------------------------------------------------------

  function Mask(b: bv6): bv64 { (1 as bv64) << b }

  predicate TestBit(w: bv64, b: bv6) { w & Mask(b) != 0 }

  lemma AndDistributes(w: bv64, m: bv64, n: bv64)
    ensures (w | m) & n == (w & n) | (m & n)
  {}

  lemma OrIsZero(a: bv64, b: bv64)
    ensures a | b == 0 <==> a == 0 && b == 0
  {}

  lemma MasksMeet(b: bv6, c: bv6)
    ensures Mask(b) & Mask(c) != 0 <==> b == c
  {}

  lemma SetBitSetsOnlyIt(w: bv64, b: bv6, c: bv6)
    ensures TestBit(w | Mask(b), c) <==> b == c || TestBit(w, c)
  {
    var m, n := Mask(b), Mask(c);
    AndDistributes(w, m, n);
    OrIsZero(w & n, m & n);
    MasksMeet(b, c);
  }

  function SetIn(w: bv64, b: nat): bv64
    requires b < 64
  {
    w | Mask(b as bv6)
  }

  predicate IsIn(w: bv64, b: nat)
    requires b < 64
  {
    TestBit(w, b as bv6)
  }

  // Bit `b` of word `k`.
  predicate BitAt(words: seq<bv64>, k: nat, b: nat)
    requires k < |words| && b < 64
  {
    IsIn(words[k], b)
  }

  function WithBitAt(words: seq<bv64>, k: nat, b: nat): seq<bv64>
    requires k < |words| && b < 64
  {
    words[k := SetIn(words[k], b)]
  }

  // Bit `i` of a word array.
  predicate BitSet(words: seq<bv64>, i: nat)
    requires i / 64 < |words|
  {
    BitAt(words, i / 64, i % 64)
  }

  function WithBit(words: seq<bv64>, i: nat): seq<bv64>
    requires i / 64 < |words|
  {
    WithBitAt(words, i / 64, i % 64)
  }

  lemma CastReadsBack(a: nat)
    requires a < 64
    ensures (a as bv6) as nat == a
  {}

  lemma CastIsInjective(a: nat, b: nat)
    requires a < 64 && b < 64
    ensures a as bv6 == b as bv6 ==> a == b
  {
    CastReadsBack(a);
    CastReadsBack(b);
  }

  lemma SetInWord(w: bv64, a: nat, b: nat)
    requires a < 64 && b < 64
    ensures IsIn(SetIn(w, a), b) <==> a == b || IsIn(w, b)
  {
    CastIsInjective(a, b);
    SetBitSetsOnlyIt(w, a as bv6, b as bv6);
  }

  lemma SetOneAt(words: seq<bv64>, k: nat, a: nat, l: nat, b: nat)
    requires k < |words| && l < |words| && a < 64 && b < 64
    ensures BitAt(WithBitAt(words, k, a), l, b) <==> (k == l && a == b) || BitAt(words, l, b)
  {
    var set_ := SetIn(words[k], a);
    SetInWord(words[k], a, b);
    if k != l {
      assert words[k := set_][l] == words[l];
    }
  }

  lemma SamePlace(i: nat, j: nat)
    ensures i / 64 == j / 64 && i % 64 == j % 64 ==> i == j
  {}

  lemma SetOne(words: seq<bv64>, i: nat, j: nat)
    requires i / 64 < |words| && j / 64 < |words|
    ensures BitSet(WithBit(words, i), j) <==> i == j || BitSet(words, j)
  {
    SetOneAt(words, i / 64, i % 64, j / 64, j % 64);
    SamePlace(i, j);
  }

  ghost function BitsOf(words: seq<bv64>, size: nat): set<nat>
    requires size <= |words| * 64
  {
    set i | 0 <= i < size && BitSet(words, i)
  }

  lemma SetOneOfAll(words: seq<bv64>, i: nat, size: nat)
    requires i < size <= |words| * 64
    ensures BitsOf(WithBit(words, i), size) == BitsOf(words, size) + {i}
  {
    forall j | 0 <= j < size ensures BitSet(WithBit(words, i), j) <==> i == j || BitSet(words, j) {
      SetOne(words, i, j);
    }
  }

  lemma IsOneOfAll(words: seq<bv64>, i: nat, size: nat)
    requires i < size <= |words| * 64
    ensures i / 64 < |words|
    ensures i in BitsOf(words, size) <==> words[i / 64] & Mask((i % 64) as bv6) != 0
  {
    assert i in BitsOf(words, size) <==> BitSet(words, i);
  }

  lemma WordsFor(size: nat)
    requires 0 < size < TWO_64
    ensures var words := Wrapped(size + 63) / 64;
            if size + 63 < TWO_64 then size <= words * 64 else words == 0
  {}

  class BloomFilter {
    const sizeBits: nat
    const numHash: nat
    const bitset: array<bv64>

    ghost predicate Valid()
      reads this
    {
      0 < sizeBits <= bitset.Length * 64 && numHash > 0
    }

    // The positions that are set.
    ghost function Bits(): set<nat>
      requires Valid()
      reads this, bitset
    {
      BitsOf(bitset[..], sizeBits)
    }

    // The number of words is rounded up in 64 bits; for the largest sizes it wraps to none, and the
    // filter has no words to set.
    constructor (sizeBits: nat, numHash: nat)
      requires sizeBits < TWO_64
      ensures fresh(bitset) && (Valid() <==> sizeBits + 63 < TWO_64)
      ensures if Valid() then Bits() == {} else bitset.Length == 0
      ensures this.sizeBits == (if sizeBits == 0 then 65536 else sizeBits)
      ensures this.numHash == (if numHash == 0 then 4 else numHash)
    {
      var size := if sizeBits == 0 then 65536 else sizeBits;
      this.sizeBits := size;
      this.numHash := if numHash == 0 then 4 else numHash;
      WordsFor(size);
      bitset := new bv64[Wrapped(size + 63) / 64](_ => 0);
    }

    method Add(key: string)
      requires Valid()
      modifies bitset
      ensures Bits() == old(Bits()) + Positions(key, numHash, sizeBits)
    {
      var h1, h2 := Hash1(key), Hash2(key);
      var i := 0;
      while i < numHash
        invariant 0 <= i <= numHash
        invariant Bits() == old(Bits()) + Positions(key, i, sizeBits)
      {
        var combined := Combined(h1, h2, i, sizeBits);
        assert combined == Position(key, i, sizeBits);
        SetAt(combined);
        OneMorePosition(key, i, sizeBits);
        i := i + 1;
      }
    }

    method SetAt(combined: nat)
      requires Valid() && combined < sizeBits
      modifies bitset
      ensures Bits() == old(Bits()) + {combined}
    {
      var wordIdx, bitIdx := combined / 64, (combined % 64) as bv6;
      ghost var words := bitset[..];
      bitset[wordIdx] := bitset[wordIdx] | Mask(bitIdx);
      assert bitset[..] == WithBitAt(words, wordIdx, combined % 64);
      SetOneOfAll(words, combined, sizeBits);
    }

    method TestAt(combined: nat) returns (isSet: bool)
      requires Valid() && combined < sizeBits
      ensures isSet <==> combined in Bits()
    {
      isSet := bitset[combined / 64] & Mask((combined % 64) as bv6) != 0;
      IsOneOfAll(bitset[..], combined, sizeBits);
    }

    method MayContain(key: string) returns (found: bool)
      requires Valid()
      ensures found <==> Positions(key, numHash, sizeBits) <= Bits()
    {
      var h1, h2 := Hash1(key), Hash2(key);
      var i := 0;
      while i < numHash
        invariant 0 <= i <= numHash
        invariant Positions(key, i, sizeBits) <= Bits()
      {
        var combined := Combined(h1, h2, i, sizeBits);
        assert combined == Position(key, i, sizeBits);
        var isSet := TestAt(combined);
        if !isSet {
          assert combined in Positions(key, numHash, sizeBits);
          return false;
        }
        OneMorePosition(key, i, sizeBits);
        i := i + 1;
      }
      return true;
    }
  }
}
