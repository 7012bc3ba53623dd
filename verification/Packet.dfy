/** Synthesized IPv4 packets (pkg/security/pcap.go): section 3.1 of RFC 791 for the header and
    section 1 of RFC 1071 for its checksum.  The parsed addresses and the random identification
    are parameters. */
module Packet {
  import opened Common
  import opened Text
  import opened Bytes

  // ---------------------------------------------------------------------------------------
  // One's complement sums
  // ---------------------------------------------------------------------------------------

  // Sixteen-bit addition with the carry added back in.
  function EndAround(a: Word, b: Word): Word { if a + b > 0xFFFF then a + b - 0xFFFF else a + b }

  function OnesSum(words: seq<Word>): Word {
    if words == [] then 0 else EndAround(OnesSum(words[..|words| - 1]), words[|words| - 1])
  }

  function Sum(words: seq<Word>): nat {
    if words == [] then 0 else Sum(words[..|words| - 1]) + words[|words| - 1]
  }

  function Words(s: seq<Byte>): (words: seq<Word>)
    requires |s| % 2 == 0
    ensures |words| == |s| / 2
  {
    seq(|s| / 2, i requires 0 <= i < |s| / 2 => BigWord(s, 2 * i))
  }

  // Two numbers that differ by a multiple of 0xFFFF.
  ghost predicate Congruent(a: int, b: int) { exists k: int :: a == b + 0xFFFF * k }

  lemma Shifted(a: int, b: int, c: int, k: int)
    requires Congruent(a, b) && c == a + 0xFFFF * k
    ensures Congruent(c, b)
  {
    var j: int :| a == b + 0xFFFF * j;
    assert c == b + 0xFFFF * (j + k);
  }

  /** The end-around carry computes the sum modulo 0xFFFF and gives zero only for zeros. */
  lemma {:induction false} OnesSumIsModular(words: seq<Word>)
    ensures Congruent(OnesSum(words), Sum(words))
    ensures OnesSum(words) == 0 <==> Sum(words) == 0
  {
    if words == [] {
      assert 0 == 0 + 0xFFFF * 0;
    } else {
      var front, w := words[..|words| - 1], words[|words| - 1];
      OnesSumIsModular(front);
      var k: int :| OnesSum(front) == Sum(front) + 0xFFFF * k;
      assert OnesSum(words) == Sum(words) + 0xFFFF * (if OnesSum(front) + w > 0xFFFF then k - 1 else k);
    }
  }

  lemma ResidueIsUnique(a: int, b: int, c: int)
    requires Congruent(a, c) && Congruent(b, c)
    requires 0 < a <= 0xFFFF && 0 < b <= 0xFFFF
    ensures a == b
  {
    var j: int :| a == c + 0xFFFF * j;
    var k: int :| b == c + 0xFFFF * k;
    assert a - b == 0xFFFF * (j - k);
  }

  lemma {:induction false} SumOfUpdate(words: seq<Word>, i: nat, w: Word)
    requires i < |words|
    ensures Sum(words[i := w]) == Sum(words) - words[i] + w
  {
    var n := |words| - 1;
    if i == n {
      assert words[i := w][..n] == words[..n];
    } else {
      SumOfUpdate(words[..n], i, w);
      assert words[i := w][..n] == words[..n][i := w];
    }
  }

  /** Storing the complement of the sum where a zero was makes the words sum to 0xFFFF. */
  lemma ComplementCompletes(words: seq<Word>, i: nat)
    requires i < |words| && words[i] == 0 && Sum(words) > 0
    ensures OnesSum(words[i := 0xFFFF - OnesSum(words)]) == 0xFFFF
  {
    var s := OnesSum(words);
    var full := words[i := 0xFFFF - s];
    OnesSumIsModular(words);
    OnesSumIsModular(full);
    SumOfUpdate(words, i, 0xFFFF - s);
    var k: int :| s == Sum(words) + 0xFFFF * k;
    assert Sum(full) == 0xFFFF - 0xFFFF * k == 0xFFFF * (1 - k);
    assert 0xFFFF == Sum(full) + 0xFFFF * k;
    ResidueIsUnique(OnesSum(full), 0xFFFF, Sum(full));
  }

  // ---------------------------------------------------------------------------------------
  // What a receiver reads
  // ---------------------------------------------------------------------------------------

  datatype Segment =
    | Tcp(srcPort: Word, dstPort: Word, seqNo: Long, ack: Long, flags: Byte, window: Word, checksum: Word, urgent: Word)
    | Udp(srcPort: Word, dstPort: Word, checksum: Word)

  datatype Datagram = Datagram(tos: Byte, id: Word, fragment: Word, ttl: Byte, src: seq<Byte>, dst: seq<Byte>,
                               segment: Segment, payload: seq<Byte>)

  predicate HeaderSumsUp(h: seq<Byte>)
    requires |h| == 20
  {
    OnesSum(Words(h)) == 0xFFFF
  }

  function TcpFields(t: seq<Byte>): Segment
    requires |t| >= 20
  {
    Tcp(BigWord(t, 0), BigWord(t, 2), BigLong(t, 4), BigLong(t, 8), t[13], BigWord(t, 14), BigWord(t, 16),
        BigWord(t, 18))
  }

  function UdpFields(t: seq<Byte>): Segment
    requires |t| >= 8
  {
    Udp(BigWord(t, 0), BigWord(t, 2), BigWord(t, 6))
  }

  // A segment and its data: five-word TCP headers, UDP headers whose length is that of the rest.
  function DecodeSegment(protocol: Byte, t: seq<Byte>): Option<(Segment, seq<Byte>)> {
    if protocol == 6 && |t| >= 20 && t[12] == 0x50 then Some((TcpFields(t), t[20..]))
    else if protocol == 17 && |t| >= 8 && BigWord(t, 4) == |t| then Some((UdpFields(t), t[8..]))
    else None
  }

  /** A receiver accepts version 4, a five-word header that sums to 0xFFFF and a total length that
      is the length of the packet. */
  function Decode(p: seq<Byte>): Option<Datagram> {
    if |p| < 20 || p[0] != 0x45 || BigWord(p, 2) != |p| || !HeaderSumsUp(p[..20]) then None
    else
      match DecodeSegment(p[9], p[20..])
      case None => None
      case Some(s) => Some(Datagram(p[1], BigWord(p, 4), BigWord(p, 6), p[8], p[12..16], p[16..20], s.0, s.1))
  }

  // ---------------------------------------------------------------------------------------
  // Synthesis
  // ---------------------------------------------------------------------------------------

  type Address = a: seq<Byte> | |a| == 4 witness [0, 0, 0, 0]

  method Zeros(n: nat) returns (a: array<Byte>)
    ensures fresh(a) && a.Length == n && forall k | 0 <= k < n :: a[k] == 0
  {
    a := new Byte[n](_ => 0);
  }

  method TcpHeader(srcPort: int, dstPort: int, flags: int, seqNo: Long, ack: Long, window: Word)
    returns (th: array<Byte>)
    ensures fresh(th) && th.Length == 20 && th[12] == 0x50
    ensures TcpFields(th[..]) ==
            Tcp(ToWord(srcPort), ToWord(dstPort), seqNo, ack, ToByte(flags),
                if window == 0 then 64240 else window, 0, 0)
    ensures th[0] as int * 0x100 + th[1] == srcPort % 0x1_0000 && th[2] as int * 0x100 + th[3] == dstPort % 0x1_0000
    ensures BigLong(th[..], 4) == seqNo && BigLong(th[..], 8) == ack
    ensures th[13] == flags % 0x100 && th[16] == th[17] == 0
  {
    th := Zeros(20);
    PutBigWord(th, 0, ToWord(srcPort));
    PutBigWord(th, 2, ToWord(dstPort));
    PutBigLong(th, 4, seqNo);
    PutBigLong(th, 8, ack);
    th[12] := 0x50;
    th[13] := ToByte(flags);
    PutBigWord(th, 14, if window == 0 then 64240 else window);
  }

  method UdpHeader(srcPort: int, dstPort: int, size: nat) returns (th: array<Byte>)
    ensures fresh(th) && th.Length == 8 && BigWord(th[..], 4) == ToWord(8 + size)
    ensures UdpFields(th[..]) == Udp(ToWord(srcPort), ToWord(dstPort), 0)
    ensures th[0] as int * 0x100 + th[1] == srcPort % 0x1_0000 && th[2] as int * 0x100 + th[3] == dstPort % 0x1_0000
  {
    th := Zeros(8);
    PutBigWord(th, 0, ToWord(srcPort));
    PutBigWord(th, 2, ToWord(dstPort));
    PutBigWord(th, 4, ToWord(8 + size));
    PutBigWord(th, 6, 0);
  }

  // The 32-bit sum of the words never overflows, and folding the carries in ends.
  method Checksum(h: array<Byte>) returns (c: Word)
    requires h.Length == 20 && Sum(Words(h[..])) > 0
    ensures c == 0xFFFF - OnesSum(Words(h[..]))
  {
    ghost var words := Words(h[..]);
    var csum: int := 0;
    var i := 0;
    while i < 20
      invariant 0 <= i <= 20 && i % 2 == 0
      invariant csum == Sum(words[..i / 2]) <= 0xFFFF * (i / 2)
    {
      assert words[..i / 2 + 1][..i / 2] == words[..i / 2];
      csum := csum + BigWord(h[..], i);
      i := i + 2;
    }
    assert words[..10] == words;
    csum := Fold(csum);
    OnesSumIsModular(words);
    ResidueIsUnique(csum, OnesSum(words), Sum(words));
    c := 0xFFFF - csum;
  }

  method Fold(sum: nat) returns (csum: Word)
    ensures Congruent(csum, sum) && (csum == 0 <==> sum == 0)
  {
    var s: int := sum;
    assert s == sum + 0xFFFF * 0;
    while s / 0x1_0000 > 0
      invariant 0 <= s && Congruent(s, sum) && (s == 0 <==> sum == 0)
      decreases s
    {
      var carry: int := s / 0x1_0000;
      Shifted(s, sum, s % 0x1_0000 + carry, -carry);
      s := s % 0x1_0000 + carry;
    }
    csum := s;
  }

  // The header before its checksum is stored.
  method HeaderDraft(protocol: Byte, total: nat, id: Word, src: Address, dst: Address) returns (h: array<Byte>)
    ensures fresh(h) && h.Length == 20 && h[0] == 0x45 && h[1] == 0 && h[8] == 64 && h[9] == protocol
    ensures BigWord(h[..], 2) == ToWord(total) && BigWord(h[..], 4) == id && BigWord(h[..], 6) == 0x4000
    ensures BigWord(h[..], 10) == 0 && h[12..16] == src && h[16..20] == dst
  {
    h := Zeros(20);
    h[0] := 0x45;
    PutBigWord(h, 2, ToWord(total));
    PutBigWord(h, 4, id);
    h[6] := 0x40;
    h[8] := 64;
    h[9] := protocol;
    Copy(h, 12, src);
    Copy(h, 16, dst);
  }

  method Copy(a: array<Byte>, at: nat, s: Address)
    requires at + 4 <= a.Length
    modifies a
    ensures a[at..at + 4] == s && SameOutside(old(a[..]), a[..], at, at + 4)
  {
    a[at], a[at + 1], a[at + 2], a[at + 3] := s[0], s[1], s[2], s[3];
  }

  method IpHeader(protocol: Byte, total: nat, id: Word, src: Address, dst: Address) returns (h: array<Byte>)
    ensures fresh(h) && h.Length == 20 && h[0] == 0x45 && h[1] == 0 && h[8] == 64 && h[9] == protocol
    ensures BigWord(h[..], 2) == ToWord(total) && BigWord(h[..], 4) == id && BigWord(h[..], 6) == 0x4000
    ensures h[12..16] == src && h[16..20] == dst
    ensures HeaderSumsUp(h[..])
  {
    h := HeaderDraft(protocol, total, id, src, dst);
    ghost var draft := h[..];
    SumIsPositive(draft);
    var c := Checksum(h);
    PutBigWord(h, 10, c);
    WordsAfterPut(draft, h[..], 5, c);
    ComplementCompletes(Words(draft), 5);
  }

  lemma {:induction false} WordIsAtMostSum(words: seq<Word>, i: nat)
    requires i < |words|
    ensures words[i] <= Sum(words)
  {
    if i < |words| - 1 {
      WordIsAtMostSum(words[..|words| - 1], i);
    }
  }

  lemma SumIsPositive(h: seq<Byte>)
    requires |h| == 20 && h[0] == 0x45
    ensures Sum(Words(h)) > 0
  {
    WordIsAtMostSum(Words(h), 0);
  }

  lemma WordsAfterPut(before: seq<Byte>, after: seq<Byte>, i: nat, w: Word)
    requires |before| % 2 == 0 && 2 * i + 2 <= |before|
    requires SameOutside(before, after, 2 * i, 2 * i + 2) && BigWord(after, 2 * i) == w
    ensures Words(after) == Words(before)[i := w]
  {}

  // The protocol is named in any case; none means TCP.
  predicate WantsTcp(proto: string) { ToLower(proto) == "tcp" || proto == "" }

  /** The packet is read back with the addresses, ports, numbers, flags and payload it was made
      from exactly when it is no longer than 65535 bytes; its header always sums to 0xFFFF.  An address
      that is not known is replaced by a fixed one and a window of zero by 64240.  The TCP checksum that is
      read is zero. */
  method Synthesize(proto: string, src: Option<Address>, srcPort: int, dst: Option<Address>, dstPort: int, flags: int,
                    seqNo: Long, ack: Long, window: Word, id: Word, payload: seq<Byte>)
    returns (packet: seq<Byte>)
    ensures |packet| == (if WantsTcp(proto) then 40 else 28) + |payload| && HeaderSumsUp(packet[..20])
    ensures Decode(packet) ==
            if |packet| <= 0xFFFF then
              Some(Datagram(0, id, 0x4000, 64, if src.Some? then src.value else [10, 0, 0, 2],
                            if dst.Some? then dst.value else [198, 51, 100, 1],
                            if WantsTcp(proto) then
                              Tcp(srcPort % 0x1_0000, dstPort % 0x1_0000, seqNo, ack, flags % 0x100,
                                  if window == 0 then 64240 else window, 0, 0)
                            else
                              Udp(srcPort % 0x1_0000, dstPort % 0x1_0000, 0), payload))
            else None
  {
    var from: Address := [10, 0, 0, 2];
    if src.Some? {
      from := src.value;
    }
    var to: Address := [198, 51, 100, 1];
    if dst.Some? {
      to := dst.value;
    }
    var isTcp := ToUpper(proto) == "TCP" || proto == "";
    SameFold(proto, "tcp", "TCP");
    var transport: array<Byte>;
    var protocol: Byte := 17;
    if isTcp {
      protocol := 6;
      transport := TcpHeader(srcPort, dstPort, flags, seqNo, ack, window);
    } else {
      transport := UdpHeader(srcPort, dstPort, |payload|);
    }
    var total := 20 + transport.Length + |payload|;
    var header := IpHeader(protocol, total, id, from, to);
    packet := header[..] + transport[..] + payload;
    ghost var body := transport[..] + payload;
    assert packet == header[..] + body;
    HeaderIsRead(header[..], body);
    if total <= 0xFFFF {
      SegmentIsRead(protocol, transport[..], payload);
    }
    DatagramIsRead(header[..], body, protocol, id, from, to);
  }

  // A packet is read from its header and its segment, if its length fits the header.
  lemma DatagramIsRead(h: seq<Byte>, body: seq<Byte>, protocol: Byte, id: Word, src: Address, dst: Address)
    requires |h| == 20 && h[0] == 0x45 && h[1] == 0 && h[8] == 64 && h[9] == protocol && HeaderSumsUp(h)
    requires BigWord(h, 2) == ToWord(20 + |body|) && BigWord(h, 4) == id && BigWord(h, 6) == 0x4000
    requires h[12..16] == src && h[16..20] == dst
    ensures Decode(h + body) ==
            if 20 + |body| > 0xFFFF || DecodeSegment(protocol, body).None? then None
            else var s := DecodeSegment(protocol, body).value;
                 Some(Datagram(0, id, 0x4000, 64, src, dst, s.0, s.1))
  {
    HeaderIsRead(h, body);
  }

  lemma SegmentIsRead(protocol: Byte, t: seq<Byte>, payload: seq<Byte>)
    requires (protocol == 6 && |t| == 20 && t[12] == 0x50) ||
             (protocol == 17 && |t| == 8 && BigWord(t, 4) == ToWord(8 + |payload|))
    requires |t| + |payload| <= 0xFFFF
    ensures DecodeSegment(protocol, t + payload) ==
            Some((if protocol == 6 then TcpFields(t) else UdpFields(t), payload))
  {
    assert (t + payload)[|t|..] == payload;
  }

  lemma HeaderIsRead(h: seq<Byte>, rest: seq<Byte>)
    requires |h| == 20 && HeaderSumsUp(h)
    ensures (h + rest)[..20] == h && (h + rest)[20..] == rest
    ensures (h + rest)[12..16] == h[12..16] && (h + rest)[16..20] == h[16..20]
  {}
}
