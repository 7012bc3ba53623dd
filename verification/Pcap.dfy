/** Capture files (pkg/security/pcap.go): what a reader finds after any sequence of writes.
    The clock is a parameter of each write; file-system errors are left out. */
module Pcap {
  import opened Common
  import opened Bytes

  const MAGIC: Long := 0xa1b2c3d4
  const VERSION_MAJOR: Word := 2
  const VERSION_MINOR: Word := 4
  const SNAP_LEN: Long := 65535
  const LINK_TYPE_RAW_IP: Long := 101

  datatype Write = Write(packet: seq<Byte>, timestampMs: int, now: nat) {
    function Time(): nat { if timestampMs <= 0 then now else timestampMs }
    function Seconds(): Long { ToLong(Time() / 1000) }
    function Micros(): Long { Time() % 1000 * 1000 }

    // Whether the 32-bit fields of a record hold the write.
    predicate Fits() { |packet| <= 0xFFFF_FFFF && Time() / 1000 <= 0xFFFF_FFFF }
  }

  // ---------------------------------------------------------------------------------------
  // The reader
  // ---------------------------------------------------------------------------------------

  // The time is in microseconds.
  datatype Packet = Packet(time: nat, data: seq<Byte>)

  // The bytes of the record that a file starts with.
  function RecordSize(s: seq<Byte>): Option<nat> {
    if |s| < 16 || LittleLong(s, 8) != LittleLong(s, 12) || |s| < 16 + LittleLong(s, 8) then None
    else Some(16 + LittleLong(s, 8))
  }

  function TimeOf(s: seq<Byte>): nat
    requires |s| >= 16
  {
    LittleLong(s, 0) * 1_000_000 + LittleLong(s, 4)
  }

  function ReadRecords(s: seq<Byte>): Option<seq<Packet>> {
    if s == [] then Some([])
    else if RecordSize(s).None? then None
    else
      var n := RecordSize(s).value;
      match ReadRecords(s[n..]) case None => None case Some(rest) => Some([Packet(TimeOf(s), s[16..n])] + rest)
  }

  predicate IsGlobalHeader(s: seq<Byte>, linkType: Long)
    requires |s| == 24
  {
    && LittleLong(s, 0) == 0xa1b2c3d4 && LittleWord(s, 4) == 2 && LittleWord(s, 6) == 4
    && LittleLong(s, 8) == 0 && LittleLong(s, 12) == 0
    && LittleLong(s, 16) == 65535 && LittleLong(s, 20) == linkType
  }

  // A file that was never written to holds no packets.
  function Read(file: seq<Byte>): Option<seq<Packet>> {
    if file == [] then Some([])
    else if |file| < 24 || !IsGlobalHeader(file[..24], 101) then None
    else ReadRecords(file[24..])
  }

  // ---------------------------------------------------------------------------------------
  // The writer
  // ---------------------------------------------------------------------------------------

  function GlobalHeader(linkType: Long): (s: seq<Byte>)
    ensures |s| == 24
  {
    LittleLongBytes(MAGIC) + LittleWordBytes(VERSION_MAJOR) + LittleWordBytes(VERSION_MINOR) + LittleLongBytes(0) +
    LittleLongBytes(0) + LittleLongBytes(SNAP_LEN) + LittleLongBytes(linkType)
  }

  function RecordHeader(seconds: Long, micros: Long, size: Long): (s: seq<Byte>)
    ensures |s| == 16
  {
    LittleLongBytes(seconds) + LittleLongBytes(micros) + LittleLongBytes(size) + LittleLongBytes(size)
  }

  function Record(w: Write): seq<Byte> { RecordHeader(w.Seconds(), w.Micros(), ToLong(|w.packet|)) + w.packet }

  function Append(file: seq<Byte>, w: Write): seq<Byte> {
    if w.packet == [] then file else (if file == [] then GlobalHeader(LINK_TYPE_RAW_IP) else file) + Record(w)
  }

  function Run(file: seq<Byte>, ws: seq<Write>): seq<Byte>
    decreases |ws|
  {
    if ws == [] then file else Run(Append(file, ws[0]), ws[1..])
  }

  // When a write happened: at the given time, or now if none is given.
  function Moment(w: Write): nat { if w.timestampMs > 0 then w.timestampMs else w.now }

  // What the writes mean: their non-empty packets at their times.
  function Sent(ws: seq<Write>): seq<Packet> {
    if ws == [] then []
    else (if ws[0].packet == [] then [] else [Packet(Moment(ws[0]) * 1000, ws[0].packet)]) + Sent(ws[1..])
  }

  predicate AllFit(ws: seq<Write>) { forall i | 0 <= i < |ws| && ws[i].packet != [] :: ws[i].Fits() }

  // ---------------------------------------------------------------------------------------
  // Reading back
  // ---------------------------------------------------------------------------------------

  lemma GlobalHeaderIsRead(linkType: Long)
    ensures IsGlobalHeader(GlobalHeader(linkType), linkType)
  {
    var s := GlobalHeader(linkType);
    LittleLongReadsBack(s, 0, MAGIC);
    LittleWordReadsBack(s, 4, VERSION_MAJOR);
    LittleWordReadsBack(s, 6, VERSION_MINOR);
    LittleLongReadsBack(s, 8, 0);
    LittleLongReadsBack(s, 12, 0);
    LittleLongReadsBack(s, 16, SNAP_LEN);
    LittleLongReadsBack(s, 20, linkType);
  }

  /** A capture starts with these bytes. */
  lemma GlobalHeaderBytes()
    ensures GlobalHeader(LINK_TYPE_RAW_IP) ==
            [0xd4, 0xc3, 0xb2, 0xa1, 2, 0, 4, 0, 0, 0, 0, 0, 0, 0, 0, 0, 0xff, 0xff, 0, 0, 101, 0, 0, 0]
  {}

  lemma RecordHeaderIsRead(seconds: Long, micros: Long, size: Long, rest: seq<Byte>)
    ensures var s := RecordHeader(seconds, micros, size) + rest;
            && LittleLong(s, 0) == seconds && LittleLong(s, 4) == micros
            && LittleLong(s, 8) == size && LittleLong(s, 12) == size
            && s[16..] == rest
  {
    var s := RecordHeader(seconds, micros, size) + rest;
    assert s[0..4] == LittleLongBytes(seconds) && s[4..8] == LittleLongBytes(micros);
    assert s[8..12] == LittleLongBytes(size) && s[12..16] == LittleLongBytes(size);
    LittleLongReadsBack(s, 0, seconds);
    LittleLongReadsBack(s, 4, micros);
    LittleLongReadsBack(s, 8, size);
    LittleLongReadsBack(s, 12, size);
  }

  lemma RecordStarts(w: Write, rest: seq<Byte>)
    ensures var s, size := Record(w) + rest, ToLong(|w.packet|);
            && RecordSize(s) == (if |w.packet| + |rest| < size then None else Some(16 + size))
            && TimeOf(s) == w.Seconds() * 1_000_000 + w.Micros()
            && s[16..] == w.packet + rest
  {
    var size := ToLong(|w.packet|);
    RecordHeaderIsRead(w.Seconds(), w.Micros(), size, w.packet + rest);
    assert Record(w) + rest == RecordHeader(w.Seconds(), w.Micros(), size) + (w.packet + rest);
  }

  lemma TimeIsKept(w: Write)
    ensures w.Time() / 1000 <= 0xFFFF_FFFF <==> w.Seconds() * 1_000_000 + w.Micros() == Moment(w) * 1000
  {}

  lemma FittingRecordStarts(w: Write, rest: seq<Byte>, s: seq<Byte>, time: nat)
    requires w.Fits() && s == Record(w) + rest && time == Moment(w) * 1000
    ensures RecordSize(s) == Some(16 + |w.packet|) && TimeOf(s) == time && s[16..] == w.packet + rest
  {
    RecordStarts(w, rest);
    TimeIsKept(w);
    SizeIsKept(|w.packet|);
  }

  lemma SizeIsKept(n: nat)
    requires n <= 0xFFFF_FFFF
    ensures ToLong(n) == n
  {}

  lemma Slices(s: seq<Byte>, packet: seq<Byte>, rest: seq<Byte>)
    requires |s| >= 16 && s[16..] == packet + rest
    ensures s[16..16 + |packet|] == packet && s[16 + |packet|..] == rest
  {
    assert s[16..16 + |packet|] == s[16..][..|packet|];
    assert s[16 + |packet|..] == s[16..][|packet|..];
  }

  lemma ReadStep(s: seq<Byte>, packet: seq<Byte>, rest: seq<Byte>)
    requires RecordSize(s) == Some(16 + |packet|) && s[16..] == packet + rest
    ensures ReadRecords(s) ==
            match ReadRecords(rest) case None => None case Some(ps) => Some([Packet(TimeOf(s), packet)] + ps)
  {
    Slices(s, packet, rest);
  }

  // A record that fits is read as it was written, whatever follows it.
  lemma RecordIsRead(w: Write, rest: seq<Byte>)
    requires w.Fits()
    ensures ReadRecords(Record(w) + rest) ==
            match ReadRecords(rest) case None => None case Some(ps) => Some([Packet(Moment(w) * 1000, w.packet)] + ps)
  {
    FittingRecordStarts(w, rest, Record(w) + rest, Moment(w) * 1000);
    ReadStep(Record(w) + rest, w.packet, rest);
  }

  // One that does not fit is not, whatever follows it.
  lemma RecordIsMisread(w: Write, rest: seq<Byte>)
    requires !w.Fits()
    ensures var read := ReadRecords(Record(w) + rest);
            read.None? || (read.value != [] && read.value[0] != Packet(Moment(w) * 1000, w.packet))
  {
    RecordStarts(w, rest);
    TimeIsKept(w);
  }

  lemma HeaderIsInFront(s: seq<Byte>, t: seq<Byte>)
    requires RecordSize(s).Some?
    ensures RecordSize(s + t) == RecordSize(s) && TimeOf(s + t) == TimeOf(s)
  {
    assert forall i | 0 <= i < 16 :: (s + t)[i] == s[i];
  }

  lemma SlicesInFront(s: seq<Byte>, t: seq<Byte>, n: nat)
    requires 16 <= n <= |s|
    ensures (s + t)[16..] == s[16..n] + (s[n..] + t)
  {}

  lemma {:induction false} ReadConcat(s: seq<Byte>, t: seq<Byte>)
    requires ReadRecords(s).Some?
    ensures ReadRecords(s + t) ==
            match ReadRecords(t) case None => None case Some(ps) => Some(ReadRecords(s).value + ps)
    decreases |s|
  {
    if s == [] {
      assert s + t == t;
      if ReadRecords(t).Some? {
        assert [] + ReadRecords(t).value == ReadRecords(t).value;
      }
    } else {
      var n := RecordSize(s).value;
      ReadConcat(s[n..], t);
      HeaderIsInFront(s, t);
      SlicesInFront(s, t, n);
      ReadStep(s + t, s[16..n], s[n..] + t);
      assert s + t != [];
      if ReadRecords(t).Some? {
        Associates([Packet(TimeOf(s), s[16..n])], ReadRecords(s[n..]).value, ReadRecords(t).value);
      }
    }
  }

  function Records(ws: seq<Write>): seq<Byte> {
    if ws == [] then [] else (if ws[0].packet == [] then [] else Record(ws[0])) + Records(ws[1..])
  }

  lemma Associates<T>(a: seq<T>, b: seq<T>, c: seq<T>)
    ensures (a + b) + c == a + (b + c)
  {}

  // After the first packet no further global header is written.
  lemma {:induction false} OnlyRecordsFollow(file: seq<Byte>, ws: seq<Write>)
    requires file != []
    ensures Run(file, ws) == file + Records(ws)
    decreases |ws|
  {
    if ws == [] {
      assert file + [] == file;
    } else if ws[0].packet == [] {
      OnlyRecordsFollow(file, ws[1..]);
      assert Records(ws) == Records(ws[1..]);
    } else {
      OnlyRecordsFollow(file + Record(ws[0]), ws[1..]);
      Associates(file, Record(ws[0]), Records(ws[1..]));
    }
  }

  lemma {:induction false} RecordsAreRead(ws: seq<Write>)
    ensures ReadRecords(Records(ws)) == Some(Sent(ws)) <==> AllFit(ws)
  {
    if ws != [] {
      var w, rest := ws[0], ws[1..];
      RecordsAreRead(rest);
      assert AllFit(ws) <==> (w.packet == [] || w.Fits()) && AllFit(rest) by { AllFitSplits(ws); }
      if w.packet == [] {
        assert Records(ws) == Records(rest) && Sent(ws) == Sent(rest);
      } else {
        assert Sent(ws) == [Packet(Moment(w) * 1000, w.packet)] + Sent(rest);
        if w.Fits() {
          RecordIsRead(w, Records(rest));
          if ReadRecords(Records(rest)).Some? {
            FrontIsUnique(Packet(Moment(w) * 1000, w.packet), ReadRecords(Records(rest)).value, Sent(rest));
          }
        } else {
          RecordIsMisread(w, Records(rest));
        }
      }
    }
  }

  lemma AllFitSplits(ws: seq<Write>)
    requires ws != []
    ensures AllFit(ws) <==> (ws[0].packet == [] || ws[0].Fits()) && AllFit(ws[1..])
  {
    if AllFit(ws[1..]) && (ws[0].packet == [] || ws[0].Fits()) {
      forall i | 0 <= i < |ws| && ws[i].packet != [] ensures ws[i].Fits() {
        if i > 0 { assert ws[i] == ws[1..][i - 1]; }
      }
    }
  }

  lemma FrontIsUnique(p: Packet, read: seq<Packet>, sent: seq<Packet>)
    ensures [p] + read == [p] + sent <==> read == sent
  {
    if [p] + read == [p] + sent {
      assert ([p] + read)[1..] == ([p] + sent)[1..];
    }
  }

  /** Any sequence of writes to a readable capture, possibly an empty one, adds exactly the
      non-empty packets with their times, in order, if and only if every packet length and every
      time in seconds fits its 32-bit field. */
  lemma CaptureReadsBack(file: seq<Byte>, ws: seq<Write>)
    requires Read(file).Some?
    ensures Read(Run(file, ws)) == Some(Read(file).value + Sent(ws)) <==> AllFit(ws)
    decreases |ws|
  {
    if file != [] {
      OnlyRecordsFollow(file, ws);
      ReadAfter(file, ws);
    } else if ws == [] {
      assert [] + Sent(ws) == [];
    } else {
      if ws[0].packet == [] {
        CaptureReadsBack(file, ws[1..]);
        EmptyPacketIsIgnored(file, ws);
      } else {
        EmptyCapture(file, ws);
        assert [] + Sent(ws) == Sent(ws);
      }
    }
  }

  lemma EmptyPacketIsIgnored(file: seq<Byte>, ws: seq<Write>)
    requires ws != [] && ws[0].packet == []
    ensures Run(file, ws) == Run(file, ws[1..]) && Sent(ws) == Sent(ws[1..])
    ensures AllFit(ws) <==> AllFit(ws[1..])
  {
    AllFitSplits(ws);
  }

  lemma EmptyCapture(file: seq<Byte>, ws: seq<Write>)
    requires file == [] && ws != [] && ws[0].packet != []
    ensures Read(Run(file, ws)) == Some(Sent(ws)) <==> AllFit(ws)
  {
    BareHeaderIsEmpty();
    HeaderThenRecords(file, ws);
    ReadAfter(GlobalHeader(LINK_TYPE_RAW_IP), ws);
    assert [] + Sent(ws) == Sent(ws);
  }

  /** There is one global header, and the records of the packets follow it. */
  lemma HeaderThenRecords(file: seq<Byte>, ws: seq<Write>)
    requires file == [] && ws != [] && ws[0].packet != []
    ensures Run(file, ws) == GlobalHeader(LINK_TYPE_RAW_IP) + Records(ws)
  {
    OnlyRecordsFollow(Append(file, ws[0]), ws[1..]);
    Associates(GlobalHeader(LINK_TYPE_RAW_IP), Record(ws[0]), Records(ws[1..]));
  }

  lemma BareHeaderIsEmpty()
    ensures Read(GlobalHeader(LINK_TYPE_RAW_IP)) == Some([])
  {
    GlobalHeaderIsRead(LINK_TYPE_RAW_IP);
    assert GlobalHeader(LINK_TYPE_RAW_IP)[..24] == GlobalHeader(LINK_TYPE_RAW_IP);
  }

  lemma SuffixIsUnique(before: seq<Packet>, read: seq<Packet>, sent: seq<Packet>)
    ensures before + read == before + sent <==> read == sent
  {
    if before + read == before + sent {
      assert (before + read)[|before|..] == (before + sent)[|before|..];
    }
  }

  lemma ReadAfter(file: seq<Byte>, ws: seq<Write>)
    requires Read(file).Some? && file != []
    ensures Read(file + Records(ws)) == Some(Read(file).value + Sent(ws)) <==> AllFit(ws)
  {
    var header, body, records := file[..24], file[24..], Records(ws);
    assert (file + records)[..24] == header && (file + records)[24..] == body + records;
    ReadConcat(body, records);
    RecordsAreRead(ws);
    if ReadRecords(records).Some? {
      SuffixIsUnique(Read(file).value, ReadRecords(records).value, Sent(ws));
    }
  }

  // ---------------------------------------------------------------------------------------
  // The file
  // ---------------------------------------------------------------------------------------

  method NewGlobalHeader(linkType: Long) returns (header: array<Byte>)
    ensures fresh(header) && header[..] == GlobalHeader(linkType)
  {
    header := new Byte[24](_ => 0);
    PutLittleLong(header, 0, MAGIC);
    PutLittleWord(header, 4, VERSION_MAJOR);
    PutLittleWord(header, 6, VERSION_MINOR);
    assert header[..8] == header[0..4] + header[4..6] + header[6..8];
    ghost var start := header[..8];
    PutLittleLong(header, 8, 0);
    PutLittleLong(header, 12, 0);
    PutLittleLong(header, 16, SNAP_LEN);
    PutLittleLong(header, 20, linkType);
    assert header[..8] == start;
    assert header[..] == header[..8] + header[8..12] + header[12..16] + header[16..20] + header[20..24];
  }

  method NewRecordHeader(seconds: Long, micros: Long, size: Long) returns (header: array<Byte>)
    ensures fresh(header) && header[..] == RecordHeader(seconds, micros, size)
  {
    header := new Byte[16](_ => 0);
    PutLittleLong(header, 0, seconds);
    PutLittleLong(header, 4, micros);
    PutLittleLong(header, 8, size);
    PutLittleLong(header, 12, size);
    assert header[..] == header[0..4] + header[4..8] + header[8..12] + header[12..16];
  }

  class CaptureFile {
    var content: seq<Byte>

    constructor ()
      ensures content == []
    {
      content := [];
    }

    method WriteGlobalHeader(linkType: Long)
      modifies this
      ensures content == if old(content) == [] then GlobalHeader(linkType) else old(content)
    {
      if |content| > 0 {
        return;
      }
      var header := NewGlobalHeader(linkType);
      content := content + header[..];
    }

    method WritePacket(packet: seq<Byte>, timestampMs: int, now: nat)
      modifies this
      ensures content == Append(old(content), Write(packet, timestampMs, now))
    {
      if |packet| == 0 {
        return;
      }
      WriteGlobalHeader(LINK_TYPE_RAW_IP);
      var time := timestampMs;
      if time <= 0 {
        time := now;
      }
      ghost var w := Write(packet, timestampMs, now);
      assert w.Seconds() == ToLong(time / 1000) && w.Micros() == ToLong(time % 1000 * 1000);
      WriteRecord(ToLong(time / 1000), ToLong(time % 1000 * 1000), packet);
    }

    method WriteRecord(seconds: Long, micros: Long, packet: seq<Byte>)
      modifies this
      ensures content == old(content) + (RecordHeader(seconds, micros, ToLong(|packet|)) + packet)
    {
      var header := NewRecordHeader(seconds, micros, ToLong(|packet|));
      content := content + header[..];
      Associates(old(content), header[..], packet);
      content := content + packet;
    }
  }
}
