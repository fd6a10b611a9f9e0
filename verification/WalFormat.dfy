/**
  The framing of the task-queue log: big-endian length, payload, CRC32C of the
  payload; and the scan that reads frames until the first one that is torn or
  does not check.
*/
module WalFormat {
  import opened Basics
  import opened Crc32c

  type Bytes = seq<Byte>

  const LENGTH_LIMIT: nat := 0x1_0000_0000

  datatype WalRecord = WalRecord(payload: Bytes, offset: nat, length: nat)

  // ---------- Big-endian words ----------

  function Ord(b: Byte): int { b as int }

  /** The byte of value `n`. */
  function Chr(n: int): Byte
    requires 0 <= n < 0x100
  {
    if n == 0 then 0 else Chr(n - 1) + 1
  }

  lemma NextByte(b: Byte)
    requires Ord(b) < 0xff
    ensures Ord(b + 1) == Ord(b) + 1
  {
    assert b < 0xff;
  }

  lemma {:induction false} OrdChr(n: int)
    requires 0 <= n < 0x100
    ensures Ord(Chr(n)) == n
  {
    hide Ord;
    if n == 0 {
      OrdZero();
    } else {
      OrdChr(n - 1);
      NextByte(Chr(n - 1));
    }
  }

  lemma OrdZero() ensures Ord(0) == 0 {}

  lemma OrdInjective(a: Byte, b: Byte)
    requires Ord(a) == Ord(b)
    ensures a == b
  {}

  lemma OrdRange(b: Byte) ensures 0 <= Ord(b) < 0x100 {}

  lemma ChrOrd(b: Byte)
    ensures 0 <= Ord(b) < 0x100 && Chr(Ord(b)) == b
  {
    hide Ord, Chr;
    OrdRange(b);
    OrdChr(Ord(b));
    OrdInjective(Chr(Ord(b)), b);
  }

  function HalfWordBytes(n: nat): (b: Bytes)
    requires n < 0x1_0000
    ensures |b| == 2
  {
    [Chr(n / 0x100), Chr(n % 0x100)]
  }

  function ReadHalfWord(b: Bytes): (n: nat)
    requires |b| == 2
    ensures n < 0x1_0000
  {
    hide Ord;
    ChrOrd(b[0]);
    ChrOrd(b[1]);
    Ord(b[0]) * 0x100 + Ord(b[1])
  }

  lemma HalfWordRoundTrip(n: nat)
    requires n < 0x1_0000
    ensures ReadHalfWord(HalfWordBytes(n)) == n
  {
    hide Ord, Chr;
    OrdChr(n / 0x100);
    OrdChr(n % 0x100);
  }

  lemma HalfWordUnique(b: Bytes)
    requires |b| == 2
    ensures HalfWordBytes(ReadHalfWord(b)) == b
  {
    hide Ord, Chr;
    ChrOrd(b[0]);
    ChrOrd(b[1]);
  }

  /** The 4 bytes of an unsigned 32-bit length, most significant first. */
  function LengthBytes(n: nat): (b: Bytes)
    requires n < LENGTH_LIMIT
    ensures |b| == 4
  {
    HalfWordBytes(n / 0x1_0000) + HalfWordBytes(n % 0x1_0000)
  }

  function ReadLength(b: Bytes): (n: nat)
    requires |b| == 4
    ensures n < LENGTH_LIMIT
  {
    ReadHalfWord(b[..2]) * 0x1_0000 + ReadHalfWord(b[2..])
  }

  lemma LengthRoundTrip(n: nat)
    requires n < LENGTH_LIMIT
    ensures ReadLength(LengthBytes(n)) == n
  {
    hide HalfWordBytes, ReadHalfWord;
    var hi, lo := HalfWordBytes(n / 0x1_0000), HalfWordBytes(n % 0x1_0000);
    assert (hi + lo)[..2] == hi && (hi + lo)[2..] == lo;
    HalfWordRoundTrip(n / 0x1_0000);
    HalfWordRoundTrip(n % 0x1_0000);
  }

  lemma LengthUnique(b: Bytes)
    requires |b| == 4
    ensures LengthBytes(ReadLength(b)) == b
  {
    hide HalfWordBytes, ReadHalfWord;
    HalfWordUnique(b[..2]);
    HalfWordUnique(b[2..]);
    assert b == b[..2] + b[2..];
  }

  /** The 4 bytes of a checksum, most significant first. */
  function CrcBytes(r: Register): (b: Bytes)
    ensures |b| == 4
  {
    [(r >> 24) as Byte, ((r >> 16) & 0xff) as Byte, ((r >> 8) & 0xff) as Byte, (r & 0xff) as Byte]
  }

  function ReadCrc(b: Bytes): Register
    requires |b| == 4
  {
    (b[0] as Register << 24) | (b[1] as Register << 16) | (b[2] as Register << 8) | (b[3] as Register)
  }

  lemma CrcRoundTrip(r: Register)
    ensures ReadCrc(CrcBytes(r)) == r
  {}

  lemma CrcUnique(b: Bytes)
    requires |b| == 4
    ensures CrcBytes(ReadCrc(b)) == b
  {}

  // ---------- Frames ----------

  function Encode(payload: Bytes): (frame: Bytes)
    requires |payload| < LENGTH_LIMIT
    ensures |frame| == |payload| + 8
  {
    LengthBytes(|payload|) + payload + CrcBytes(Checksum(payload))
  }

  /** The payload of the frame at the front of `buffer`, if a whole frame that checks is there. */
  function FirstFrame(buffer: Bytes): (p: Option<Bytes>)
    ensures p.Some? ==> |p.value| < LENGTH_LIMIT && |p.value| + 8 <= |buffer|
  {
    if |buffer| < 8 then None
    else
      var n := ReadLength(buffer[..4]);
      if n + 8 > |buffer| then None
      else if ReadCrc(buffer[n + 4..n + 8]) != Checksum(buffer[4..n + 4]) then None
      else Some(buffer[4..n + 4])
  }

  /** A frame is recognised exactly where an encoding stands. */
  lemma FirstFrameIsEncoding(buffer: Bytes, p: Bytes)
    requires |p| < LENGTH_LIMIT
    ensures FirstFrame(buffer) == Some(p) <==> Encode(p) <= buffer
  {
    hide LengthBytes, ReadLength, CrcBytes, ReadCrc, Checksum;
    if Encode(p) <= buffer {
      var e := Encode(p);
      LengthRoundTrip(|p|);
      CrcRoundTrip(Checksum(p));
      assert buffer[..4] == e[..4] == LengthBytes(|p|);
      assert buffer[4..|p| + 4] == e[4..|p| + 4] == p;
      assert buffer[|p| + 4..|p| + 8] == e[|p| + 4..] == CrcBytes(Checksum(p));
    }
    if FirstFrame(buffer) == Some(p) {
      LengthUnique(buffer[..4]);
      CrcUnique(buffer[|p| + 4..|p| + 8]);
      assert |p| == ReadLength(buffer[..4]);
      assert Encode(p) == buffer[..4] + buffer[4..|p| + 4] + buffer[|p| + 4..|p| + 8] == buffer[..|p| + 8];
    }
  }

  predicate Encodable(payloads: seq<Bytes>) {
    forall i :: 0 <= i < |payloads| ==> |payloads[i]| < LENGTH_LIMIT
  }

  /** The log that holds these payloads. */
  function Stream(payloads: seq<Bytes>): Bytes
    requires Encodable(payloads)
  {
    if |payloads| == 0 then [] else Encode(payloads[0]) + Stream(payloads[1..])
  }

  /** The payloads of the frames that tile `buffer` from the front. */
  function Scan(buffer: Bytes): (payloads: seq<Bytes>)
    ensures Encodable(payloads)
    decreases |buffer|
  {
    var first := FirstFrame(buffer);
    if first.None? then [] else [first.value] + Scan(buffer[|first.value| + 8..])
  }

  lemma {:induction false} StreamSplit(a: seq<Bytes>, b: seq<Bytes>)
    requires Encodable(a) && Encodable(b)
    ensures Encodable(a + b) && Stream(a + b) == Stream(a) + Stream(b)
  {
    hide Encode;
    if |a| == 0 {
      assert a + b == b;
    } else {
      assert (a + b)[1..] == a[1..] + b;
      StreamSplit(a[1..], b);
    }
  }

  lemma StreamOne(p: Bytes)
    requires |p| < LENGTH_LIMIT
    ensures Encodable([p]) && Stream([p]) == Encode(p)
  {
    hide Encode;
    assert Stream([p]) == Encode(p) + Stream([]);
  }

  /** Frames followed by bytes that start no frame are read back exactly. */
  lemma {:induction false} ScanOfStream(payloads: seq<Bytes>, tail: Bytes)
    requires Encodable(payloads) && FirstFrame(tail).None?
    ensures Scan(Stream(payloads) + tail) == payloads
    decreases |payloads|
  {
    hide Encode, FirstFrame;
    if |payloads| == 0 {
      assert Stream(payloads) + tail == tail;
    } else {
      var rest := Stream(payloads[1..]) + tail;
      assert Stream(payloads) + tail == Encode(payloads[0]) + rest;
      FirstFrameIsEncoding(Encode(payloads[0]) + rest, payloads[0]);
      ScanOfStream(payloads[1..], tail);
    }
  }

  /** For any bytes at all, the scanned frames tile a prefix and no frame follows them. */
  lemma {:induction false} ScanTiles(buffer: Bytes)
    ensures Stream(Scan(buffer)) <= buffer
    ensures FirstFrame(buffer[|Stream(Scan(buffer))|..]).None?
    decreases |buffer|
  {
    hide Encode, FirstFrame;
    var first := FirstFrame(buffer);
    if first.Some? {
      var p := first.value;
      var rest := buffer[|p| + 8..];
      FirstFrameIsEncoding(buffer, p);
      ScanTiles(rest);
      assert Scan(buffer) == [p] + Scan(rest);
      assert Stream(Scan(buffer)) == Encode(p) + Stream(Scan(rest));
      assert buffer == Encode(p) + rest;
      assert buffer[|Stream(Scan(buffer))|..] == rest[|Stream(Scan(rest))|..];
    }
  }

  // ---------- The parse loop ----------

  function Payloads(records: seq<WalRecord>): (ps: seq<Bytes>)
    ensures |ps| == |records|
  {
    seq(|records|, i requires 0 <= i < |records| => records[i].payload)
  }

  /** Every record says where its frame stands. */
  ghost predicate Placed(records: seq<WalRecord>) {
    && Encodable(Payloads(records))
    && forall i :: 0 <= i < |records| ==>
         && records[i].offset == |Stream(Payloads(records)[..i])|
         && records[i].length == |records[i].payload| + 8
  }

  method ParseRecords(table: array<Register>, buffer: Bytes) returns (records: seq<WalRecord>, validBytes: nat)
    requires IsTable(table[..])
    ensures Payloads(records) == Scan(buffer)
    ensures validBytes == |Stream(Scan(buffer))|
    ensures Placed(records)
  {
    hide *;
    records := [];
    var offset := 0;
    NothingParsed(buffer);
    while offset + 8 <= |buffer|
      invariant 0 <= offset <= |buffer|
      invariant Placed(records) && Encodable(Payloads(records))
      invariant offset == |Stream(Payloads(records))|
      invariant Scan(buffer) == Payloads(records) + Scan(buffer[offset..])
    {
      FrameAt(buffer, offset);
      var payloadLen := ReadLength(buffer[offset..offset + 4]);
      var payloadStart := offset + 4;
      var payloadEnd := payloadStart + payloadLen;
      var crcEnd := payloadEnd + 4;
      if crcEnd > |buffer| {
        break;
      }
      var payload := buffer[payloadStart..payloadEnd];
      var expectedCrc := ReadCrc(buffer[payloadEnd..crcEnd]);
      var actualCrc := TableChecksum(table, payload);
      if expectedCrc != actualCrc {
        break;
      }
      ScanAdvances(buffer, offset, payload);
      Regroup(Payloads(records), payload, Scan(buffer[crcEnd..]));
      RecordPlaced(records, payload);
      records := records + [WalRecord(payload, offset, crcEnd - offset)];
      offset := crcEnd;
    }
    ScanEnds(buffer[offset..]);
    assert Payloads(records) + [] == Payloads(records);
    validBytes := offset;
  }

  lemma NothingParsed(buffer: Bytes)
    ensures Payloads([]) == [] && Placed([]) && Encodable([]) && Stream([]) == []
    ensures Scan(buffer) == Payloads([]) + Scan(buffer[0..])
  {
    hide Scan;
    assert buffer[0..] == buffer;
  }

  lemma ScanEnds(tail: Bytes)
    ensures |tail| < 8 ==> Scan(tail) == []
    ensures FirstFrame(tail).None? ==> Scan(tail) == []
  {
    if |tail| < 8 { assert FirstFrame(tail).None?; }
    hide FirstFrame;
  }

  /** What the loop reads at `offset` decides the frame at the front of the remaining bytes. */
  lemma FrameAt(buffer: Bytes, offset: nat)
    requires offset + 8 <= |buffer|
    ensures var n := ReadLength(buffer[offset..offset + 4]);
      FirstFrame(buffer[offset..]) ==
        if offset + n + 8 > |buffer|
           || ReadCrc(buffer[offset + n + 4..offset + n + 8]) != Checksum(buffer[offset + 4..offset + n + 4])
        then None
        else Some(buffer[offset + 4..offset + n + 4])
  {
    hide ReadLength, ReadCrc, Checksum;
    var rest := buffer[offset..];
    assert rest[..4] == buffer[offset..offset + 4];
    var n := ReadLength(rest[..4]);
    if n + 8 <= |rest| {
      assert rest[4..n + 4] == buffer[offset + 4..offset + n + 4];
      assert rest[n + 4..n + 8] == buffer[offset + n + 4..offset + n + 8];
    }
  }

  lemma ScanAdvances(buffer: Bytes, offset: nat, payload: Bytes)
    requires offset <= |buffer| && FirstFrame(buffer[offset..]) == Some(payload)
    ensures offset + |payload| + 8 <= |buffer|
    ensures Scan(buffer[offset..]) == [payload] + Scan(buffer[offset + |payload| + 8..])
  {
    hide FirstFrame;
    assert buffer[offset..][|payload| + 8..] == buffer[offset + |payload| + 8..];
  }

  lemma Regroup<T>(a: seq<T>, x: T, b: seq<T>)
    ensures a + ([x] + b) == a + [x] + b
  {}

  lemma RecordPlaced(records: seq<WalRecord>, payload: Bytes)
    requires Placed(records) && Encodable(Payloads(records)) && |payload| < LENGTH_LIMIT
    ensures var offset := |Stream(Payloads(records))|;
      var records' := records + [WalRecord(payload, offset, |payload| + 8)];
      && Payloads(records') == Payloads(records) + [payload]
      && Placed(records') && Encodable(Payloads(records'))
      && |Stream(Payloads(records'))| == offset + |payload| + 8
  {
    hide Encode, Stream, Scan;
    var ps := Payloads(records);
    var records' := records + [WalRecord(payload, |Stream(ps)|, |payload| + 8)];
    assert Payloads(records') == ps + [payload];
    StreamOne(payload);
    StreamSplit(ps, [payload]);
    forall i | 0 <= i < |records'|
      ensures records'[i].offset == |Stream(Payloads(records')[..i])|
      ensures records'[i].length == |records'[i].payload| + 8
    {
      if i < |records| {
        assert records'[i] == records[i];
        assert Payloads(records')[..i] == ps[..i];
      } else {
        assert Payloads(records')[..i] == ps;
      }
    }
  }

  // ---------- Torn tails, re-reading, appending ----------

  /** A proper prefix of one frame starts no frame. */
  lemma TornFrame(p: Bytes, torn: Bytes)
    requires |p| < LENGTH_LIMIT && torn < Encode(p)
    ensures FirstFrame(torn).None?
  {
    hide LengthBytes, ReadLength;
    var first := FirstFrame(torn);
    if first.Some? {
      hide FirstFrame;
      var q := first.value;
      FirstFrameIsEncoding(torn, q);
      assert torn[..4] == Encode(q)[..4] == LengthBytes(|q|);
      assert torn[..4] == Encode(p)[..4] == LengthBytes(|p|);
      LengthRoundTrip(|q|);
      LengthRoundTrip(|p|);
      assert false;
    }
  }

  /** Parsing whole records followed by a torn one yields exactly the whole records. */
  lemma TornTailRoundTrip(payloads: seq<Bytes>, next: Bytes, torn: Bytes)
    requires Encodable(payloads) && |next| < LENGTH_LIMIT && torn < Encode(next)
    ensures Scan(Stream(payloads) + torn) == payloads
  {
    TornFrame(next, torn);
    ScanOfStream(payloads, torn);
  }

  /** Truncating to the valid bytes and parsing again changes nothing. */
  lemma TruncationIsFixedPoint(buffer: Bytes)
    ensures var valid := |Stream(Scan(buffer))|;
      valid <= |buffer| && Scan(buffer[..valid]) == Scan(buffer)
  {
    hide Encode, FirstFrame, Stream, Scan;
    var ps := Scan(buffer);
    ScanTiles(buffer);
    EmptyStartsNoFrame();
    ScanOfStream(ps, []);
    assert Stream(ps) + [] == Stream(ps) == buffer[..|Stream(ps)|];
  }

  lemma EmptyStartsNoFrame()
    ensures FirstFrame([]).None?
  {}

  /** Appending one frame after the valid bytes adds exactly one record. */
  lemma AppendAddsOne(buffer: Bytes, p: Bytes)
    requires |p| < LENGTH_LIMIT
    ensures var valid := |Stream(Scan(buffer))|;
      valid <= |buffer| && Scan(buffer[..valid] + Encode(p)) == Scan(buffer) + [p]
  {
    hide Encode, FirstFrame, Stream, Scan;
    var ps := Scan(buffer);
    ScanTiles(buffer);
    EmptyStartsNoFrame();
    StreamOne(p);
    StreamSplit(ps, [p]);
    ScanOfStream(ps + [p], []);
    assert buffer[..|Stream(ps)|] + Encode(p) == Stream(ps + [p]) == Stream(ps + [p]) + [];
  }

  /** The frames of any prefix of a log are the records that lie wholly inside the prefix. */
  lemma {:induction false} ScanOfPrefix(payloads: seq<Bytes>, k: nat) returns (n: nat)
    requires Encodable(payloads) && k <= |Stream(payloads)|
    ensures n <= |payloads| && Scan(Stream(payloads)[..k]) == payloads[..n]
    ensures |Stream(payloads[..n])| <= k
    ensures n < |payloads| ==> k < |Stream(payloads[..n + 1])|
    decreases |payloads|
  {
    hide Encode, FirstFrame, Scan;
    var log := Stream(payloads);
    if |payloads| == 0 {
      n := 0;
      EmptyStartsNoFrame();
      ScanEnds(log[..k]);
    } else {
      var p := payloads[0];
      var rest := Stream(payloads[1..]);
      assert log == Encode(p) + rest;
      if k < |Encode(p)| {
        n := 0;
        assert log[..k] == Encode(p)[..k];
        TornFrame(p, log[..k]);
        ScanEnds(log[..k]);
        assert payloads[..1] == [p];
        StreamOne(p);
      } else {
        var m := ScanOfPrefix(payloads[1..], k - |Encode(p)|);
        n := m + 1;
        assert log[..k] == Encode(p) + rest[..k - |Encode(p)|];
        FirstFrameIsEncoding(log[..k], p);
        ScanOneMore(log[..k], p, rest[..k - |Encode(p)|]);
        assert payloads[..n] == [p] + payloads[1..][..m];
        StreamOne(p);
        StreamSplit([p], payloads[1..][..m]);
        if n < |payloads| {
          assert payloads[..n + 1] == [p] + payloads[1..][..m + 1];
          StreamSplit([p], payloads[1..][..m + 1]);
        }
      }
    }
  }

  lemma ScanOneMore(buffer: Bytes, p: Bytes, rest: Bytes)
    requires FirstFrame(buffer) == Some(p) && |p| < LENGTH_LIMIT && buffer == Encode(p) + rest
    ensures Scan(buffer) == [p] + Scan(rest)
  {
    hide FirstFrame, Encode;
    assert buffer[|p| + 8..] == rest;
  }

  /**
    A record whose stored payload took a change confined to 4 consecutive bytes
    stops the parse there, whatever follows it.
  */
  lemma BurstStopsParse(before: seq<Bytes>, p: Bytes, q: Bytes, at: nat, after: Bytes)
    requires Encodable(before) && |p| < LENGTH_LIMIT
    requires |p| == |q| && p != q
    requires forall i :: 0 <= i < |p| && !(at <= i < at + 4) ==> p[i] == q[i]
    ensures Scan(Stream(before) + LengthBytes(|p|) + q + CrcBytes(Checksum(p)) + after) == before
  {
    hide LengthBytes, ReadLength, CrcBytes, ReadCrc, Checksum, Stream, Scan;
    var damaged := LengthBytes(|p|) + q + CrcBytes(Checksum(p)) + after;
    BurstDetected(p, q, at);
    LengthRoundTrip(|p|);
    CrcRoundTrip(Checksum(p));
    assert damaged[..4] == LengthBytes(|p|);
    assert damaged[4..|p| + 4] == q;
    assert damaged[|p| + 4..|p| + 8] == CrcBytes(Checksum(p));
    ScanOfStream(before, damaged);
    assert Stream(before) + LengthBytes(|p|) + q + CrcBytes(Checksum(p)) + after == Stream(before) + damaged;
  }
}
