/**
  CRC32C (the Castagnoli code of section 12.1 of RFC 3720) as the task-queue log
  computes it: a 256-entry table and one table step per byte.

  The reference form `Checksum` feeds the message bit by bit, least significant
  bit of each byte first, through a 32-bit shift register.  The two methods are
  proved equal to it.  The second half of the module is the burst theorem: a
  change confined to 32 consecutive bits always changes the checksum.

  Bit-vector facts and inductive arguments are kept apart: the lemmas of section
  "Register algebra" see the bits, every later lemma hides the bit-level bodies
  and uses only those lemmas.
*/
module Crc32c {

  type Byte = bv8
  type Register = bv32

  const POLYNOMIAL: Register := 0x82f63b78
  const ALL_ONES: Register := 0xffffffff

  // ---------- Reference form: one bit at a time ----------

  function Xor(a: Register, b: Register): Register { a ^ b }

  function Bit(b: bool): Register { if b then 1 else 0 }

  /** Multiply by x modulo the polynomial, in the reflected bit order. */
  function Shift(x: Register): Register {
    if x & 1 != 0 then (x >> 1) ^ POLYNOMIAL else x >> 1
  }

  function ShiftN(x: Register, n: nat): Register
    decreases n
  {
    if n == 0 then x else ShiftN(Shift(x), n - 1)
  }

  function Feed(r: Register, bits: seq<bool>): Register
    decreases |bits|
  {
    if |bits| == 0 then r else Feed(Shift(Xor(r, Bit(bits[0]))), bits[1..])
  }

  /** The bits of a byte, least significant first. */
  function ByteBits(b: Byte): seq<bool> {
    [b & 1 != 0, b & 2 != 0, b & 4 != 0, b & 8 != 0,
     b & 16 != 0, b & 32 != 0, b & 64 != 0, b & 128 != 0]
  }

  function MessageBits(bytes: seq<Byte>): seq<bool> {
    if |bytes| == 0 then [] else ByteBits(bytes[0]) + MessageBits(bytes[1..])
  }

  function Checksum(bytes: seq<Byte>): Register {
    Xor(Feed(ALL_ONES, MessageBits(bytes)), ALL_ONES)
  }

  // ---------- Register algebra (bit level) ----------

  lemma XorCommutes(a: Register, b: Register)
    ensures Xor(a, b) == Xor(b, a)
  {}

  lemma XorAssociates(a: Register, b: Register, c: Register)
    ensures Xor(Xor(a, b), c) == Xor(a, Xor(b, c))
  {}

  lemma XorExchanges(a: Register, b: Register, c: Register, d: Register)
    ensures Xor(Xor(a, b), Xor(c, d)) == Xor(Xor(a, c), Xor(b, d))
  {
    hide Xor;
    XorAssociates(a, b, Xor(c, d));
    XorAssociates(b, c, d);
    XorCommutes(b, c);
    XorAssociates(c, b, d);
    XorAssociates(a, c, Xor(b, d));
  }

  lemma XorZero(a: Register)
    ensures Xor(a, 0) == a
  {}

  lemma XorCancels(a: Register, b: Register)
    ensures Xor(a, b) == 0 <==> a == b
  {
    XorSelf(a);
    hide Xor;
    XorAssociates(a, a, b);
    XorZero(a);
    XorZero(b);
    XorCommutes(0, b);
  }

  lemma XorSelf(a: Register)
    ensures Xor(a, a) == 0
  {}

  lemma XorOfBits(a: bool, b: bool)
    ensures Xor(Bit(a), Bit(b)) == Bit(a != b)
  {}

  lemma ShiftXorBothEven(x: Register, y: Register)
    requires x & 1 == 0 && y & 1 == 0
    ensures Shift(Xor(x, y)) == Xor(Shift(x), Shift(y))
  {}

  lemma ShiftXorOneOdd(x: Register, y: Register)
    requires x & 1 == 0 && y & 1 != 0
    ensures Shift(Xor(x, y)) == Xor(Shift(x), Shift(y))
  {}

  lemma ShiftXorBothOdd(x: Register, y: Register)
    requires x & 1 != 0 && y & 1 != 0
    ensures Shift(Xor(x, y)) == Xor(Shift(x), Shift(y))
  {}

  /** The shift register is linear over exclusive or. */
  lemma ShiftXor(x: Register, y: Register)
    ensures Shift(Xor(x, y)) == Xor(Shift(x), Shift(y))
  {
    hide Shift, Xor;
    XorCommutes(x, y);
    XorCommutes(Shift(x), Shift(y));
    if x & 1 == 0 {
      if y & 1 == 0 { ShiftXorBothEven(x, y); } else { ShiftXorOneOdd(x, y); }
    } else {
      if y & 1 == 0 { ShiftXorOneOdd(y, x); } else { ShiftXorBothOdd(x, y); }
    }
  }

  lemma ShiftOfEven(x: Register)
    requires x & 1 == 0
    ensures Shift(x) == x >> 1
  {}

  lemma ShiftOfOdd(x: Register)
    requires x & 1 != 0
    ensures Shift(x) != 0
  {}

  lemma HalfOfEven(x: Register)
    requires x & 1 == 0 && x >> 1 == 0
    ensures x == 0
  {}

  /** The polynomial has its top coefficient set, so no nonzero register shifts to zero. */
  lemma ShiftKernel(x: Register)
    requires Shift(x) == 0
    ensures x == 0
  {
    hide Shift;
    if x & 1 == 0 { ShiftOfEven(x); HalfOfEven(x); } else { ShiftOfOdd(x); }
  }

  function Double(x: Register): Register { x << 1 }

  predicate TopClear(x: Register) { x & 0x80000000 == 0 }

  lemma ShiftOfDouble(x: Register)
    requires TopClear(x)
    ensures Shift(Double(x)) == x
  {}

  // ---------- Words of at most 32 bits ----------

  /** The register whose low bits are `w`, first bit lowest. */
  function Pack(w: seq<bool>): Register {
    if |w| == 0 then 0 else Xor(Bit(w[0]), Double(Pack(w[1..])))
  }

  function Mask(n: nat): Register {
    if n == 0 then 0 else (Mask(n - 1) << 1) | 1
  }

  lemma Mask31()
    ensures Mask(31) == 0x7fffffff
  {
    assert Mask(8) == 0xff;
    assert Mask(16) == 0xffff;
    assert Mask(24) == 0xffffff;
  }

  lemma MaskGrows(n: nat, m: nat)
    requires n <= m
    ensures Mask(n) & !Mask(m) == 0
  {
    if n > 0 { MaskGrows(n - 1, m - 1); }
  }

  lemma PackFitsStep(b: bool, p: Register, m: Register)
    requires p & !m == 0
    ensures Xor(Bit(b), Double(p)) & !((m << 1) | 1) == 0
  {}

  lemma {:induction false} PackFits(w: seq<bool>)
    ensures Pack(w) & !Mask(|w|) == 0
  {
    if |w| == 0 {
    } else {
      hide Xor, Bit, Double;
      PackFits(w[1..]);
      PackFitsStep(w[0], Pack(w[1..]), Mask(|w| - 1));
    }
  }

  lemma TopClearBelow(p: Register, m: Register)
    requires p & !m == 0 && m & !0x7fffffff == 0
    ensures TopClear(p)
  {}

  lemma PackTopClear(w: seq<bool>)
    requires |w| <= 31
    ensures TopClear(Pack(w))
  {
    hide Pack, TopClear;
    PackFits(w);
    Mask31();
    MaskGrows(|w|, 31);
    TopClearBelow(Pack(w), Mask(|w|));
  }

  lemma PackZeroStep(b: bool, p: Register)
    requires TopClear(p) && Xor(Bit(b), Double(p)) == 0
    ensures !b && p == 0
  {}

  lemma {:induction false} PackZero(w: seq<bool>, i: nat)
    requires |w| <= 32 && Pack(w) == 0 && i < |w|
    ensures !w[i]
  {
    hide Xor, Bit, Double, TopClear;
    PackTopClear(w[1..]);
    PackZeroStep(w[0], Pack(w[1..]));
    if i > 0 { PackZero(w[1..], i - 1); }
  }

  /** Feeding up to 32 bits one by one is xoring them in as a word and then shifting. */
  lemma {:induction false} FeedIsShift(r: Register, w: seq<bool>)
    requires |w| <= 32
    ensures Feed(r, w) == ShiftN(Xor(r, Pack(w)), |w|)
    decreases |w|
  {
    hide Shift, Xor, Bit, Double, TopClear;
    if |w| == 0 {
      XorZero(r);
    } else {
      var t, p := Xor(r, Bit(w[0])), Pack(w[1..]);
      PackTopClear(w[1..]);
      FeedIsShift(Shift(t), w[1..]);
      ShiftXor(t, Double(p));
      ShiftOfDouble(p);
      XorAssociates(r, Bit(w[0]), Double(p));
    }
  }

  lemma {:induction false} ShiftNXor(x: Register, y: Register, n: nat)
    ensures ShiftN(Xor(x, y), n) == Xor(ShiftN(x, n), ShiftN(y, n))
    decreases n
  {
    hide Shift, Xor;
    if n > 0 {
      ShiftXor(x, y);
      ShiftNXor(Shift(x), Shift(y), n - 1);
    }
  }

  lemma {:induction false} ShiftNKernel(x: Register, n: nat)
    requires ShiftN(x, n) == 0
    ensures x == 0
    decreases n
  {
    hide Shift;
    if n > 0 {
      ShiftNKernel(Shift(x), n - 1);
      ShiftKernel(x);
    }
  }

  // ---------- The table form ----------

  function Wide(b: Byte): Register { b as bv32 }

  function LowByte(x: Register): Byte { (x & 0xff) as bv8 }

  function HighPart(x: Register): Register { x & 0xffffff00 }

  lemma HighAndLow(x: Register)
    ensures Xor(HighPart(x), Wide(LowByte(x))) == x
  {}

  function Half(x: Register): Register { x >> 1 }

  predicate Even(x: Register) { x & 1 == 0 }

  function Half4(x: Register): Register { Half(Half(Half(Half(x)))) }

  predicate Even4(x: Register) {
    Even(x) && Even(Half(x)) && Even(Half(Half(x))) && Even(Half(Half(Half(x))))
  }

  lemma ShiftOfEvenHalves(x: Register)
    requires Even(x)
    ensures Shift(x) == Half(x)
  {}

  lemma HighPartHalves(x: Register)
    ensures var h := HighPart(x); Even4(h) && Even4(Half4(h)) && Half4(Half4(h)) == x >> 8
  {}

  lemma FourShifts(x: Register, n: nat)
    requires Even4(x)
    ensures ShiftN(x, n + 4) == ShiftN(Half4(x), n)
  {
    hide Shift, Even, Half;
    ShiftOfEvenHalves(x);
    ShiftOfEvenHalves(Half(x));
    ShiftOfEvenHalves(Half(Half(x)));
    ShiftOfEvenHalves(Half(Half(Half(x))));
    assert ShiftN(x, n + 4) == ShiftN(Half(x), n + 3);
    assert ShiftN(Half(x), n + 3) == ShiftN(Half(Half(x)), n + 2);
    assert ShiftN(Half(Half(x)), n + 2) == ShiftN(Half(Half(Half(x))), n + 1);
  }

  lemma ShiftHighPart(x: Register)
    ensures ShiftN(HighPart(x), 8) == x >> 8
  {
    hide Shift, HighPart, Half4, Even4;
    var h := HighPart(x);
    HighPartHalves(x);
    FourShifts(h, 4);
    FourShifts(Half4(h), 0);
  }

  function Word4(b0: bool, b1: bool, b2: bool, b3: bool, rest: Register): Register {
    Xor(Bit(b0), Double(Xor(Bit(b1), Double(Xor(Bit(b2), Double(Xor(Bit(b3), Double(rest))))))))
  }

  lemma PackFour(s: seq<bool>)
    requires |s| >= 4
    ensures Pack(s) == Word4(s[0], s[1], s[2], s[3], Pack(s[4..]))
  {
    hide Xor, Bit, Double;
    assert s[3..][1..] == s[4..] && s[2..][1..] == s[3..] && s[1..][1..] == s[2..];
    assert Pack(s[3..]) == Xor(Bit(s[3]), Double(Pack(s[4..])));
    assert Pack(s[2..]) == Xor(Bit(s[2]), Double(Pack(s[3..])));
    assert Pack(s[1..]) == Xor(Bit(s[1]), Double(Pack(s[2..])));
  }

  lemma WordOfByte(b: Byte)
    ensures Word4(b & 1 != 0, b & 2 != 0, b & 4 != 0, b & 8 != 0,
                  Word4(b & 16 != 0, b & 32 != 0, b & 64 != 0, b & 128 != 0, 0)) == Wide(b)
  {}

  lemma PackByteBits(b: Byte)
    ensures Pack(ByteBits(b)) == Wide(b)
  {
    hide Word4, Wide;
    var s := ByteBits(b);
    PackFour(s);
    PackFour(s[4..]);
    assert s[4..][4..] == [];
    WordOfByte(b);
  }

  lemma LowByteXor(r: Register, b: Byte)
    ensures Xor(r, Wide(b)) >> 8 == r >> 8
  {}

  /** One table step is eight bit steps. */
  lemma TableStep(r: Register, b: Byte)
    ensures var x := Xor(r, Wide(b));
      Xor(r >> 8, ShiftN(Wide(LowByte(x)), 8)) == Feed(r, ByteBits(b))
  {
    hide *;
    var x := Xor(r, Wide(b));
    LengthByteBits(b);
    FeedIsShift(r, ByteBits(b));
    PackByteBits(b);
    HighAndLow(x);
    ShiftNXor(HighPart(x), Wide(LowByte(x)), 8);
    ShiftHighPart(x);
    LowByteXor(r, b);
  }

  lemma LengthByteBits(b: Byte)
    ensures |ByteBits(b)| == 8
  {}

  ghost predicate IsTable(t: seq<Register>) {
    |t| == 256 && forall b: Byte {:trigger Wide(b)} :: t[b as int] == ShiftN(Wide(b), 8)
  }

  lemma ByteIndex(b: Byte)
    ensures 0 <= b as int < 256 && (b as int) as Byte == b
  {}

  lemma IndexByte(i: int)
    requires 0 <= i < 256
    ensures i as Register == Wide(i as Byte)
  {}

  method BuildTable() returns (table: array<Register>)
    ensures fresh(table) && IsTable(table[..])
  {
    table := new Register[256];
    var i := 0;
    while i < 256
      invariant 0 <= i <= 256
      invariant forall k :: 0 <= k < i ==> table[k] == ShiftN(Wide(k as Byte), 8)
    {
      hide Wide, ShiftN;
      IndexByte(i);
      var crc := i as Register;
      var j := 0;
      while j < 8
        invariant 0 <= j <= 8
        invariant forall k :: 0 <= k < i ==> table[k] == ShiftN(Wide(k as Byte), 8)
        invariant ShiftN(crc, 8 - j) == ShiftN(Wide(i as Byte), 8)
      {
        ShiftNUnfold(crc, 8 - j);
        crc := if crc & 1 != 0 then (crc >> 1) ^ POLYNOMIAL else crc >> 1;
        j := j + 1;
      }
      ShiftNUnfold(crc, 0);
      table[i] := crc;
      i := i + 1;
    }
    forall b: Byte
      ensures table[..][b as int] == ShiftN(Wide(b), 8)
    {
      ByteIndex(b);
      assert table[b as int] == ShiftN(Wide((b as int) as Byte), 8);
    }
  }

  lemma ShiftNUnfold(x: Register, n: nat)
    ensures n == 0 ==> ShiftN(x, n) == x
    ensures n > 0 ==> ShiftN(x, n) == ShiftN(Shift(x), n - 1)
  {
    hide Shift;
  }

  /** The table-driven loop computes the bit-by-bit checksum. */
  method TableChecksum(table: array<Register>, bytes: seq<Byte>) returns (crc: Register)
    requires IsTable(table[..])
    ensures crc == Checksum(bytes)
  {
    hide *;
    crc := ALL_ONES;
    var i := 0;
    assert MessageBits(bytes[..0]) == [] && Feed(ALL_ONES, []) == ALL_ONES by { EmptyMessage(); assert bytes[..0] == []; }
    while i < |bytes|
      invariant 0 <= i <= |bytes|
      invariant crc == Feed(ALL_ONES, MessageBits(bytes[..i]))
    {
      FeedOneByte(bytes, i);
      TableStep(crc, bytes[i]);
      var index := LowByte(Xor(crc, Wide(bytes[i])));
      ByteIndex(index);
      TableEntry(table[..], index);
      crc := Xor(crc >> 8, table[index as int]);
      i := i + 1;
    }
    assert bytes[..i] == bytes;
    ChecksumUnfold(bytes);
    crc := Xor(crc, ALL_ONES);
  }

  lemma TableEntry(t: seq<Register>, b: Byte)
    requires IsTable(t)
    ensures |t| == 256 && t[b as int] == ShiftN(Wide(b), 8)
  {
    hide ShiftN, Wide;
    ByteIndex(b);
  }

  lemma EmptyMessage()
    ensures MessageBits([]) == [] && Feed(ALL_ONES, []) == ALL_ONES
  {}

  lemma ChecksumUnfold(bytes: seq<Byte>)
    ensures Checksum(bytes) == Xor(Feed(ALL_ONES, MessageBits(bytes)), ALL_ONES)
  {
    hide Xor, Feed, MessageBits;
  }

  lemma {:induction false} MessageBitsSplit(a: seq<Byte>, b: seq<Byte>)
    ensures MessageBits(a + b) == MessageBits(a) + MessageBits(b)
    ensures |MessageBits(a)| == 8 * |a|
  {
    hide ByteBits;
    if |a| == 0 {
      assert a + b == b;
    } else {
      LengthByteBits(a[0]);
      MessageBitsSplit(a[1..], b);
      assert (a + b)[1..] == a[1..] + b;
    }
  }

  lemma {:induction false} FeedSplit(r: Register, a: seq<bool>, b: seq<bool>)
    ensures Feed(r, a + b) == Feed(Feed(r, a), b)
    decreases |a|
  {
    hide Shift, Xor, Bit;
    if |a| == 0 {
      assert a + b == b;
    } else {
      assert (a + b)[1..] == a[1..] + b;
      FeedSplit(Shift(Xor(r, Bit(a[0]))), a[1..], b);
    }
  }

  lemma FeedOneByte(bytes: seq<Byte>, i: nat)
    requires i < |bytes|
    ensures Feed(ALL_ONES, MessageBits(bytes[..i + 1]))
         == Feed(Feed(ALL_ONES, MessageBits(bytes[..i])), ByteBits(bytes[i]))
  {
    hide Feed, ByteBits;
    assert bytes[..i + 1] == bytes[..i] + [bytes[i]];
    MessageBitsSplit(bytes[..i], [bytes[i]]);
    assert MessageBits([bytes[i]]) == ByteBits(bytes[i]) + MessageBits([]) == ByteBits(bytes[i]);
    FeedSplit(ALL_ONES, MessageBits(bytes[..i]), ByteBits(bytes[i]));
  }

  // ---------- Burst detection ----------

  function Differences(a: seq<bool>, b: seq<bool>): (d: seq<bool>)
    requires |a| == |b|
    ensures |d| == |a| && forall i :: 0 <= i < |a| ==> d[i] == (a[i] != b[i])
  {
    seq(|a|, i requires 0 <= i < |a| => a[i] != b[i])
  }

  lemma {:induction false} FeedLinear(r: Register, s: Register, a: seq<bool>, b: seq<bool>)
    requires |a| == |b|
    ensures Xor(Feed(r, a), Feed(s, b)) == Feed(Xor(r, s), Differences(a, b))
    decreases |a|
  {
    hide Shift, Xor, Bit;
    if |a| > 0 {
      var x, y := Xor(r, Bit(a[0])), Xor(s, Bit(b[0]));
      FeedLinear(Shift(x), Shift(y), a[1..], b[1..]);
      assert Differences(a, b)[1..] == Differences(a[1..], b[1..]);
      ShiftXor(x, y);
      XorExchanges(r, Bit(a[0]), s, Bit(b[0]));
      XorOfBits(a[0], b[0]);
    }
  }

  /** From one register, two words of at most 32 bits lead to one register only if they are equal. */
  lemma FeedWordInjective(r: Register, a: seq<bool>, b: seq<bool>)
    requires |a| == |b| <= 32 && Feed(r, a) == Feed(r, b)
    ensures a == b
  {
    hide Feed, Xor, Pack;
    var d := Differences(a, b);
    FeedLinear(r, r, a, b);
    XorCancels(r, r);
    XorCancels(Feed(r, a), Feed(r, b));
    FeedIsShift(0, d);
    ShiftNKernel(Xor(0, Pack(d)), |d|);
    XorCancels(0, Pack(d));
    forall i | 0 <= i < |a|
      ensures a[i] == b[i]
    {
      PackZero(d, i);
    }
  }

  /** Different registers stay different when they are fed the same bits. */
  lemma {:induction false} FeedRegisterInjective(r: Register, s: Register, bits: seq<bool>)
    requires Feed(r, bits) == Feed(s, bits)
    ensures r == s
    decreases |bits|
  {
    hide Shift, Xor, Bit;
    if |bits| > 0 {
      var b := Bit(bits[0]);
      FeedRegisterInjective(Shift(Xor(r, b)), Shift(Xor(s, b)), bits[1..]);
      ShiftXor(Xor(r, b), Xor(s, b));
      XorCancels(Shift(Xor(r, b)), Shift(Xor(s, b)));
      ShiftKernel(Xor(Xor(r, b), Xor(s, b)));
      XorExchanges(r, b, s, b);
      XorCancels(b, b);
      XorZero(Xor(r, s));
      XorCancels(r, s);
    }
  }

  /** Two bit strings that agree outside 32 consecutive places and are not equal never meet again. */
  lemma BurstOfBits(r: Register, before: seq<bool>, a: seq<bool>, b: seq<bool>, after: seq<bool>)
    requires |a| == |b| <= 32 && a != b
    ensures Feed(r, before + a + after) != Feed(r, before + b + after)
  {
    hide Feed;
    FeedSplit(r, before + a, after);
    FeedSplit(r, before + b, after);
    FeedSplit(r, before, a);
    FeedSplit(r, before, b);
    if Feed(r, before + a + after) == Feed(r, before + b + after) {
      FeedRegisterInjective(Feed(r, before + a), Feed(r, before + b), after);
      FeedWordInjective(Feed(r, before), a, b);
    }
  }

  lemma ByteBitsInjective(a: Byte, b: Byte)
    requires ByteBits(a) == ByteBits(b)
    ensures a == b
  {
    PackByteBits(a);
    PackByteBits(b);
    hide ByteBits, Pack;
  }

  lemma {:induction false} MessageBitsInjective(a: seq<Byte>, b: seq<Byte>)
    requires |a| == |b| && MessageBits(a) == MessageBits(b)
    ensures a == b
  {
    hide ByteBits;
    if |a| > 0 {
      LengthByteBits(a[0]);
      LengthByteBits(b[0]);
      var x, y := MessageBits(a), MessageBits(b);
      assert x[..8] == ByteBits(a[0]) && x[8..] == MessageBits(a[1..]);
      assert y[..8] == ByteBits(b[0]) && y[8..] == MessageBits(b[1..]);
      ByteBitsInjective(a[0], b[0]);
      MessageBitsInjective(a[1..], b[1..]);
    }
  }

  /**
    Two different messages of one length that agree outside 4 consecutive bytes
    have different checksums.
  */
  lemma BurstDetected(p: seq<Byte>, q: seq<Byte>, at: nat)
    requires |p| == |q| && p != q
    requires forall i :: 0 <= i < |p| && !(at <= i < at + 4) ==> p[i] == q[i]
    ensures Checksum(p) != Checksum(q)
  {
    hide Checksum, Feed, MessageBits, Xor;
    assert exists i :: 0 <= i < |p| && p[i] != q[i];
    var end := if at + 4 <= |p| then at + 4 else |p|;
    assert p == p[..at] + p[at..end] + p[end..] && q == p[..at] + q[at..end] + p[end..];
    var before, after := MessageBits(p[..at]), MessageBits(p[end..]);
    var a, b := MessageBits(p[at..end]), MessageBits(q[at..end]);
    MessageBitsSplit(p[..at] + p[at..end], p[end..]);
    MessageBitsSplit(p[..at], p[at..end]);
    MessageBitsSplit(p[..at] + q[at..end], p[end..]);
    MessageBitsSplit(p[..at], q[at..end]);
    MessageBitsSplit(p[at..end], []);
    MessageBitsSplit(q[at..end], []);
    if a == b {
      MessageBitsInjective(p[at..end], q[at..end]);
      assert false;
    }
    BurstOfBits(ALL_ONES, before, a, b, after);
    ChecksumUnfold(p);
    ChecksumUnfold(q);
    XorExchanges(Feed(ALL_ONES, MessageBits(p)), ALL_ONES, Feed(ALL_ONES, MessageBits(q)), ALL_ONES);
    XorCancels(ALL_ONES, ALL_ONES);
    XorZero(Xor(Feed(ALL_ONES, MessageBits(p)), Feed(ALL_ONES, MessageBits(q))));
    XorCancels(Feed(ALL_ONES, MessageBits(p)), Feed(ALL_ONES, MessageBits(q)));
    XorCancels(Checksum(p), Checksum(q));
  }
}
