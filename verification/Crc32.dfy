// setup/lib/teams-manifest.ts: the table-driven CRC-32 of the PNG encoder.
//
// A 32-bit word is its bits, lowest first. The reference is the CRC of section 3.4 of RFC 2083 taken
// bit by bit: the register starts at all ones, message bits enter lowest first, each step divides by
// the generator polynomial, and the result is the complement.
module Crc32 {

  type byte = x: int | 0 <= x < 256

  type Word = w: seq<bool> | |w| == 32 witness Bits(0, 32)

  const ONES: Word := Bits(0xffff_ffff, 32)

  function Bits(n: nat, k: nat): (s: seq<bool>)
    ensures |s| == k
    decreases k, n
  {
    if k == 0 then [] else [n % 2 == 1] + Bits(n / 2, k - 1)
  }

  function NumberOf(s: seq<bool>): (n: nat)
    ensures n < Pow2(|s|)
  {
    if s == [] then 0 else (if s[0] then 1 else 0) + 2 * NumberOf(s[1..])
  }

  function Pow2(k: nat): (p: nat)
    ensures p > 0
  {
    if k == 0 then 1 else 2 * Pow2(k - 1)
  }

  function Xor(a: Word, b: Word): Word { seq(32, i requires 0 <= i < 32 => a[i] != b[i]) }

  function ShiftRight(a: Word, n: nat): Word { seq(32, i requires 0 <= i < 32 => i + n < 32 && a[i + n]) }

  // x^32+x^26+x^23+x^22+x^16+x^12+x^11+x^10+x^8+x^7+x^5+x^4+x^2+x+1 without its leading term.
  predicate Generator(degree: int) {
    degree == 26 || degree == 23 || degree == 22 || degree == 16 || degree == 12 || degree == 11 || degree == 10
    || degree == 8 || degree == 7 || degree == 5 || degree == 4 || degree == 2 || degree == 1 || degree == 0
  }

  function Poly(): Word { seq(32, i requires 0 <= i < 32 => Generator(31 - i)) }

  // c & 1 ? 0xedb88320 ^ (c >>> 1) : c >>> 1
  function Shift(c: Word): Word { if c[0] then Xor(Poly(), ShiftRight(c, 1)) else ShiftRight(c, 1) }

  function Shifts(c: Word, k: nat): Word
    decreases k, c
  {
    if k == 0 then c else Shifts(Shift(c), k - 1)
  }

  // ---------------------------------------------------------------- the bit-serial reference

  // The message bit is added to the term of highest degree, which decides the division step.
  function BitStep(c: Word, bit: bool): Word {
    seq(32, i requires 0 <= i < 32 => (i < 31 && c[i + 1]) != ((c[0] != bit) && Generator(31 - i)))
  }

  function Serial(c: Word, bits: seq<bool>): Word
    decreases |bits|
  {
    if bits == [] then c else Serial(BitStep(c, bits[0]), bits[1..])
  }

  function MessageBits(data: seq<byte>): seq<bool> {
    if data == [] then [] else Bits(data[0], 8) + MessageBits(data[1..])
  }

  function Crc32Of(data: seq<byte>): nat {
    NumberOf(Xor(Serial(ONES, MessageBits(data)), ONES))
  }

  // ---------------------------------------------------------------- numbers and words

  lemma {:induction false} BitsOfNumber(s: seq<bool>)
    ensures Bits(NumberOf(s), |s|) == s
  {
    if s != [] {
      BitsOfNumber(s[1..]);
      var n := NumberOf(s[1..]);
      assert NumberOf(s) / 2 == n && (NumberOf(s) % 2 == 1 <==> s[0]);
    }
  }

  lemma {:induction false} NumberOfBits(n: nat, k: nat)
    requires n < Pow2(k)
    ensures NumberOf(Bits(n, k)) == n
    decreases k
  {
    if k > 0 {
      NumberOfBits(n / 2, k - 1);
      assert Bits(n, k)[1..] == Bits(n / 2, k - 1);
    }
  }

  // A small number's word: its low bits, then zeros.
  lemma {:induction false} BitsOfSmall(n: nat, k: nat, m: nat)
    requires k <= m && n < Pow2(k)
    ensures Bits(n, m)[..k] == Bits(n, k)
    ensures forall i :: k <= i < m ==> !Bits(n, m)[i]
    decreases m
  {
    if k > 0 {
      BitsOfSmall(n / 2, k - 1, m - 1);
      assert Bits(n, m)[..k] == [n % 2 == 1] + Bits(n / 2, m - 1)[..k - 1];
      forall i | k <= i < m
        ensures !Bits(n, m)[i]
      {
        assert Bits(n, m)[i] == Bits(n / 2, m - 1)[i - 1];
      }
    } else if m > 0 {
      BitsOfSmall(0, 0, m - 1);
      forall i | 0 <= i < m
        ensures !Bits(0, m)[i]
      {
        if i > 0 { assert Bits(0, m)[i] == Bits(0, m - 1)[i - 1]; }
      }
    }
  }

  lemma ByteRange()
    ensures Pow2(8) == 256 && Pow2(32) == 0x1_0000_0000
  {
    assert Pow2(8) == 256;
    assert Pow2(16) == 256 * Pow2(8);
    assert Pow2(24) == 256 * Pow2(16);
    assert Pow2(32) == 256 * Pow2(24);
  }

  lemma Nibble(s: seq<bool>, i: nat, rest: nat)
    requires i + 4 <= |s| && NumberOf(s[i + 4..]) == rest
    ensures NumberOf(s[i..]) == (if s[i] then 1 else 0) + (if s[i + 1] then 2 else 0) + (if s[i + 2] then 4 else 0)
                                + (if s[i + 3] then 8 else 0) + 16 * rest
  {
    assert s[i + 3..][1..] == s[i + 4..];
    assert NumberOf(s[i + 3..]) == (if s[i + 3] then 1 else 0) + 2 * rest;
    assert s[i + 2..][1..] == s[i + 3..];
    assert NumberOf(s[i + 2..]) == (if s[i + 2] then 1 else 0) + 2 * NumberOf(s[i + 3..]);
    assert s[i + 1..][1..] == s[i + 2..];
    assert NumberOf(s[i + 1..]) == (if s[i + 1] then 1 else 0) + 2 * NumberOf(s[i + 2..]);
    assert s[i..][1..] == s[i + 1..];
  }

  lemma PolyUpperHalf(p: Word)
    requires p == Poly()
    ensures NumberOf(p[16..]) == 0xedb8
  {
    assert p[32..] == [];
    Nibble(p, 28, 0);
    Nibble(p, 24, 0xe);
    Nibble(p, 20, 0xed);
    Nibble(p, 16, 0xedb);
  }

  lemma PolyLowerHalf(p: Word)
    requires p == Poly() && NumberOf(p[16..]) == 0xedb8
    ensures NumberOf(p[8..]) == 0xed_b883
  {
    Nibble(p, 12, 0xedb8);
    Nibble(p, 8, 0xe_db88);
  }

  lemma PolyLowestByte(p: Word)
    requires p == Poly() && NumberOf(p[8..]) == 0xed_b883
    ensures NumberOf(p[0..]) == 0xedb8_8320
  {
    Nibble(p, 4, 0xed_b883);
    Nibble(p, 0, 0xedb_8832);
  }

  // The program's constant 0xedb88320 is the generator, the coefficient of x^31 in the low bit.
  lemma PolyIsTheConstant()
    ensures NumberOf(Poly()) == 0xedb8_8320
  {
    var p := Poly();
    PolyUpperHalf(p);
    PolyLowerHalf(p);
    PolyLowestByte(p);
    assert p[0..] == p;
  }

  lemma {:induction false} AllOnes(k: nat, i: nat)
    requires i < k
    ensures Bits(Pow2(k) - 1, k)[i]
    decreases k
  {
    assert (Pow2(k) - 1) / 2 == Pow2(k - 1) - 1 && (Pow2(k) - 1) % 2 == 1;
    if i > 0 { AllOnes(k - 1, i - 1); }
  }

  // The register starts at, and the result is added to, a word of 32 ones.
  lemma OnesAreOnes(i: nat)
    requires i < 32
    ensures ONES[i]
  {
    ByteRange();
    AllOnes(32, i);
  }

  // ---------------------------------------------------------------- linearity

  lemma ShiftAt(c: Word, i: nat)
    requires i < 32
    ensures Shift(c)[i] == ((i < 31 && c[i + 1]) != (c[0] && Generator(31 - i)))
  {
  }

  lemma ShiftLinear(a: Word, b: Word)
    ensures Shift(Xor(a, b)) == Xor(Shift(a), Shift(b))
  {
    forall i | 0 <= i < 32
      ensures Shift(Xor(a, b))[i] == Xor(Shift(a), Shift(b))[i]
    {
      ShiftAt(a, i);
      ShiftAt(b, i);
      ShiftAt(Xor(a, b), i);
    }
  }

  lemma {:induction false} ShiftsLinear(a: Word, b: Word, k: nat)
    ensures Shifts(Xor(a, b), k) == Xor(Shifts(a, k), Shifts(b, k))
    decreases k
  {
    if k > 0 {
      ShiftLinear(a, b);
      ShiftsLinear(Shift(a), Shift(b), k - 1);
    }
  }

  // Words whose low k bits are zero are only moved.
  lemma {:induction false} ZerosOnlyMove(c: Word, k: nat)
    requires forall i :: 0 <= i < k && i < 32 ==> !c[i]
    ensures Shifts(c, k) == ShiftRight(c, k)
    decreases k
  {
    if k == 0 {
      assert ShiftRight(c, 0) == c;
    } else {
      assert Shift(c) == ShiftRight(c, 1);
      ZerosOnlyMove(Shift(c), k - 1);
      assert ShiftRight(ShiftRight(c, 1), k - 1) == ShiftRight(c, k);
    }
  }

  // The low byte, (c & 0xff) as a table index.
  function LowByte(c: Word): byte {
    assert Pow2(8) == 256;
    NumberOf(c[..8])
  }

  function Entry(n: byte): Word { Shifts(Bits(n, 32), 8) }

  // A word is its low byte's word plus the rest.
  lemma LowAndHigh(c: Word) returns (high: Word)
    ensures Xor(Bits(LowByte(c), 32), high) == c
    ensures (forall i :: 0 <= i < 8 ==> !high[i]) && ShiftRight(high, 8) == ShiftRight(c, 8)
  {
    ByteRange();
    var low: Word := Bits(LowByte(c), 32);
    BitsOfSmall(LowByte(c), 8, 32);
    BitsOfNumber(c[..8]);
    high := seq(32, i requires 0 <= i < 32 => i >= 8 && c[i]);
    forall i | 0 <= i < 32
      ensures Xor(low, high)[i] == c[i]
    {
      if i < 8 {
        assert low[..8][i] == c[..8][i];
        assert low[i] == c[i];
      } else {
        assert !low[i];
      }
    }
    assert Xor(low, high) == c;
    assert ShiftRight(high, 8) == ShiftRight(c, 8);
  }

  // Eight shifts of a word: the table entry of its low byte, plus its upper part moved.
  lemma EightShifts(c: Word)
    ensures Shifts(c, 8) == Xor(Entry(LowByte(c)), ShiftRight(c, 8))
  {
    var high := LowAndHigh(c);
    ShiftsLinear(Bits(LowByte(c), 32), high, 8);
    ZerosOnlyMove(high, 8);
  }

  // ---------------------------------------------------------------- one byte at a time

  function Pad(bits: seq<bool>): Word { seq(32, i requires 0 <= i < 32 => i < |bits| && bits[i]) }

  lemma SerialStepAt(c: Word, bits: seq<bool>, i: nat)
    requires 0 < |bits| <= 32 && i < 32
    ensures Shift(Xor(c, Pad(bits)))[i] == Xor(BitStep(c, bits[0]), Pad(bits[1..]))[i]
  {
    var x := Xor(c, Pad(bits));
    ShiftAt(x, i);
    assert x[0] == (c[0] != bits[0]);
    assert BitStep(c, bits[0])[i] == ((i < 31 && c[i + 1]) != ((c[0] != bits[0]) && Generator(31 - i)));
    if i < 31 { assert x[i + 1] == (c[i + 1] != Pad(bits[1..])[i]); }
  }

  lemma SerialStep(c: Word, bits: seq<bool>)
    requires 0 < |bits| <= 32
    ensures Shift(Xor(c, Pad(bits))) == Xor(BitStep(c, bits[0]), Pad(bits[1..]))
  {
    forall i | 0 <= i < 32
      ensures Shift(Xor(c, Pad(bits)))[i] == Xor(BitStep(c, bits[0]), Pad(bits[1..]))[i]
    {
      SerialStepAt(c, bits, i);
    }
  }

  // Adding the message bits before shifting is the same as adding each when its turn comes.
  lemma {:induction false} SerialIsShifts(c: Word, bits: seq<bool>)
    requires |bits| <= 32
    ensures Serial(c, bits) == Shifts(Xor(c, Pad(bits)), |bits|)
    decreases |bits|
  {
    if bits == [] {
      assert Xor(c, Pad([])) == c;
    } else {
      SerialStep(c, bits);
      SerialIsShifts(BitStep(c, bits[0]), bits[1..]);
    }
  }

  lemma {:induction false} SerialAppend(c: Word, a: seq<bool>, b: seq<bool>)
    ensures Serial(c, a + b) == Serial(Serial(c, a), b)
    decreases |a|
  {
    if a == [] {
      assert a + b == b;
    } else {
      assert (a + b)[1..] == a[1..] + b;
      SerialAppend(BitStep(c, a[0]), a[1..], b);
    }
  }

  // CRC_TABLE[(c ^ b) & 0xff] ^ (c >>> 8)
  function TableStep(c: Word, b: byte): Word { Xor(Entry(LowByte(Xor(c, Bits(b, 32)))), ShiftRight(c, 8)) }

  lemma PadByte(b: byte)
    ensures Pad(Bits(b, 8)) == Bits(b, 32)
    ensures forall i :: 8 <= i < 32 ==> !Bits(b, 32)[i]
  {
    ByteRange();
    BitsOfSmall(b, 8, 32);
    forall i | 0 <= i < 32
      ensures Pad(Bits(b, 8))[i] == Bits(b, 32)[i]
    {
      if i < 8 { assert Bits(b, 32)[..8][i] == Bits(b, 8)[i]; }
    }
  }

  lemma UpperPart(c: Word, b: byte)
    ensures ShiftRight(Xor(c, Bits(b, 32)), 8) == ShiftRight(c, 8)
  {
    PadByte(b);
  }

  lemma TableStepIsSerial(c: Word, b: byte)
    ensures TableStep(c, b) == Serial(c, Bits(b, 8))
  {
    PadByte(b);
    UpperPart(c, b);
    SerialIsShifts(c, Bits(b, 8));
    EightShifts(Xor(c, Bits(b, 32)));
  }

  lemma {:induction false} MessageBitsAppend(data: seq<byte>, b: byte)
    ensures MessageBits(data + [b]) == MessageBits(data) + Bits(b, 8)
  {
    if data == [] {
      assert [b][1..] == [];
      assert MessageBits([b]) == Bits(b, 8) + [];
    } else {
      assert (data + [b])[1..] == data[1..] + [b];
      MessageBitsAppend(data[1..], b);
    }
  }

  // ---------------------------------------------------------------- the program's loops

  lemma OneShift(c: Word, c': Word, k: nat)
    requires k > 0 && c' == if c[0] then Xor(Poly(), ShiftRight(c, 1)) else ShiftRight(c, 1)
    ensures Shifts(c, k) == Shifts(c', k - 1)
  {
  }

  // The inner loop of the table.
  method TableEntry(n: byte) returns (c: Word)
    ensures c == Entry(n)
  {
    c := Bits(n, 32);
    ghost var entry := Entry(n);
    var k := 0;
    while k < 8
      invariant 0 <= k <= 8 && Shifts(c, 8 - k) == entry
    {
      ghost var before := c;
      c := if c[0] then Xor(Poly(), ShiftRight(c, 1)) else ShiftRight(c, 1);
      OneShift(before, c, 8 - k);
      k := k + 1;
    }
  }

  method CrcTable() returns (table: array<Word>)
    ensures fresh(table) && table.Length == 256
    ensures forall n :: 0 <= n < 256 ==> table[n] == Entry(n)
  {
    table := new Word[256];
    for n := 0 to 256
      invariant forall j :: 0 <= j < n ==> table[j] == Entry(j)
    {
      ghost var before := table[..];
      var c := TableEntry(n);
      table[n] := c;
      forall j | 0 <= j < n + 1
        ensures table[j] == Entry(j)
      {
        if j < n { assert table[j] == before[j]; }
      }
    }
  }

  lemma NextByte(start: Word, before: seq<byte>, b: byte, c: Word)
    requires c == Serial(start, MessageBits(before))
    ensures TableStep(c, b) == Serial(start, MessageBits(before + [b]))
  {
    MessageBitsAppend(before, b);
    SerialAppend(start, MessageBits(before), Bits(b, 8));
    TableStepIsSerial(c, b);
  }

  // The table-driven loop computes the bit-serial CRC of every byte sequence.
  method ComputeCrc(table: array<Word>, buf: seq<byte>) returns (crc: nat)
    requires table.Length == 256 && forall n :: 0 <= n < 256 ==> table[n] == Entry(n)
    ensures crc == Crc32Of(buf) && crc < 0x1_0000_0000
  {
    var c: Word := ONES;
    for i := 0 to |buf|
      invariant c == Serial(ONES, MessageBits(buf[..i]))
    {
      NextByte(ONES, buf[..i], buf[i], c);
      assert buf[..i + 1] == buf[..i] + [buf[i]];
      c := Xor(table[LowByte(Xor(c, Bits(buf[i], 32)))], ShiftRight(c, 8));
    }
    assert buf[..|buf|] == buf;
    CrcRange(buf);
    crc := NumberOf(Xor(c, ONES));
  }

  lemma CrcRange(data: seq<byte>)
    ensures Crc32Of(data) < 0x1_0000_0000
  {
    BitsOfNumber(Xor(Serial(ONES, MessageBits(data)), ONES));
    ByteRange();
  }
}
