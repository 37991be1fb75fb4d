/** CRC-32 (section 8 of RFC 1952), the checksum of Go's hash/crc32 with the IEEE polynomial. */
module Crc32 {
  import opened Bytes
  import opened Varint
  import opened Words

  function Shift(c: bv32): bv32 {
    if c & 1 == 1 then (c >> 1) ^ 0xEDB8_8320 else c >> 1
  }

  function Eight(c: bv32): bv32 {
    Shift(Shift(Shift(Shift(Shift(Shift(Shift(Shift(c))))))))
  }

  /** The byte as a word. */
  function ByteWord(b: byte): bv32 {
    LowByte(Word(b)) as bv32
  }

  function Xor(c: bv32, d: bv32): bv32 {
    c ^ d
  }

  function Step(c: bv32, b: byte): bv32 {
    Eight(Xor(c, ByteWord(b)))
  }

  function Fold(c: bv32, data: Str): bv32
    decreases |data|
  {
    if data == [] then c else Fold(Step(c, data[0]), data[1..])
  }

  /** crc32.Update: the checksum of what `crc` covers followed by `data`. */
  function Update(crc: bv32, data: Str): bv32 {
    Invert(Fold(Invert(crc), data))
  }

  function Invert(c: bv32): bv32 {
    c ^ 0xFFFF_FFFF
  }

  lemma InvertTwice(c: bv32)
    ensures Invert(Invert(c)) == c
  {
  }

  /** crc32.ChecksumIEEE. */
  function Checksum(data: Str): bv32 {
    Update(0, data)
  }

  function Wide(c: bv32): bv64 {
    c as bv64
  }

  /** The number a checksum stands for. */
  function Number(c: bv32): (n: nat)
    ensures n < TWO_32
  {
    NumberBound(c);
    Val(Wide(c))
  }

  lemma NumberBound(c: bv32)
    ensures Val(Wide(c)) < TWO_32
  {
    hide Val, Wide, AboveByte, LowByte;
    var x := Wide(c);
    ByteOfVal(x);
    ByteOfVal(AboveByte(x));
    ByteOfVal(AboveByte(AboveByte(x)));
    ByteOfVal(AboveByte(AboveByte(AboveByte(x))));
    NothingAbove(c);
    ZeroVal();
  }

  lemma NothingAbove(c: bv32)
    ensures AboveByte(AboveByte(AboveByte(AboveByte(Wide(c))))) == 0
  {
  }

  /** The checksum as the number that PutUint32 stores. */
  function ChecksumNumber(data: Str): (n: nat)
    ensures n < TWO_32
  {
    Number(Checksum(data))
  }

  lemma {:induction false} FoldAppend(c: bv32, a: Str, b: Str)
    ensures Fold(c, a + b) == Fold(Fold(c, a), b)
    decreases |a|
  {
    hide Step;
    if a == [] {
      assert a + b == b;
    } else {
      FoldAppend(Step(c, a[0]), a[1..], b);
      assert (a + b)[1..] == a[1..] + b;
    }
  }

  /** A running checksum updated piece by piece is the checksum of the whole. */
  lemma UpdateAppend(a: Str, b: Str)
    ensures Update(Checksum(a), b) == Checksum(a + b)
  {
    hide Fold, Invert;
    InvertTwice(Fold(Invert(0), a));
    FoldAppend(Invert(0), a, b);
  }

  // ----- a changed byte changes the checksum -----

  lemma ShiftInjective(a: bv32, b: bv32)
    requires Shift(a) == Shift(b)
    ensures a == b
  {
  }

  lemma EightInjective(a: bv32, b: bv32)
    requires Eight(a) == Eight(b)
    ensures a == b
  {
    hide Shift;
    var a2, b2 := Shift(Shift(a)), Shift(Shift(b));
    var a4, b4 := Shift(Shift(a2)), Shift(Shift(b2));
    var a6, b6 := Shift(Shift(a4)), Shift(Shift(b4));
    ShiftInjective(Shift(a6), Shift(b6));
    ShiftInjective(a6, b6);
    ShiftInjective(Shift(a4), Shift(b4));
    ShiftInjective(a4, b4);
    ShiftInjective(Shift(a2), Shift(b2));
    ShiftInjective(a2, b2);
    ShiftInjective(Shift(a), Shift(b));
    ShiftInjective(a, b);
  }

  lemma SameXor(c: bv32, d: bv32, w: bv32)
    requires Xor(c, w) == Xor(d, w)
    ensures c == d
  {
  }

  lemma {:induction false} FoldInjective(c: bv32, d: bv32, data: Str)
    requires Fold(c, data) == Fold(d, data)
    ensures c == d
    decreases |data|
  {
    hide Eight, ByteWord, Xor;
    if data != [] {
      FoldInjective(Step(c, data[0]), Step(d, data[0]), data[1..]);
      EightInjective(Xor(c, ByteWord(data[0])), Xor(d, ByteWord(data[0])));
      SameXor(c, d, ByteWord(data[0]));
    }
  }

  lemma XorBack(c: bv32, v: bv32, w: bv32)
    requires Xor(c, v) == Xor(c, w)
    ensures v == w
  {
  }

  lemma NarrowSame(x: bv64, y: bv64)
    requires LowByte(x) as bv32 == LowByte(y) as bv32
    ensures LowByte(x) == LowByte(y)
  {
  }

  /** Different bytes are different words. */
  lemma ByteWordInjective(b: byte, c: byte)
    requires ByteWord(b) == ByteWord(c)
    ensures b == c
  {
    hide Val, Word;
    NarrowSame(Word(b), Word(c));
    ByteOfVal(Word(b));
    ByteOfVal(Word(c));
    ValOfWord(b);
    ValOfWord(c);
  }

  lemma StepTells(c: bv32, b: byte, d: byte)
    requires Step(c, b) == Step(c, d)
    ensures b == d
  {
    hide Eight, ByteWord, Xor;
    EightInjective(Xor(c, ByteWord(b)), Xor(c, ByteWord(d)));
    XorBack(c, ByteWord(b), ByteWord(d));
    ByteWordInjective(b, d);
  }

  /** Strings that differ in one byte have different checksums. */
  lemma OneByteTells(p: Str, b: byte, c: byte, s: Str)
    requires b != c
    ensures Checksum(p + [b] + s) != Checksum(p + [c] + s)
    ensures ChecksumNumber(p + [b] + s) != ChecksumNumber(p + [c] + s)
  {
    hide Step, Fold, Invert, Number;
    if Checksum(p + [b] + s) == Checksum(p + [c] + s) {
      var f := Fold(Invert(0), p);
      InvertTwice(Fold(Invert(0), p + [b] + s));
      InvertTwice(Fold(Invert(0), p + [c] + s));
      FoldOneBetween(Invert(0), p, b, s);
      FoldOneBetween(Invert(0), p, c, s);
      FoldInjective(Step(f, b), Step(f, c), s);
      StepTells(f, b, c);
    }
    NumberTells(Checksum(p + [b] + s), Checksum(p + [c] + s));
  }

  lemma FoldOneBetween(c: bv32, p: Str, b: byte, s: Str)
    ensures Fold(c, p + [b] + s) == Fold(Step(Fold(c, p), b), s)
  {
    hide Step;
    FoldAppend(c, p + [b], s);
    FoldAppend(c, p, [b]);
    FoldOne(Fold(c, p), b);
  }

  lemma FoldOne(c: bv32, b: byte)
    ensures Fold(c, [b]) == Step(c, b)
  {
    hide Step;
    assert [b][1..] == [];
  }

  lemma NumberTells(c: bv32, d: bv32)
    ensures Number(c) == Number(d) ==> c == d
  {
    hide Val, Word, Wide;
    WordOfVal(Wide(c));
    WordOfVal(Wide(d));
    WidenSame(c, d);
  }

  lemma WidenSame(c: bv32, d: bv32)
    ensures Wide(c) == Wide(d) ==> c == d
  {
  }

  /** The strings differ in exactly one byte. */
  ghost predicate OneOff(a: Str, b: Str) {
    |a| == |b| && exists i :: 0 <= i < |a| && a[i] != b[i] && b == a[i := b[i]]
  }

  lemma OneOffTells(a: Str, b: Str)
    requires OneOff(a, b)
    ensures ChecksumNumber(a) != ChecksumNumber(b)
  {
    hide ChecksumNumber;
    var i :| 0 <= i < |a| && a[i] != b[i] && b == a[i := b[i]];
    assert a == a[..i] + [a[i]] + a[i + 1..];
    assert b == a[..i] + [b[i]] + a[i + 1..];
    OneByteTells(a[..i], a[i], b[i], a[i + 1..]);
  }

  lemma OneOffInside(p: Str, a: Str, b: Str, s: Str)
    requires OneOff(a, b)
    ensures OneOff(p + a + s, p + b + s)
  {
    var i :| 0 <= i < |a| && a[i] != b[i] && b == a[i := b[i]];
    var x, y, j := p + a + s, p + b + s, |p| + i;
    assert x[j] == a[i] && y[j] == b[i];
    assert y == x[j := y[j]];
  }

  // ----- the checksum behind the data -----

  function Low8(c: bv32): bv32 {
    c & 0xFF
  }

  function Above8(c: bv32): bv32 {
    c >> 8
  }

  /** Each byte PutUint32 stores is the lowest byte of what is left of the checksum. */
  lemma ByteOfNumber(c: bv32)
    ensures ByteWord(Number(c) % 256) == Low8(c) && Number(c) / 256 == Number(Above8(c))
  {
    hide Val, Word, LowByte, AboveByte, Wide, Low8, Above8;
    ByteOfVal(Wide(c));
    WordOfVal(LowByte(Wide(c)));
    Narrowed(c);
  }

  lemma Narrowed(c: bv32)
    ensures LowByte(LowByte(Wide(c))) as bv32 == Low8(c) && Wide(Above8(c)) == AboveByte(Wide(c))
  {
  }

  lemma ResidueFirst(c: bv32)
    ensures Eight(Xor(c, Low8(Invert(c)))) == (c >> 8) ^ 0x2D02_EF8D
  {
  }

  lemma ResidueSecond(c: bv32)
    ensures Eight(Xor((c >> 8) ^ 0x2D02_EF8D, Low8(Above8(Invert(c))))) == (c >> 16) ^ 0xBE26_12FF
  {
  }

  lemma ResidueThird(c: bv32)
    ensures Eight(Xor((c >> 16) ^ 0xBE26_12FF, Low8(Above8(Above8(Invert(c)))))) == (c >> 24) ^ 0x00BE_2612
  {
  }

  lemma ResidueFourth(c: bv32)
    ensures Eight(Xor((c >> 24) ^ 0x00BE_2612, Low8(Above8(Above8(Above8(Invert(c))))))) == 0xDEBB_20E3
  {
  }

  lemma ResidueBits(c: bv32, n: bv32)
    requires n == Invert(c)
    ensures Eight(Xor(Eight(Xor(Eight(Xor(Eight(Xor(c, Low8(n))), Low8(Above8(n)))), Low8(Above8(Above8(n))))),
                      Low8(Above8(Above8(Above8(n))))))
         == 0xDEBB_20E3
  {
    hide Eight, Xor, Low8, Above8, Invert;
    ResidueFirst(c);
    ResidueSecond(c);
    ResidueThird(c);
    ResidueFourth(c);
  }

  lemma FixedStep(v: nat, n: nat)
    requires n > 0
    ensures PutFixed(v, n) == [v % 256] + PutFixed(v / 256, n - 1)
  {
  }

  lemma FourFixed(v: nat, b: nat, c: nat, d: nat)
    requires b == v / 256 && c == b / 256 && d == c / 256
    ensures PutFixed(v, 4) == [v % 256, b % 256, c % 256, d % 256]
  {
    hide PutFixed;
    FixedStep(v, 4);
    FixedStep(b, 3);
    FixedStep(c, 2);
    FixedStep(d, 1);
    assert PutFixed(d / 256, 0) == [];
  }

  lemma FoldTwo(c: bv32, a: byte, b: byte)
    ensures Fold(c, [a, b]) == Step(Step(c, a), b)
  {
    hide Step;
    assert [a, b][1..] == [b];
    FoldOne(Step(c, a), b);
  }

  lemma FoldFour(c: bv32, a: byte, b: byte, d: byte, e: byte)
    ensures Fold(c, [a, b, d, e]) == Step(Step(Step(Step(c, a), b), d), e)
  {
    hide Step, Fold;
    assert [a, b, d, e] == [a, b] + [d, e];
    FoldAppend(c, [a, b], [d, e]);
    FoldTwo(c, a, b);
    FoldTwo(Step(Step(c, a), b), d, e);
  }

  /** Its own complement's bytes take every state of the checksum to one state. */
  lemma FoldComplement(c: bv32)
    ensures Fold(c, PutFixed(Number(Invert(c)), 4)) == 0xDEBB_20E3
  {
    hide Eight, ByteWord, Number, PutFixed, Low8, Above8, Invert, Xor, Fold;
    var n := Invert(c);
    var v := Number(n);
    FourFixed(v, v / 256, v / 256 / 256, v / 256 / 256 / 256);
    ByteOfNumber(n);
    ByteOfNumber(Above8(n));
    ByteOfNumber(Above8(Above8(n)));
    ByteOfNumber(Above8(Above8(Above8(n))));
    FoldFour(c, v % 256, v / 256 % 256, v / 256 / 256 % 256, v / 256 / 256 / 256 % 256);
    ResidueBits(c, n);
  }

  /** The checksum of any data with its own checksum behind it is this constant. */
  lemma Residue(data: Str)
    ensures Checksum(data + PutFixed(ChecksumNumber(data), 4)) == 0x2144_DF1C
  {
    hide Fold, Number, PutFixed, Invert;
    FoldAppend(Invert(0), data, PutFixed(ChecksumNumber(data), 4));
    FoldComplement(Fold(Invert(0), data));
    ResidueInverted();
  }

  lemma ResidueInverted()
    ensures Invert(0xDEBB_20E3) == 0x2144_DF1C
  {
  }

  // ----- known checksums -----

  lemma SmallWords()
    ensures ByteWord(0) == 0 && ByteWord(1) == 1 && ByteWord(2) == 2 && ByteWord(97) == 97 && ByteWord(98) == 98
  {
    ZeroWord(64);
    ZeroWord(62);
    ZeroWord(57);
    assert LowWord(1, 58) == 1;
    assert LowWord(3, 59) == 3;
    assert LowWord(6, 60) == 6;
    assert LowWord(12, 61) == 12;
    assert LowWord(24, 62) == 24;
    assert LowWord(48, 63) == 48;
    assert LowWord(49, 63) == 49;
    assert LowWord(97, 64) == 97;
    assert LowWord(98, 64) == 98;
    assert LowWord(1, 63) == 1;
  }

  lemma KnownSteps()
    ensures Step(0xFFFF_FFFF, 1) == 0x5AFA_20E4 && Step(0x5AFA_20E4, 97) == 0x9D88_8D8F
    ensures Step(0x9D88_8D8F, 1) == 0x0A9D_26AA && Step(0x0A9D_26AA, 98) == 0x95B5_D7A4
    ensures Step(0x95B5_D7A4, 2) == 0x3F20_B30A && Step(0x3F20_B30A, 0) == 0xE0EA_C9AD
  {
    hide ByteWord;
    SmallWords();
  }

  /** The checksum of the fields of the entry that puts "b" under "a" at timestamp 1. */
  lemma KnownChecksum()
    ensures Checksum([1, 97, 1, 98, 2, 0]) == 0x1F15_3652
  {
    hide Step;
    KnownSteps();
    KnownEnds();
    assert [1, 97, 1, 98, 2, 0] == [1, 97] + [1, 98, 2, 0];
    FoldAppend(0xFFFF_FFFF, [1, 97], [1, 98, 2, 0]);
    FoldTwo(0xFFFF_FFFF, 1, 97);
    FoldFour(0x9D88_8D8F, 1, 98, 2, 0);
  }

  lemma KnownNumber()
    ensures Number(0x1F15_3652) == 0x1F15_3652
  {
    ZeroWord(35);
    assert Low(1, 36) == 1;
    assert Low(7, 38) == 7;
    assert Low(0x1F, 40) == 0x1F;
    assert Low(0x7C, 42) == 0x7C;
    assert Low(0x1F1, 44) == 0x1F1;
    assert Low(0x7C5, 46) == 0x7C5;
    assert Low(0x1F15, 48) == 0x1F15;
    assert Low(0x7C54, 50) == 0x7C54;
    assert Low(0x1_F153, 52) == 0x1_F153;
    assert Low(0x7_C54D, 54) == 0x7_C54D;
    assert Low(0x1F_1536, 56) == 0x1F_1536;
    assert Low(0x7C_54D9, 58) == 0x7C_54D9;
    assert Low(0x1F1_5365, 60) == 0x1F1_5365;
    assert Low(0x7C5_4D94, 62) == 0x7C5_4D94;
    KnownWide();
  }

  lemma KnownWide()
    ensures Wide(0x1F15_3652) == 0x1F15_3652
  {
  }

  lemma KnownEnds()
    ensures Invert(0) == 0xFFFF_FFFF && Invert(0xE0EA_C9AD) == 0x1F15_3652
  {
  }

  lemma EmptyChecksum()
    ensures ChecksumNumber([]) == 0
  {
    hide Val, Wide;
    ZeroVal();
    EmptyBits();
  }

  lemma EmptyBits()
    ensures Checksum([]) == 0 && Wide(0) == 0
  {
  }
}
