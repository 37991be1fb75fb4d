/** Positions, a filter, a table file and file names worked out byte by byte. */
module KnownBytes {
  import opened Bytes
  import opened Entries
  import opened Varint
  import opened Records
  import opened Words
  import opened Hashing
  import opened SparseIndex
  import opened TableFormat
  import opened TableLookup
  import opened Crc32
  import opened Paths
  import WalFormat
  import Bloom

  // ----- a filter -----

  lemma StepsOfA()
    ensures FnvStep(FNV_OFFSET, 97) == 0xaf63_dc4c_8601_ec8c
    ensures FnvStep(0x25a4_a919_b91b_fb9f, 97) == 0x12c7_54b5_8a8d_309a
  {
  }

  /** The two hashes of "a". */
  lemma HashesOfA()
    ensures Fnv1a([97]) == 0xaf63_dc4c_8601_ec8c
    ensures Bloom.Stride([97]) == 0x12c7_54b5_8a8d_309a
  {
    hide FnvStep, Fnv;
    StepsOfLsm();
    StepsOfA();
    FnvByte(FNV_OFFSET, 97, []);
    assert Bloom.LSM + [97] == [76] + ([83] + ([77] + ([97] + [])));
    FnvByte(FNV_OFFSET, 76, [83] + ([77] + ([97] + [])));
    FnvByte(0xaf64_014c_8602_2b6b, 83, [77] + ([97] + []));
    FnvByte(0x0919_6d07_b5af_7028, 77, [97] + []);
    FnvByte(0x25a4_a919_b91b_fb9f, 97, []);
    FnvNothing(0xaf63_dc4c_8601_ec8c);
    FnvNothing(0x12c7_54b5_8a8d_309a);
    assert [97] + [] == [97 as byte];
  }

  lemma FnvNothing(h: bv64)
    ensures Fnv(h, []) == h
  {
  }

  lemma MaskedHops()
    ensures Masked(Bloom.Hop(0xaf63_dc4c_8601_ec8c, 0x12c7_54b5_8a8d_309a, 0), 256) == 140
    ensures Masked(Bloom.Hop(0xaf63_dc4c_8601_ec8c, 0x12c7_54b5_8a8d_309a, 1), 256) == 38
    ensures Masked(Bloom.Hop(0xaf63_dc4c_8601_ec8c, 0x12c7_54b5_8a8d_309a, 2), 256) == 192
  {
  }

  lemma FirstWords()
    ensures Word(0) == 0 && Word(1) == 1 && Word(2) == 2
  {
    ZeroWord(64);
    ZeroWord(62);
    assert LowWord(1, 63) == 1;
  }

  /** The first three positions of "a" in a filter of 256 bits. */
  lemma KnownPositions()
    ensures Bloom.Position(256, [97], 0) == 140
    ensures Bloom.Position(256, [97], 1) == 38
    ensures Bloom.Position(256, [97], 2) == 192
  {
    hide Fnv1a, Bloom.Stride, Bloom.Hop, Masked, Word;
    HashesOfA();
    FirstWords();
    MaskedHops();
  }

  lemma FirstVals()
    ensures Val(0) == 0 && Val(1) == 1 && Val(2) == 2 && Val(3) == 3
  {
    ZeroWord(64);
    ZeroWord(62);
    assert Low(1, 63) == 1;
  }

  lemma WordBits()
    ensures (140 as bv64) / 64 == 2 && (38 as bv64) / 64 == 0 && (192 as bv64) / 64 == 3
    ensures Bloom.Or(0, Bloom.Mask(140)) == 0x1000
    ensures Bloom.Or(0, Bloom.Mask(38)) == 0x40_0000_0000
    ensures Bloom.Or(0, Bloom.Mask(192)) == 1
  {
  }

  /** "a" sets bits 38, 140 and 192 of a filter of 256 bits and three hashes. */
  lemma KnownFilter()
    ensures var f := Bloom.Value([0, 0, 0, 0], 256, 3);
      Bloom.WellFormed(f) && Bloom.Added(f, [97]).bits == [0x40_0000_0000, 0, 0x1000, 1]
  {
    hide Bloom.Position, Bloom.Mask, Bloom.Or, Val;
    var f := Bloom.Value([0, 0, 0, 0], 256, 3);
    SizeWords();
    FirstVals();
    WordBits();
    KnownPositions();
    assert Bloom.SetFirst(f, [97], 0) == [0, 0, 0, 0];
    assert Bloom.SetFirst(f, [97], 1) == [0, 0, 0x1000, 0];
    assert Bloom.SetFirst(f, [97], 2) == [0x40_0000_0000, 0, 0x1000, 0];
  }

  lemma SizeWords()
    ensures WholeWords(256) && Val(256) == 256 && WholeWords(128) && Val(128) == 128
  {
    ZeroWord(55);
    assert Low(1, 56) == 1;
    assert Low(4, 58) == 4;
    assert Low(16, 60) == 16;
    assert Low(64, 62) == 64;
    assert Low(256, 64) == 256;
    assert Low(2, 58) == 2;
    assert Low(8, 60) == 8;
    assert Low(32, 62) == 32;
    assert Low(128, 64) == 128;
  }

  lemma SmallFixed()
    ensures PutFixed(1, 8) == [1] + Zeros(7) && PutFixed(2, 8) == [2] + Zeros(7)
    ensures PutFixed(10, 8) == [10] + Zeros(7) && PutFixed(16, 8) == [16] + Zeros(7)
  {
    assert PutFixed(0, 2) == Zeros(2);
    assert PutFixed(0, 4) == Zeros(4);
    assert PutFixed(0, 6) == Zeros(6);
    assert PutFixed(0, 7) == Zeros(7);
  }

  /** A filter's bytes: bits, hashes, and the words with the lowest byte first. */
  lemma KnownFilterBytes()
    ensures var f := Bloom.Value([1, 2], 128, 3);
      Bloom.WellFormed(f) && Bloom.PutFilter(f) == [128, 1, 3] + ([1] + Zeros(7)) + ([2] + Zeros(7))
  {
    hide Val, PutFixed;
    FirstVals();
    SizeWords();
    SmallFixed();
    assert PutUvarint(128) == [128, 1] && PutUvarint(3) == [3];
    assert [1 as bv64, 2][1..] == [2];
    assert Bloom.PutWords([2]) == PutFixed(2, 8) + Bloom.PutWords([]);
  }

  // ----- a table -----

  lemma ResidueNumber()
    ensures Number(0x2144_DF1C) == 0x2144_DF1C
  {
    ZeroWord(34);
    assert Low(2, 36) == 2;
    assert Low(8, 38) == 8;
    assert Low(0x21, 40) == 0x21;
    assert Low(0x85, 42) == 0x85;
    assert Low(0x214, 44) == 0x214;
    assert Low(0x851, 46) == 0x851;
    assert Low(0x2144, 48) == 0x2144;
    assert Low(0x8513, 50) == 0x8513;
    assert Low(0x2144d, 52) == 0x2144d;
    assert Low(0x85137, 54) == 0x85137;
    assert Low(0x2144df, 56) == 0x2144df;
    assert Low(0x85137c, 58) == 0x85137c;
    assert Low(0x2144df1, 60) == 0x2144df1;
    assert Low(0x85137c7, 62) == 0x85137c7;
    assert Low(0x2144df1c, 64) == 0x2144df1c;
  }

  lemma KnownData()
    ensures Data([Entry([97], [98], 1, false)]) == [1, 97, 1, 98, 2, 0, 82, 54, 21, 31]
    ensures ChecksumNumber(Data([Entry([97], [98], 1, false)])) == 0x2144_DF1C
  {
    hide Checksum, Number, PutFields, PutFixed;
    var e := Entry([97], [98], 1, false);
    WalFormat.KnownBody();
    assert WalFormat.Body([e]) == PutFields(e) + WalFormat.Body([]) == PutFields(e);
    KnownChecksum();
    KnownNumber();
    FourFixed(0x1F15_3652, 0x1F_1536, 0x1F15, 0x1F);
    assert [e][1..] == [];
    assert Data([e]) == Record(e) + Data([]) == Record(e);
    Residue(PutFields(e));
    ResidueNumber();
    assert Record(e) == PutFields(e) + PutFixed(ChecksumNumber(PutFields(e)), 4);
  }

  lemma KnownIndex()
    ensures PutIndex(128, [IndexEntry([97], 0)]) == [128, 1, 1, 1, 97, 0]
  {
    var x := IndexEntry([97], 0);
    assert PutUvarint(128) == [128, 1];
    OneByte(0);
    OneByte(1);
    assert PutString([97]) == [1, 97] && PutIndexEntry(x) == [1, 97, 0];
    assert [x][1..] == [];
    assert PutIndexEntries([x]) == [1, 97, 0];
  }

  lemma OneByte(n: nat)
    requires n < 128
    ensures PutUvarint(n) == [n]
  {
  }

  /** The file of a table that holds "b" under "a" at timestamp 1: the record and its checksum, the index with step,
      count, key and offset, the filter, the two offsets, the checksum of the data and the magic number. */
  lemma KnownTable()
    ensures var es := [Entry([97], [98], 1, false)];
      FileBytes(es, 128, 1) ==
        [1, 97, 1, 98, 2, 0, 82, 54, 21, 31] + [128, 1, 1, 1, 97, 0] + Bloom.PutFilter(FilterOf(es, 1))
        + (([10] + Zeros(7)) + ([16] + Zeros(7)) + [28, 223, 68, 33] + [76, 83, 77, 50])
  {
    hide Data, ChecksumNumber, PutFixed, PutIndex, FilterOf, Bloom.PutFilter;
    var es := [Entry([97], [98], 1, false)];
    KnownData();
    KnownIndex();
    SmallFixed();
    FourFixed(0x2144_DF1C, 0x21_44DF, 0x2144, 0x21);
    FirstOffset(es);
    assert Samples([], 128) == [];
    assert Samples(es, 128) == [IndexEntry([97], 0)];
  }

  lemma FirstOffset(es: seq<Entry>)
    ensures es[..0] == [] && |Data(es[..0])| == 0
  {
  }

  // ----- names -----

  /** "0-12.sst" is a flushed table, "1-00000012.sst" a compacted one. */
  lemma KnownNames()
    ensures FileName(Name(0, 12)) == [48, 45, 49, 50, 46, 115, 115, 116]
    ensures FileName(Name(1, 12)) == [49, 45, 48, 48, 48, 48, 48, 48, 49, 50, 46, 115, 115, 116]
  {
    assert Decimal(1) == [49] && Decimal(0) == [48];
    assert Decimal(12) == [49, 50];
    assert Padded(12) == [48, 48, 48, 48, 48, 48, 49, 50];
  }
}
