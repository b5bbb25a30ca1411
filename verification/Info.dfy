/** The reader's records and the byte decoder of internal/info/info.go. */
module Info {
  import opened Words
  import opened Accounting

  datatype AllocInfoRaw = AllocInfoRaw(size: U64, timestampNs: U64, stackId: U32)

  datatype AllocRecord = AllocRecord(size: U64, timestampNs: U64, stackId: U32, address: U64)

  datatype CombinedAllocInfo = CombinedAllocInfo(stackId: U32, totalSize: U64, numberOfAllocs: U32)

  type Bits = bs: seq<Byte> | |bs| == 8 witness [0, 0, 0, 0, 0, 0, 0, 0]

  // The reader sees the signed id of a stack as an unsigned number.
  function RawOf(info: AllocInfo): AllocInfoRaw {
    AllocInfoRaw(info.size, info.timestampNs, UnsignedId(info.stackId))
  }

  function GetAllocInfo(address: U64, raw: AllocInfoRaw): AllocRecord {
    AllocRecord(raw.size, raw.timestampNs, raw.stackId, address)
  }

  // ---------- bitwise or and left shift ----------

  function Or(x: nat, y: nat): nat
    decreases x + y
  {
    if x == 0 && y == 0 then 0
    else (if x % 2 == 1 || y % 2 == 1 then 1 else 0) + 2 * Or(x / 2, y / 2)
  }

  function Shl64(x: U64, n: nat): U64 {
    Wrap64(x * PowerOfTwo(n))
  }

  function Shl32(x: U32, n: nat): U32 {
    x * PowerOfTwo(n) % 0x1_0000_0000
  }

  lemma {:induction false} OrZero(x: nat)
    ensures Or(0, x) == x
  {
    if x != 0 {
      OrZero(x / 2);
    }
  }

  // The or of a number below 2^n with a multiple of 2^n is their sum.
  lemma {:induction false} OrDisjoint(x: nat, z: nat, n: nat)
    requires x < PowerOfTwo(n)
    ensures Or(x, z * PowerOfTwo(n)) == x + z * PowerOfTwo(n)
    decreases n
  {
    if n == 0 {
      OrZero(z);
    } else {
      var y := z * PowerOfTwo(n - 1);
      assert z * PowerOfTwo(n) == 2 * y;
      OrDisjoint(x / 2, z, n - 1);
      if x == 0 && y == 0 {
      } else {
        assert Or(x, 2 * y) == x % 2 + 2 * Or(x / 2, y);
      }
    }
  }

  lemma Powers()
    ensures PowerOfTwo(8) == 0x100 && PowerOfTwo(16) == 0x1_0000
    ensures PowerOfTwo(24) == 0x100_0000 && PowerOfTwo(32) == 0x1_0000_0000
  {}

  // ---------- GetCombinedAllocInfo ----------

  function At(bs: seq<Byte>, i: nat): (digit: nat)
    requires i < |bs|
  {
    bs[i]
  }

  function TotalBits(bs: Bits): nat {
    Or(Or(Or(Or(bs[0], Shl64(bs[1], 8)), Shl64(bs[2], 16)), Shl64(bs[3], 24)), Shl64(bs[4], 32))
  }

  function NumberBits(bs: Bits): nat {
    Or(Or(bs[5], Shl32(bs[6], 8)), Shl32(bs[7], 16))
  }

  // Shifting a byte moves it to its place; nothing falls off the end.
  lemma Shifts(b: Byte)
    ensures Shl64(b, 8) == Shl32(b, 8) == 0x100 * (b as int)
    ensures Shl64(b, 16) == Shl32(b, 16) == 0x1_0000 * (b as int)
    ensures Shl64(b, 24) == 0x100_0000 * (b as int)
    ensures Shl64(b, 32) == 0x1_0000_0000 * (b as int)
  {
    Powers();
  }

  lemma OrByte(acc: nat, b: Byte, n: nat, shifted: nat)
    requires acc < PowerOfTwo(n) && shifted == b * PowerOfTwo(n)
    ensures Or(acc, shifted) == acc + shifted
  {
    OrDisjoint(acc, b, n);
  }

  lemma TotalBitsAdd(bs: Bits)
    ensures TotalBits(bs) == At(bs, 0) + 0x100 * At(bs, 1) + 0x1_0000 * At(bs, 2) + 0x100_0000 * At(bs, 3)
                             + 0x1_0000_0000 * At(bs, 4)
  {
    Powers();
    var b1, b2, b3, b4 := 0x100 * At(bs, 1), 0x1_0000 * At(bs, 2), 0x100_0000 * At(bs, 3), 0x1_0000_0000 * At(bs, 4);
    Shifts(bs[1]);
    Shifts(bs[2]);
    Shifts(bs[3]);
    Shifts(bs[4]);
    OrByte(At(bs, 0), bs[1], 8, b1);
    OrByte(At(bs, 0) + b1, bs[2], 16, b2);
    OrByte(At(bs, 0) + b1 + b2, bs[3], 24, b3);
    OrByte(At(bs, 0) + b1 + b2 + b3, bs[4], 32, b4);
  }

  lemma NumberBitsAdd(bs: Bits)
    ensures NumberBits(bs) == At(bs, 5) + 0x100 * At(bs, 6) + 0x1_0000 * At(bs, 7)
  {
    Powers();
    Shifts(bs[6]);
    Shifts(bs[7]);
    OrByte(At(bs, 5), bs[6], 8, 0x100 * At(bs, 6));
    OrByte(At(bs, 5) + 0x100 * At(bs, 6), bs[7], 16, 0x1_0000 * At(bs, 7));
  }

  function GetCombinedAllocInfo(stackId: U32, bs: Bits): CombinedAllocInfo {
    TotalBitsAdd(bs);
    NumberBitsAdd(bs);
    CombinedAllocInfo(stackId, TotalBits(bs), NumberBits(bs))
  }

  // ---------- the little-endian word ----------

  function ToBytes(word: nat, n: nat): (bs: seq<Byte>)
    ensures |bs| == n
    decreases n
  {
    if n == 0 then [] else [word % 0x100] + ToBytes(word / 0x100, n - 1)
  }

  function FromBytes(bs: seq<Byte>): nat
    decreases |bs|
  {
    if bs == [] then 0 else At(bs, 0) + 0x100 * FromBytes(bs[1..])
  }

  function LittleEndian(word: U64): Bits {
    ToBytes(word, 8)
  }

  // Reading the bytes of a word gives the word back, and writing it the bytes.
  lemma {:induction false} FromToBytes(word: nat, n: nat)
    requires word < PowerOfTwo(8 * n)
    ensures FromBytes(ToBytes(word, n)) == word
    decreases n
  {
    if n == 0 {
    } else {
      var rest := ToBytes(word / 0x100, n - 1);
      assert ToBytes(word, n)[1..] == rest;
      PowerStep(8 * (n - 1));
      FromToBytes(word / 0x100, n - 1);
    }
  }

  lemma PowerStep(n: nat)
    ensures PowerOfTwo(n + 8) == 0x100 * PowerOfTwo(n)
  {
    assert PowerOfTwo(n + 2) == 4 * PowerOfTwo(n);
    assert PowerOfTwo(n + 4) == 4 * PowerOfTwo(n + 2);
    assert PowerOfTwo(n + 6) == 4 * PowerOfTwo(n + 4);
    assert PowerOfTwo(n + 8) == 4 * PowerOfTwo(n + 6);
  }

  lemma {:induction false} ToFromBytes(bs: seq<Byte>)
    ensures ToBytes(FromBytes(bs), |bs|) == bs
    decreases |bs|
  {
    if bs == [] {
    } else {
      ToFromBytes(bs[1..]);
      assert FromBytes(bs) / 0x100 == FromBytes(bs[1..]);
    }
  }

  lemma BytesOfWord(bs: Bits)
    ensures FromBytes(bs) == At(bs, 0) + 0x100 * At(bs, 1) + 0x1_0000 * At(bs, 2) + 0x100_0000 * At(bs, 3)
                             + 0x1_0000_0000
                             * (At(bs, 4) + 0x100 * (At(bs, 5) + 0x100 * At(bs, 6) + 0x1_0000 * At(bs, 7)))
  {
    var low, high := bs[..4], bs[4..];
    assert bs[1..][0] == bs[1] && bs[1..][1..] == bs[2..];
    assert bs[2..][1..] == bs[3..] && bs[3..][1..] == high;
    assert high[1..] == bs[5..] && bs[5..][1..] == bs[6..];
    assert bs[6..][1..] == bs[7..] && bs[7..][1..] == [];
    assert FromBytes(bs[7..]) == At(bs, 7);
    assert FromBytes(bs[6..]) == At(bs, 6) + 0x100 * At(bs, 7);
    assert FromBytes(bs[5..]) == At(bs, 5) + 0x100 * FromBytes(bs[6..]);
    assert FromBytes(high) == At(bs, 4) + 0x100 * FromBytes(bs[5..]);
    assert FromBytes(bs[3..]) == At(bs, 3) + 0x100 * FromBytes(high);
    assert FromBytes(bs[2..]) == At(bs, 2) + 0x100 * FromBytes(bs[3..]);
    assert FromBytes(bs[1..]) == At(bs, 1) + 0x100 * FromBytes(bs[2..]);
  }

  /** Decoding splits any eight bytes exactly at bit 40: nothing of the word is lost. */
  lemma DecodeSplits(stackId: U32, bs: Bits)
    ensures var d := GetCombinedAllocInfo(stackId, bs);
            && d.stackId == stackId
            && d.totalSize < 0x100_0000_0000 && d.numberOfAllocs < 0x100_0000
            && FromBytes(bs) == d.totalSize + 0x100_0000_0000 * d.numberOfAllocs
  {
    TotalBitsAdd(bs);
    NumberBitsAdd(bs);
    BytesOfWord(bs);
  }

  lemma Power64()
    ensures PowerOfTwo(64) == 0x1_0000_0000_0000_0000
  {
    Powers();
    PowerStep(32);
    PowerStep(40);
    PowerStep(48);
    PowerStep(56);
  }

  lemma SplitWord(low: nat, high: nat)
    requires low < 0x100_0000_0000
    ensures (low + high * 0x100_0000_0000) % 0x100_0000_0000 == low
    ensures (low + high * 0x100_0000_0000) / 0x100_0000_0000 == high
  {}

  lemma WordFromBytes(word: U64)
    ensures FromBytes(LittleEndian(word)) == word
  {
    Power64();
    FromToBytes(word, 8);
  }

  /** Decoding the bytes of a packed word gives the two bit fields. */
  lemma DecodeWord(stackId: U32, word: U64)
    ensures GetCombinedAllocInfo(stackId, LittleEndian(word))
         == CombinedAllocInfo(stackId, word % 0x100_0000_0000, word / 0x100_0000_0000)
  {
    var d := GetCombinedAllocInfo(stackId, LittleEndian(word));
    DecodeSplits(stackId, LittleEndian(word));
    WordFromBytes(word);
    SplitWord(d.totalSize, d.numberOfAllocs);
  }

  /** Packing and decoding undo each other, as long as both fields fit. */
  lemma DecodePack(stackId: U32, total: U64, number: U64)
    ensures Pack(total, number) < 0x1_0000_0000_0000_0000
    ensures GetCombinedAllocInfo(stackId, LittleEndian(Pack(total, number)))
         == CombinedAllocInfo(stackId, total % 0x100_0000_0000, number % 0x100_0000)
  {
    DecodeWord(stackId, Pack(total, number));
    SplitWord(total % 0x100_0000_0000, number % 0x100_0000);
  }
}
