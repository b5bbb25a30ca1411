/** Machine integers, the limits of bpf/memleak.h, and the word that packs a
    40-bit byte total under a 24-bit allocation count. */
module Words {
  const ALLOCS_MAX_ENTRIES := 1000000
  const COMBINED_ALLOCS_MAX_ENTRIES := 10240
  const SIZES_MAX_ENTRIES := 10240
  const MEMPTRS_MAX_ENTRIES := 10240

  type Byte = x: int | 0 <= x < 0x100
  type U32 = x: int | 0 <= x < 0x1_0000_0000
  type I32 = x: int | -0x8000_0000 <= x < 0x8000_0000
  type U64 = x: int | 0 <= x < 0x1_0000_0000_0000_0000

  // A thread group id: never negative, so the signed and the unsigned reading agree.
  type Pid = x: int | 0 <= x < 0x8000_0000

  // 64-bit arithmetic wraps around; the remainder is never negative.
  function Wrap64(x: int): U64 {
    x % 0x1_0000_0000_0000_0000
  }

  // Wrapping early does not change where a sum ends up.
  lemma WrapSum(x: int, delta: int)
    ensures Wrap64(Wrap64(x) + delta) == Wrap64(x + delta)
  {}

  // Writing the two bit fields of `union combined_alloc_info` truncates each value to its width.
  function Pack(total: U64, number: U64): U64 {
    total % 0x100_0000_0000 + number % 0x100_0000 * 0x100_0000_0000
  }

  // The word that one allocation of `size` bytes adds, and one free subtracts.
  function Increment(size: U64): U64 {
    Pack(size, 1)
  }

  function AtomicAdd(word: U64, delta: U64): U64 {
    Wrap64(word + delta)
  }

  function AtomicSub(word: U64, delta: U64): U64 {
    Wrap64(word - delta)
  }

  // Converting the signed 32-bit id to the 64-bit map key extends the sign.
  function StackKey(id: I32): U64 {
    if id < 0 then id + 0x1_0000_0000_0000_0000 else id
  }

  // The reader truncates a 64-bit key, and reads the 32-bit id as unsigned.
  function TruncateKey(key: U64): U32 {
    key % 0x1_0000_0000
  }

  function UnsignedId(id: I32): U32 {
    id % 0x1_0000_0000
  }

  predicate IsStackKey(key: U64) {
    key < 0x8000_0000 || 0x1_0000_0000_0000_0000 - 0x8000_0000 <= key
  }

  // Truncation undoes sign extension, up to reading the id as unsigned.
  lemma TruncateStackKey(id: I32)
    ensures IsStackKey(StackKey(id))
    ensures TruncateKey(StackKey(id)) == UnsignedId(id)
  {
    if id < 0 {
      assert id + 0x1_0000_0000_0000_0000 == id + 0x1_0000_0000 + (0x1_0000_0000 - 1) * 0x1_0000_0000;
    }
  }

  // No two stacks merge: neither by extending the id nor by truncating the key.
  lemma StackIdentity(key: U64, id: I32)
    requires IsStackKey(key)
    ensures key == StackKey(id) <==> TruncateKey(key) == UnsignedId(id)
  {
    TruncateStackKey(id);
    if 0x1_0000_0000_0000_0000 - 0x8000_0000 <= key {
      assert key == key - 0x1_0000_0000_0000_0000 + 0x1_0000_0000 + (0x1_0000_0000 - 1) * 0x1_0000_0000;
      assert TruncateKey(key) == key - 0x1_0000_0000_0000_0000 + 0x1_0000_0000;
    }
  }

  lemma StackKeysDistinct(k1: U64, k2: U64)
    requires IsStackKey(k1) && IsStackKey(k2)
    ensures k1 == k2 <==> TruncateKey(k1) == TruncateKey(k2)
  {
    var id: I32 := if k2 < 0x8000_0000 then k2 else k2 - 0x1_0000_0000_0000_0000;
    assert StackKey(id) == k2;
    StackIdentity(k1, id);
    TruncateStackKey(id);
  }
}
