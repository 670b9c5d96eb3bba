// Multiplicative hashing of keys to the cells of power-of-two tables, and to shards and tags.
module Hashing {
  import opened ProbeTable

  const WORD: nat := 0x1_0000_0000_0000_0000
  const HASH_MULTIPLIER: nat := 11400714819323198485

  function Pow2(n: nat): (p: nat)
    ensures p > 0
  {
    if n == 0 then 1 else 2 * Pow2(n - 1)
  }

  lemma {:induction false} Pow2Sum(a: nat, b: nat)
    ensures Pow2(a + b) == Pow2(a) * Pow2(b)
    decreases b
  {
    if b > 0 {
      Pow2Sum(a, b - 1);
      DoubleProduct(Pow2(a), Pow2(b - 1));
    }
  }

  lemma DoubleProduct(x: nat, y: nat)
    ensures 2 * (x * y) == x * (2 * y)
  {
  }

  lemma WordIsPow2()
    ensures Pow2(64) == WORD
  {
    assert Pow2(8) == 0x100;
    Pow2Sum(8, 8);
    Pow2Sum(16, 16);
    Pow2Sum(32, 32);
  }

  function Disperse(key: Key): (h: nat)
    ensures h < WORD
  {
    ((key % WORD) * HASH_MULTIPLIER) % WORD
  }

  // The top bits of a hash, as many as number the cells. The capacity is a power of two.
  function TopBits(hash: nat, capacity: nat): nat
    requires 0 < capacity <= WORD
  {
    hash / (WORD / capacity)
  }

  ghost predicate IsCapacity(capacity: nat) {
    exists k: nat :: 3 <= k < 64 && capacity == Pow2(k)
  }

  lemma {:induction false} Pow2Grows(a: nat, b: nat)
    requires a <= b
    ensures Pow2(a) <= Pow2(b)
    decreases b
  {
    if a < b {
      Pow2Grows(a, b - 1);
    }
  }

  lemma CapacityRange(capacity: nat)
    requires IsCapacity(capacity)
    ensures 8 <= capacity <= WORD / 2 && capacity % 4 == 0
  {
    var k: nat :| 3 <= k < 64 && capacity == Pow2(k);
    assert Pow2(3) == 8;
    Pow2Grows(3, k);
    Pow2Grows(k, 63);
    WordIsPow2();
    assert Pow2(64) == 2 * Pow2(63);
    assert capacity == 2 * (2 * Pow2(k - 2));
  }

  lemma CapacityDivides(capacity: nat)
    requires IsCapacity(capacity)
    ensures (WORD / capacity) * capacity == WORD && WORD / capacity > 0
  {
    var k: nat :| 3 <= k < 64 && capacity == Pow2(k);
    Divides(k);
  }

  lemma Divides(k: nat)
    requires k <= 64
    ensures WORD / Pow2(k) == Pow2(64 - k) && Pow2(64 - k) * Pow2(k) == WORD
  {
    WordIsPow2();
    Pow2Sum(64 - k, k);
    Exactly(WORD, Pow2(64 - k), Pow2(k));
  }

  lemma Exactly(w: nat, q: nat, c: nat)
    requires w == q * c && c > 0
    ensures w / c == q
  {
    QuotientBelow(w, c, q + 1);
    NotBelow(w, c, q);
  }

  lemma NotBelow(h: nat, q: nat, c: nat)
    requires q > 0 && h >= c * q
    ensures h / q >= c
  {
    var d := h / q - c;
    assert h == (h / q) * q + h % q;
    assert (h / q) * q == d * q + c * q;
    MultipleIsFar(d, q);
  }

  lemma QuotientBelow(h: nat, q: nat, c: nat)
    requires q > 0 && h < q * c
    ensures h / q < c
  {
    var d := h / q - c;
    assert h == (h / q) * q + h % q;
    assert (h / q) * q == d * q + q * c;
    MultipleIsFar(d, q);
  }

  // A hash always picks a cell of the table.
  lemma TopBitsInRange(hash: nat, capacity: nat)
    requires IsCapacity(capacity) && hash < WORD
    ensures capacity <= WORD && TopBits(hash, capacity) < capacity
  {
    CapacityRange(capacity);
    CapacityDivides(capacity);
    QuotientBelow(hash, WORD / capacity, capacity);
  }

  lemma DoubleCapacity(capacity: nat)
    requires IsCapacity(capacity) && 2 * capacity < WORD
    ensures IsCapacity(2 * capacity)
  {
    var k: nat :| 3 <= k < 64 && capacity == Pow2(k);
    if k == 63 {
      WordIsPow2();
    }
    assert 2 * capacity == Pow2(k + 1);
  }

  // ---- The sequential table ----

  function InitialIndex(key: Key, capacity: nat): nat {
    if 0 < capacity <= WORD then TopBits(Disperse(key), capacity) else 0
  }

  function HomeOf(capacity: nat): Home {
    (key: Key) => InitialIndex(key, capacity)
  }

  lemma HomeOfOk(capacity: nat)
    requires IsCapacity(capacity)
    ensures HomeOk(HomeOf(capacity), capacity)
  {
    CapacityRange(capacity);
    forall key: Key ensures HomeOf(capacity)(key) < capacity {
      TopBitsInRange(Disperse(key), capacity);
    }
  }

  // ---- Shards ----

  const SHARD_COUNT: nat := 4

  function ShardOf(key: Key): (shard: nat)
    ensures shard < SHARD_COUNT
  {
    Disperse(key) / 0x4000_0000_0000_0000
  }

  // The hash with the bits that chose the shard rotated to the bottom.
  function LocalHash(key: Key): (h: nat)
    ensures h < WORD
  {
    (Disperse(key) * 4) % WORD + Disperse(key) / 0x4000_0000_0000_0000
  }

  function ShardIndex(key: Key, capacity: nat): nat {
    if 0 < capacity <= WORD then TopBits(LocalHash(key), capacity) else 0
  }

  function ShardHome(capacity: nat): Home {
    (key: Key) => ShardIndex(key, capacity)
  }

  lemma ShardHomeOk(capacity: nat)
    requires IsCapacity(capacity)
    ensures HomeOk(ShardHome(capacity), capacity)
  {
    CapacityRange(capacity);
    forall key: Key ensures ShardHome(capacity)(key) < capacity {
      TopBitsInRange(LocalHash(key), capacity);
    }
  }

  function Tag(key: Key): (tag: nat)
    ensures tag < 8
  {
    Disperse(key) % 8
  }
}
