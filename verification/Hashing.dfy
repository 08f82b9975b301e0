// Prefix hashes, bucket pairs, and the pipeline that computes the hashes of a
// key's prefixes ahead of the descent.
module Hashing {
  import opened Arithmetic
  import opened Keys

  const TAG_VALUES := 16
  const HASH_START_VALUE := 0

  // The size of the table and the random mix table. The number of buckets is a
  // multiple of 2 * FANOUT, so that xor-ing a symbol keeps a hash in range.
  datatype Geometry = Geometry(numBuckets: nat, bucketMixTable: seq<nat>) {
    ghost predicate Valid() {
      && 0 < numBuckets < 0xFFFF_FFFF
      && numBuckets % 64 == 0
      && |bucketMixTable| == TAG_VALUES
      && forall t :: 0 <= t < TAG_VALUES ==> bucketMixTable[t] < numBuckets
    }

    // No entry has its own primary bucket as its secondary one.
    ghost predicate NoZeroMix() {
      forall t :: 0 <= t < |bucketMixTable| ==> bucketMixTable[t] != 0
    }

    // An entry with this hash has two different buckets.
    predicate Moves(hash: nat) {
      |bucketMixTable| == TAG_VALUES && bucketMixTable[hash % TAG_VALUES] != 0
    }

    function NumPairs(): nat { numBuckets * 16 }

    function NumShuffleBlocks(): nat { NumPairs() / 32 }
  }

  // Bitwise exclusive or.
  function Xor(a: nat, b: nat): nat
    decreases a + b
  {
    if a == 0 && b == 0 then 0
    else 2 * Xor(a / 2, b / 2) + (if a % 2 == b % 2 then 0 else 1)
  }

  lemma XorZero(a: nat)
    ensures Xor(a, 0) == a
  {
  }

  lemma {:induction false} XorInvolutive(a: nat, b: nat)
    ensures Xor(Xor(a, b), b) == a
    decreases a + b
  {
    if a == 0 && b == 0 {
    } else {
      XorInvolutive(a / 2, b / 2);
      var x := Xor(a, b);
      assert x / 2 == Xor(a / 2, b / 2);
    }
  }

  // Xor with a number below 2 ** n keeps the bits from n upwards.
  lemma {:induction false} XorKeepsHighBits(a: nat, b: nat, n: nat)
    requires b < PowerOfTwo(n)
    ensures Xor(a, b) / PowerOfTwo(n) == a / PowerOfTwo(n)
    decreases n
  {
    if n == 0 {
      XorZero(a);
    } else {
      XorKeepsHighBits(a / 2, b / 2, n - 1);
      HalveThenDivide(Xor(a, b), PowerOfTwo(n - 1));
      HalveThenDivide(a, PowerOfTwo(n - 1));
      assert Xor(a, b) / 2 == Xor(a / 2, b / 2);
    }
  }

  lemma XorInRange(g: Geometry, x: nat, symbol: Symbol)
    requires g.Valid() && x < g.NumPairs()
    ensures Xor(x, symbol) < g.NumPairs()
  {
    assert PowerOfTwo(6) == 64;
    XorKeepsHighBits(x, symbol, 6);
    PairBlocks(g.numBuckets);
    SameBlockBelow(Xor(x, symbol), x, g.numBuckets / 64 * 16);
  }

  lemma PairBlocks(numBuckets: nat)
    requires numBuckets % 64 == 0
    ensures numBuckets * 16 == 64 * (numBuckets / 64 * 16) && numBuckets * 16 == 32 * (numBuckets / 64 * 32)
  {
    var q := numBuckets / 64;
    assert numBuckets == 64 * q;
  }

  // Numbers in the same block of 64 are on the same side of a multiple of 64.
  lemma SameBlockBelow(a: nat, b: nat, blocks: nat)
    requires a / 64 == b / 64 && b < 64 * blocks
    ensures a < 64 * blocks
  {
    var q := a / 64;
    assert 64 * q <= b && a < 64 * q + 64;
  }

  // One step of the prefix hash. For a fixed symbol it is a permutation of
  // [0, NumPairs()).
  function AccumulateHash(g: Geometry, x: nat, symbol: Symbol): (h: nat)
  {
    var y := Xor(x, symbol);
    var block := y / 32;
    var depth := y % 32;
    depth * g.NumShuffleBlocks() + block
  }

  // The inverse of AccumulateHash.
  function UnaccumulateHash(g: Geometry, h: nat, symbol: Symbol): nat
    requires g.Valid()
  {
    Shuffles(g);
    var depth := h / g.NumShuffleBlocks();
    var block := h % g.NumShuffleBlocks();
    Xor(block * 32 + depth, symbol)
  }

  lemma Shuffles(g: Geometry)
    requires g.Valid()
    ensures g.NumPairs() == 32 * g.NumShuffleBlocks() && g.NumShuffleBlocks() > 0
  {
    PairBlocks(g.numBuckets);
    DivideExactly(g.NumPairs(), 32, g.numBuckets / 64 * 32, 0);
  }

  lemma AccumulateInRange(g: Geometry, x: nat, symbol: Symbol)
    requires g.Valid() && x < g.NumPairs()
    ensures AccumulateHash(g, x, symbol) < g.NumPairs()
  {
    Shuffles(g);
    XorInRange(g, x, symbol);
    ShuffleRange(Xor(x, symbol) % 32, Xor(x, symbol) / 32, g.NumShuffleBlocks());
  }

  lemma ShuffleRange(depth: nat, block: nat, blocks: nat)
    requires depth < 32 && block < blocks
    ensures depth * blocks + block < 32 * blocks
    ensures (depth * blocks + block) / blocks == depth
    ensures (depth * blocks + block) % blocks == block
  {
    var rest := 31 - depth;
    assert depth * blocks + rest * blocks == 31 * blocks by {
      assert (depth + rest) * blocks == depth * blocks + rest * blocks;
    }
    assert rest * blocks >= 0;
    assert depth * blocks == blocks * depth;
    DivideExactly(depth * blocks + block, blocks, depth, block);
  }

  lemma AccumulateLeftInverse(g: Geometry, x: nat, symbol: Symbol)
    requires g.Valid() && x < g.NumPairs()
    ensures UnaccumulateHash(g, AccumulateHash(g, x, symbol), symbol) == x
  {
    Shuffles(g);
    XorInRange(g, x, symbol);
    ShuffleRange(Xor(x, symbol) % 32, Xor(x, symbol) / 32, g.NumShuffleBlocks());
    XorInvolutive(x, symbol);
  }

  lemma AccumulateRightInverse(g: Geometry, x: nat, symbol: Symbol)
    requires g.Valid() && x < g.NumPairs()
    ensures UnaccumulateHash(g, x, symbol) < g.NumPairs()
    ensures AccumulateHash(g, UnaccumulateHash(g, x, symbol), symbol) == x
  {
    Shuffles(g);
    var z := UnshuffleRange(x, g.NumShuffleBlocks());
    XorInRange(g, z, symbol);
    XorInvolutive(z, symbol);
  }

  // AccumulateHash and UnaccumulateHash undo each other on [0, NumPairs()), so
  // each symbol permutes the hash space.
  lemma AccumulateIsPermutation(g: Geometry, x: nat, symbol: Symbol)
    requires g.Valid() && x < g.NumPairs()
    ensures AccumulateHash(g, x, symbol) < g.NumPairs()
    ensures UnaccumulateHash(g, AccumulateHash(g, x, symbol), symbol) == x
    ensures UnaccumulateHash(g, x, symbol) < g.NumPairs()
    ensures AccumulateHash(g, UnaccumulateHash(g, x, symbol), symbol) == x
  {
    AccumulateInRange(g, x, symbol);
    AccumulateLeftInverse(g, x, symbol);
    AccumulateRightInverse(g, x, symbol);
  }

  lemma UnshuffleRange(x: nat, blocks: nat) returns (z: nat)
    requires x < 32 * blocks
    ensures z == x % blocks * 32 + x / blocks && z < 32 * blocks
    ensures z % 32 * blocks + z / 32 == x
  {
    var q, r := x / blocks, x % blocks;
    assert x == blocks * q + r;
    MulBounds(blocks, q - 32);
    assert blocks * (q - 32) == blocks * q - 32 * blocks;
    z := r * 32 + q;
    assert z / 32 == r && z % 32 == q;
    assert q * blocks == blocks * q;
  }

  // Equal child hash and equal symbol force equal parent hash.
  lemma AccumulateInjective(g: Geometry, x: nat, y: nat, symbol: Symbol)
    requires g.Valid() && x < g.NumPairs() && y < g.NumPairs()
    requires AccumulateHash(g, x, symbol) == AccumulateHash(g, y, symbol)
    ensures x == y
  {
    AccumulateIsPermutation(g, x, symbol);
    AccumulateIsPermutation(g, y, symbol);
  }

  lemma {:induction false} XorCancels(a: nat, b: nat)
    ensures Xor(a, Xor(a, b)) == b
    decreases a + b
  {
    if a == 0 && b == 0 {
    } else {
      XorCancels(a / 2, b / 2);
      assert Xor(a, b) / 2 == Xor(a / 2, b / 2);
    }
  }

  // The children of a node have different hashes, and those whose symbols are below 32 even
  // different primary buckets.
  lemma {:induction false} ChildrenApart(g: Geometry, x: nat, a: Symbol, b: Symbol)
    requires g.Valid() && x < g.NumPairs() && a != b
    ensures AccumulateHash(g, x, a) != AccumulateHash(g, x, b)
    ensures a < 32 && b < 32 ==> HashToBucket(AccumulateHash(g, x, a)) != HashToBucket(AccumulateHash(g, x, b))
  {
    XorCancels(x, a);
    XorCancels(x, b);
    Shuffles(g);
    XorInRange(g, x, a);
    XorInRange(g, x, b);
    if a < 32 && b < 32 {
      SameBlock(x, a);
      SameBlock(x, b);
    }
    hide Xor;
    ShuffledApart(Xor(x, a), Xor(x, b), g.NumShuffleBlocks());
  }

  lemma {:induction false} ShuffledApart(y: nat, z: nat, blocks: nat)
    requires y < 32 * blocks && z < 32 * blocks && y != z && blocks >= 16
    ensures y % 32 * blocks + y / 32 != z % 32 * blocks + z / 32
    ensures y / 32 == z / 32 ==> (y % 32 * blocks + y / 32) / 16 != (z % 32 * blocks + z / 32) / 16
  {
    Shuffled(y, z, blocks);
    if y / 32 == z / 32 {
      FarApart(y % 32, z % 32, y / 32, blocks);
    }
  }

  lemma {:induction false} Shuffled(y: nat, z: nat, blocks: nat)
    requires y < 32 * blocks && z < 32 * blocks && y != z
    ensures y % 32 * blocks + y / 32 != z % 32 * blocks + z / 32
  {
    ShuffleRange(y % 32, y / 32, blocks);
    ShuffleRange(z % 32, z / 32, blocks);
  }

  lemma {:induction false} SameBlock(x: nat, symbol: Symbol)
    requires symbol < 32
    ensures Xor(x, symbol) / 32 == x / 32
  {
    assert PowerOfTwo(5) == 32;
    XorKeepsHighBits(x, symbol, 5);
  }

  lemma {:induction false} FarApart(depth: nat, depth': nat, block: nat, blocks: nat)
    requires depth != depth' && blocks >= 16
    ensures (depth * blocks + block) / 16 != (depth' * blocks + block) / 16
  {
    if depth < depth' {
      MulBounds(blocks, depth' - depth);
      assert depth' * blocks == depth * blocks + blocks * (depth' - depth);
    } else {
      MulBounds(blocks, depth - depth');
      assert depth * blocks == depth' * blocks + blocks * (depth - depth');
    }
  }

  // ------------------------------------------------------------------
  // Hash of a whole prefix
  // ------------------------------------------------------------------

  function HashFrom(g: Geometry, start: nat, path: Path): nat
  {
    if |path| == 0 then start
    else AccumulateHash(g, HashFrom(g, start, path[..|path| - 1]), path[|path| - 1])
  }

  function HashOf(g: Geometry, path: Path): nat
  {
    HashFrom(g, HASH_START_VALUE, path)
  }

  lemma HashFromSnoc(g: Geometry, start: nat, path: Path, s: Symbol)
    ensures HashFrom(g, start, path + [s]) == AccumulateHash(g, HashFrom(g, start, path), s)
  {
    assert (path + [s])[..|path|] == path;
  }

  lemma {:induction false} HashFromConcat(g: Geometry, start: nat, p: Path, q: Path)
    ensures HashFrom(g, start, p + q) == HashFrom(g, HashFrom(g, start, p), q)
  {
    if |q| == 0 {
      assert p + q == p;
    } else {
      var q' := q[..|q| - 1];
      HashFromConcat(g, start, p, q');
      assert (p + q)[..|p + q| - 1] == p + q';
    }
  }

  lemma {:induction false} HashInRange(g: Geometry, start: nat, path: Path)
    requires g.Valid() && start < g.NumPairs()
    ensures HashFrom(g, start, path) < g.NumPairs()
  {
    if |path| > 0 {
      HashInRange(g, start, path[..|path| - 1]);
      AccumulateInRange(g, HashFrom(g, start, path[..|path| - 1]), path[|path| - 1]);
    }
  }

  // ------------------------------------------------------------------
  // Bucket pairs
  // ------------------------------------------------------------------

  function HashToBucket(h: nat): nat { h / TAG_VALUES }

  function HashToTag(h: nat): (t: nat)
    ensures t < TAG_VALUES
  {
    h % TAG_VALUES
  }

  // The secondary bucket of a pair, given the primary.
  function MixBucket(g: Geometry, bucket: nat, tag: nat): int
    requires |g.bucketMixTable| == TAG_VALUES && tag < TAG_VALUES
  {
    var result := bucket - g.bucketMixTable[tag];
    if result < 0 then result + g.numBuckets else result
  }

  // The primary bucket of a pair, given the secondary.
  function UnmixBucket(g: Geometry, bucket: nat, tag: nat): int
    requires |g.bucketMixTable| == TAG_VALUES && tag < TAG_VALUES
  {
    var result := bucket + g.bucketMixTable[tag];
    if result >= g.numBuckets then result - g.numBuckets else result
  }

  // Mixing and unmixing are inverse bijections on the buckets; a bucket is its
  // own alternate exactly when the mix value is zero.
  lemma MixUnmixInverse(g: Geometry, bucket: nat, tag: nat)
    requires g.Valid() && bucket < g.numBuckets && tag < TAG_VALUES
    ensures 0 <= MixBucket(g, bucket, tag) < g.numBuckets
    ensures 0 <= UnmixBucket(g, bucket, tag) < g.numBuckets
    ensures UnmixBucket(g, MixBucket(g, bucket, tag), tag) == bucket
    ensures MixBucket(g, UnmixBucket(g, bucket, tag), tag) == bucket
    ensures MixBucket(g, bucket, tag) == bucket <==> g.bucketMixTable[tag] == 0
  {
  }

  // The secondary bucket is the primary one less the mix value, modulo the number of buckets.
  lemma {:induction false} MixIsModular(g: Geometry, bucket: nat, tag: nat)
    requires g.Valid() && bucket < g.numBuckets && tag < TAG_VALUES
    ensures MixBucket(g, bucket, tag) == (bucket - g.bucketMixTable[tag]) % g.numBuckets
    ensures UnmixBucket(g, bucket, tag) == (bucket + g.bucketMixTable[tag]) % g.numBuckets
  {
    var n, m := g.numBuckets, g.bucketMixTable[tag];
    WrapsOnce(bucket - m, n);
    WrapsOnce(bucket + m, n);
  }

  lemma {:induction false} WrapsOnce(x: int, n: nat)
    requires 0 < n && 0 <= x + n && x < 2 * n
    ensures x % n == if x < 0 then x + n else if x >= n then x - n else x
  {
    if x < 0 {
      DivideExactly(x + n, n, 0, x + n);
      assert x == n * -1 + (x + n);
    }
  }

  // ------------------------------------------------------------------
  // The prefetcher
  // ------------------------------------------------------------------

  class KeyPrefetcher {
    const g: Geometry
    ghost const key: Key
    const keySymbols: array<Symbol>
    const prefixHashes: array<nat>
    var prefetchPrefixHash: nat
    var prefetchPos: nat
    var numKeySymbols: nat

    // Every hash below prefetchPos is ready, and they are the hashes of the
    // prefixes of the key.
    ghost predicate Valid()
      reads this, keySymbols, prefixHashes
    {
      && numKeySymbols == |Symbols(key)|
      && numKeySymbols <= keySymbols.Length
      && numKeySymbols <= prefixHashes.Length
      && prefetchPos <= numKeySymbols
      && (forall i: nat :: i < numKeySymbols ==> keySymbols[i] == Symbols(key)[i])
      && prefetchPrefixHash == HashOf(g, Symbols(key)[..prefetchPos])
      && (forall i: nat :: i < prefetchPos ==> prefixHashes[i] == HashOf(g, Symbols(key)[..i + 1]))
    }

    // Encodes the key and hashes its first four prefixes.
    constructor Start(g: Geometry, key: Key)
      ensures Valid() && fresh(keySymbols) && fresh(prefixHashes)
      ensures this.g == g && this.key == key
      ensures prefetchPos == if |Symbols(key)| < 4 then |Symbols(key)| else 4
    {
      this.g := g;
      this.key := key;
      numKeySymbols := NumDataSymbols(|key|) + 1;
      keySymbols := new Symbol[8 * ((|key| + 4) / 5) + 1];
      prefixHashes := new nat[NumDataSymbols(|key|) + 1];
      prefetchPrefixHash := HASH_START_VALUE;
      prefetchPos := 0;
      new;
      KeyToSymbols(key, keySymbols);
      keySymbols[numKeySymbols - 1] := SYMBOL_END;
      while prefetchPos < 4 && prefetchPos < numKeySymbols
        invariant Valid() && prefetchPos <= 4
        modifies prefixHashes, `prefetchPos, `prefetchPrefixHash
      {
        Step();
      }
    }

    lemma {:induction false} NextHash(n: nat, s: Symbol)
      requires n < |Symbols(key)| && s == Symbols(key)[n]
      ensures HashOf(g, Symbols(key)[..n + 1]) == AccumulateHash(g, HashOf(g, Symbols(key)[..n]), s)
    {
      HashFromSnoc(g, HASH_START_VALUE, Symbols(key)[..n], s);
      assert Symbols(key)[..n + 1] == Symbols(key)[..n] + [s];
    }

    // Computes one more prefix hash, if any is left.
    method Step()
      requires Valid()
      modifies prefixHashes, `prefetchPos, `prefetchPrefixHash
      ensures Valid()
      ensures prefetchPos == if old(prefetchPos) < numKeySymbols then old(prefetchPos) + 1 else old(prefetchPos)
    {
      if prefetchPos < numKeySymbols {
        var s := keySymbols[prefetchPos];
        NextHash(prefetchPos, s);
        prefetchPrefixHash := AccumulateHash(g, prefetchPrefixHash, s);
        prefixHashes[prefetchPos] := prefetchPrefixHash;
        prefetchPos := prefetchPos + 1;
      }
    }
  }
}
