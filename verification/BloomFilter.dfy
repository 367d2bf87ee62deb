/** The certificate revocation list: a bit-packed Bloom filter as a set of indices. */
module BloomFilter {
  import opened Common

  const TWO64 := 0x1_0000_0000_0000_0000

  /** SHA-256, as any function into 32 bytes. */
  type Digest = d: Bytes | |d| == 32 witness seq(32, _ => 0)

  type Sha256 = Bytes -> Digest

  function FromLeBytes(b: Bytes): (n: nat) {
    if b == [] then 0 else b[0] + 256 * FromLeBytes(b[1..])
  }

  /** The i-th probe, with the wrapping 64-bit arithmetic of the code. */
  function Probe(digest: Digest, i: nat, numBits: nat): (idx: nat)
    requires numBits > 0
    ensures idx < numBits
  {
    var h1, h2 := FromLeBytes(digest[0..8]), FromLeBytes(digest[8..16]);
    (h1 + i * h2 % TWO64) % TWO64 % numBits
  }

  /** Wrapping at every step is the same as wrapping once: the probes are an arithmetic
      progression modulo 2^64, before the reduction to the filter size. */
  lemma ProbesAreArithmetic(digest: Digest, i: nat, numBits: nat)
    requires numBits > 0
    ensures Probe(digest, i, numBits)
         == (FromLeBytes(digest[0..8]) + i * FromLeBytes(digest[8..16])) % TWO64 % numBits
  {
    WrapOnce(FromLeBytes(digest[0..8]), i * FromLeBytes(digest[8..16]));
  }

  lemma WrapOnce(h: nat, x: nat)
    ensures (h + x % TWO64) % TWO64 == (h + x) % TWO64
  {
    var q := x / TWO64;
    assert x == q * TWO64 + x % TWO64;
  }

  /** The size of a filter; the code's sizing formula always yields at least one hash for the CRL. */
  datatype Shape = Shape(numBits: nat, numHashes: nat)

  predicate ValidShape(shape: Shape) {
    shape.numBits > 0 && shape.numHashes > 0
  }

  function HashIndices(sha: Sha256, shape: Shape, data: Bytes): (r: seq<nat>)
    requires ValidShape(shape)
    ensures |r| == shape.numHashes && forall i :: 0 <= i < |r| ==> r[i] < shape.numBits
  {
    seq(shape.numHashes, i requires 0 <= i < shape.numHashes => Probe(sha(data), i, shape.numBits))
  }

  function ElementsOf(s: seq<nat>): set<nat> {
    set i | i in s
  }

  /** The bits that stand for one item. */
  function IndexSet(sha: Sha256, shape: Shape, data: Bytes): (r: set<nat>)
    requires ValidShape(shape)
    ensures r != {} && forall i :: i in r ==> i < shape.numBits
  {
    var indices := HashIndices(sha, shape, data);
    var r := ElementsOf(indices);
    assert indices[0] in r;
    r
  }

  /** The little-endian 64-bit word in bytes `at` to `at + 7`. */
  predicate IsWordAt(s: Bytes, at: nat, w: int)
    requires at + 8 <= |s|
  {
    w == WordOfBytes(s[at], s[at + 1], s[at + 2], s[at + 3], s[at + 4], s[at + 5], s[at + 6], s[at + 7])
  }

  function WordOfBytes(b0: int, b1: int, b2: int, b3: int, b4: int, b5: int, b6: int, b7: int): int {
    b0 + 0x100 * b1 + 0x1_0000 * b2 + 0x100_0000 * b3 + 0x1_0000_0000 * b4
    + 0x100_0000_0000 * b5 + 0x1_0000_0000_0000 * b6 + 0x100_0000_0000_0000 * b7
  }

  lemma LeStep(s: Bytes, at: nat)
    requires at < 8 <= |s|
    ensures FromLeBytes(s[at..8]) == s[at] as int + 256 * FromLeBytes(s[at + 1..8])
  {
    assert s[at..8][1..] == s[at + 1..8];
  }

  lemma LeWord(s: Bytes)
    requires |s| == 8
    ensures IsWordAt(s, 0, FromLeBytes(s))
  {
    LeStep(s, 0); LeStep(s, 1); LeStep(s, 2); LeStep(s, 3);
    LeStep(s, 4); LeStep(s, 5); LeStep(s, 6); LeStep(s, 7);
    assert s[0..8] == s && FromLeBytes(s[8..8]) == 0;
    hide FromLeBytes;
  }

  lemma DigestWords(s: Digest, h1: nat, h2: nat)
    requires IsWordAt(s, 0, h1) && IsWordAt(s, 8, h2)
    ensures FromLeBytes(s[0..8]) == h1 && FromLeBytes(s[8..16]) == h2
  {
    LeWord(s[0..8]);
    LeWord(s[8..16]);
    hide FromLeBytes, WordOfBytes;
  }

  /** The bits of an item are its double-hash probes, with the first two words of its digest:
      each probe is one of them, ... */
  lemma ProbesAreIndices(sha: Sha256, shape: Shape, data: Bytes, k: nat, h1: nat, h2: nat)
    requires ValidShape(shape) && k < shape.numHashes
    requires IsWordAt(sha(data), 0, h1) && IsWordAt(sha(data), 8, h2)
    ensures (h1 + k * h2) % 0x1_0000_0000_0000_0000 % shape.numBits in IndexSet(sha, shape, data)
  {
    DigestWords(sha(data), h1, h2);
    ProbesAreArithmetic(sha(data), k, shape.numBits);
    hide FromLeBytes, Probe, IsWordAt;
    assert HashIndices(sha, shape, data)[k] == Probe(sha(data), k, shape.numBits);
    hide HashIndices;
  }

  /** ... and each of them is a probe. */
  lemma IndicesAreProbes(sha: Sha256, shape: Shape, data: Bytes, i: nat, h1: nat, h2: nat) returns (k: nat)
    requires ValidShape(shape) && i in IndexSet(sha, shape, data)
    requires IsWordAt(sha(data), 0, h1) && IsWordAt(sha(data), 8, h2)
    ensures k < shape.numHashes && i == (h1 + k * h2) % 0x1_0000_0000_0000_0000 % shape.numBits
  {
    hide FromLeBytes, Probe, IsWordAt;
    k :| k < shape.numHashes && HashIndices(sha, shape, data)[k] == i;
    DigestWords(sha(data), h1, h2);
    ProbesAreArithmetic(sha(data), k, shape.numBits);
  }

  // ---- Bits in words ----

  /** `m << n`, one place at a time. */
  function ShiftLeft(m: bv64, n: nat): bv64
    decreases n
  {
    if n == 0 then m else ShiftLeft(Double(m), n - 1)
  }

  function Double(m: bv64): bv64 {
    m << 1
  }

  /** `1u64 << k`. */
  function Mask(k: nat): bv64 {
    ShiftLeft(1, k)
  }

  function Or(w: bv64, m: bv64): bv64 {
    w | m
  }

  predicate Overlaps(w: bv64, m: bv64) {
    w & m != 0
  }

  predicate Bit(w: bv64, k: nat) {
    Overlaps(w, Mask(k))
  }

  const TOP: bv64 := 0x8000_0000_0000_0000

  predicate AtMostOneBit(m: bv64) {
    m & (m - 1) == 0
  }

  lemma DoubleFacts(m: bv64)
    ensures AtMostOneBit(m) ==> AtMostOneBit(Double(m))
    ensures Double(0) == 0 && Double(TOP) == 0
  {
  }

  lemma {:induction false} ShiftKeepsOneBit(m: bv64, n: nat)
    requires AtMostOneBit(m)
    ensures AtMostOneBit(ShiftLeft(m, n))
    ensures m == 0 ==> ShiftLeft(m, n) == 0
    ensures m == TOP && n > 0 ==> ShiftLeft(m, n) == 0
    decreases n
  {
    DoubleFacts(m);
    hide Double, AtMostOneBit;
    if n > 0 {
      ShiftKeepsOneBit(Double(m), n - 1);
    }
  }

  lemma {:induction false} ShiftsCompose(m: bv64, a: nat, b: nat)
    ensures ShiftLeft(m, a + b) == ShiftLeft(ShiftLeft(m, a), b)
    decreases a
  {
    hide Double;
    if a > 0 {
      ShiftsCompose(Double(m), a - 1, b);
    }
  }

  lemma ShiftBy2(m: bv64)
    ensures ShiftLeft(m, 2) == Double(Double(m))
  {
  }

  lemma ShiftBy8(m: bv64)
    ensures ShiftLeft(m, 8) == NextByte(m)
  {
    var m2 := Double(Double(m));
    var m4 := Double(Double(m2));
    var m6 := Double(Double(m4));
    ShiftsCompose(m, 2, 6);
    ShiftsCompose(m2, 2, 4);
    ShiftsCompose(m4, 2, 2);
    ShiftBy2(m);
    ShiftBy2(m2);
    ShiftBy2(m4);
    ShiftBy2(m6);
    assert Double(Double(m6)) == m << 8;
  }

  function NextByte(m: bv64): bv64 {
    m << 8
  }

  lemma MaskInNextByte(k: nat)
    ensures Mask(k + 8) == NextByte(Mask(k))
  {
    hide ShiftLeft, NextByte;
    ShiftsCompose(1, k, 8);
    ShiftBy8(Mask(k));
  }

  lemma LastMaskIsTop()
    ensures Mask(63) == TOP
  {
    assert Mask(7) == 0x80;
    hide Mask;
    MaskInNextByte(7);
    MaskInNextByte(15);
    MaskInNextByte(23);
    MaskInNextByte(31);
    MaskInNextByte(39);
    MaskInNextByte(47);
    MaskInNextByte(55);
  }

  lemma MasksAreSingleBits(k: nat)
    requires k < 64
    ensures Mask(k) != 0 && AtMostOneBit(Mask(k)) && ShiftLeft(Mask(k), 63 - k) == TOP
  {
    assert AtMostOneBit(1) && AtMostOneBit(0);
    hide AtMostOneBit, ShiftLeft;
    ShiftKeepsOneBit(1, k);
    ShiftsCompose(1, k, 63 - k);
    LastMaskIsTop();
    ShiftKeepsOneBit(0, 63 - k);
  }

  lemma MasksAreDistinct(j: nat, k: nat)
    requires j < k < 64
    ensures Mask(j) != Mask(k)
  {
    MasksAreSingleBits(j);
    MasksAreSingleBits(k);
    ShiftsCompose(Mask(k), 63 - k, k - j);
    ShiftKeepsOneBit(TOP, k - j);
  }

  lemma NextNativeShift(b: bv6)
    requires b < 63
    ensures (b + 1) as nat == b as nat + 1 && (1 as bv64) << (b + 1) == Double((1 as bv64) << b)
  {
  }

  /** The mask is the machine's shift of 1 by the six-bit place of the bit. */
  lemma {:induction false} MaskIsNativeShift(k: nat) returns (place: bv6)
    requires k < 64
    ensures place as nat == k && Mask(k) == (1 as bv64) << place
  {
    place := 0;
    if k > 0 {
      var before := MaskIsNativeShift(k - 1);
      NextNativeShift(before);
      place := before + 1;
      ShiftsCompose(1, k - 1, 1);
      assert ShiftLeft(Mask(k - 1), 1) == Double(Mask(k - 1));
      hide Double, ShiftLeft;
    }
  }

  lemma SingleBitsAreDisjoint(a: bv64, b: bv64)
    requires AtMostOneBit(a) && AtMostOneBit(b) && a != b
    ensures a & b == 0
  {
  }

  lemma AndDistributes(w: bv64, a: bv64, b: bv64)
    ensures (w | a) & b == (w & b) | (a & b)
  {
  }

  lemma OrZero(x: bv64)
    ensures x | 0 == x
  {
  }

  lemma OrKeepsOthers(w: bv64, a: bv64, b: bv64)
    requires a & b == 0
    ensures Overlaps(Or(w, a), b) <==> Overlaps(w, b)
  {
    AndDistributes(w, a, b);
    OrZero(w & b);
  }

  lemma OrSetsItsBit(w: bv64, b: bv64)
    requires b != 0
    ensures Overlaps(Or(w, b), b)
  {
    assert (w | b) & b == b;
  }

  lemma OrAddsOneBit(w: bv64, a: bv64, b: bv64)
    requires AtMostOneBit(a) && b != 0 && AtMostOneBit(b)
    ensures Overlaps(Or(w, a), b) <==> (a == b || Overlaps(w, b))
  {
    hide Overlaps, Or, AtMostOneBit;
    if a == b {
      OrSetsItsBit(w, b);
    } else {
      SingleBitsAreDisjoint(a, b);
      OrKeepsOthers(w, a, b);
    }
  }

  lemma SetBit(w: bv64, j: nat, k: nat)
    requires j < 64 && k < 64
    ensures Bit(Or(w, Mask(j)), k) <==> (j == k || Bit(w, k))
  {
    hide Or, Overlaps, Mask, AtMostOneBit;
    MasksAreSingleBits(j);
    MasksAreSingleBits(k);
    if j < k {
      MasksAreDistinct(j, k);
    } else if k < j {
      MasksAreDistinct(k, j);
    }
    OrAddsOneBit(w, Mask(j), Mask(k));
  }

  lemma ZeroBit(k: nat)
    ensures !Bit(0, k)
  {
    hide Mask;
  }

  function WordOf(idx: nat, words: nat): (w: nat)
    requires idx < 64 * words
    ensures w < words
  {
    idx / 64
  }

  function BitOf(idx: nat): (b: nat)
    ensures b < 64
  {
    idx % 64
  }

  lemma PositionsAreDistinct(i: nat, j: nat, words: nat)
    requires i < 64 * words && j < 64 * words
    ensures i == j <==> WordOf(i, words) == WordOf(j, words) && BitOf(i) == BitOf(j)
  {
  }

  /** The indices set in a word array. */
  function SetBits(words: seq<bv64>): set<nat> {
    set i: nat | 0 <= i < 64 * |words| && Bit(words[WordOf(i, |words|)], BitOf(i))
  }

  function WithBit(words: seq<bv64>, idx: nat): seq<bv64>
    requires idx < 64 * |words|
  {
    var w := WordOf(idx, |words|);
    words[w := Or(words[w], Mask(BitOf(idx)))]
  }

  lemma SetOneBit(words: seq<bv64>, idx: nat)
    requires idx < 64 * |words|
    ensures SetBits(WithBit(words, idx)) == SetBits(words) + {idx}
  {
    var n, changed := |words|, WithBit(words, idx);
    hide WordOf, BitOf, Mask, Bit;
    forall i: nat | i < 64 * n
      ensures Bit(changed[WordOf(i, n)], BitOf(i)) <==> (i == idx || Bit(words[WordOf(i, n)], BitOf(i)))
    {
      SetBit(words[WordOf(idx, n)], BitOf(idx), BitOf(i));
      PositionsAreDistinct(i, idx, n);
    }
  }

  lemma NoBitsSet(words: seq<bv64>)
    requires forall i :: 0 <= i < |words| ==> words[i] == 0
    ensures SetBits(words) == {}
  {
    hide Bit;
    forall i: nat | i < 64 * |words| ensures !Bit(words[WordOf(i, |words|)], BitOf(i)) {
      ZeroBit(BitOf(i));
    }
  }

  function WordCount(numBits: nat): (words: nat)
    ensures numBits <= 64 * words < numBits + 64
  {
    (numBits + 63) / 64
  }

  class BloomFilter {
    const sha: Sha256
    const shape: Shape
    const bits: array<bv64>

    predicate Valid() {
      ValidShape(shape) && bits.Length == WordCount(shape.numBits)
    }

    function Indices(): set<nat>
      reads bits
    {
      SetBits(bits[..])
    }

    constructor (sha: Sha256, shape: Shape)
      requires ValidShape(shape)
      ensures Valid() && fresh(bits) && this.sha == sha && this.shape == shape
      ensures Indices() == {}
    {
      this.sha, this.shape := sha, shape;
      bits := new bv64[WordCount(shape.numBits)](_ => 0);
      new;
      NoBitsSet(bits[..]);
    }

    /** Adds exactly the item's indices, and never indexes out of bounds. */
    method Insert(data: Bytes)
      requires Valid()
      modifies bits
      ensures Indices() == old(Indices()) + IndexSet(sha, shape, data)
    {
      var indices := HashIndices(sha, shape, data);
      hide SetBits, Mask, HashIndices, WordOf, BitOf, WordCount;
      for k := 0 to |indices|
        invariant Indices() == old(Indices()) + ElementsOf(indices[..k])
      {
        var idx := indices[k];
        SetOneBit(bits[..], idx);
        ghost var before := bits[..];
        var word := WordOf(idx, bits.Length);
        bits[word] := Or(bits[word], Mask(BitOf(idx)));
        assert bits[..] == WithBit(before, idx);
        assert ElementsOf(indices[..k + 1]) == ElementsOf(indices[..k]) + {idx};
      }
      assert indices[..|indices|] == indices;
    }

    method Contains(data: Bytes) returns (found: bool)
      requires Valid()
      ensures found == (IndexSet(sha, shape, data) <= Indices())
    {
      var indices := HashIndices(sha, shape, data);
      for k := 0 to |indices|
        invariant forall j :: 0 <= j < k ==> indices[j] in Indices()
      {
        var idx := indices[k];
        if !Overlaps(bits[WordOf(idx, bits.Length)], Mask(BitOf(idx))) {
          assert idx in IndexSet(sha, shape, data) && idx !in Indices();
          return false;
        }
        assert idx in Indices();
      }
      return true;
    }
  }

  // ---- Runs of inserts ----

  /** The bits after inserting the items in order. */
  function Filled(sha: Sha256, shape: Shape, items: seq<Bytes>): set<nat>
    requires ValidShape(shape)
  {
    if items == [] then {} else Filled(sha, shape, items[..|items| - 1]) + IndexSet(sha, shape, items[|items| - 1])
  }

  predicate MayContain(sha: Sha256, shape: Shape, items: seq<Bytes>, data: Bytes)
    requires ValidShape(shape)
  {
    IndexSet(sha, shape, data) <= Filled(sha, shape, items)
  }

  /** An index is set exactly when some inserted item hashes to it. */
  lemma {:induction false} FilledIsUnion(sha: Sha256, shape: Shape, items: seq<Bytes>, i: nat)
    requires ValidShape(shape)
    ensures i in Filled(sha, shape, items) <==> exists d :: d in items && i in IndexSet(sha, shape, d)
  {
    if items != [] {
      var last := |items| - 1;
      FilledIsUnion(sha, shape, items[..last], i);
      assert items == items[..last] + [items[last]];
    }
  }

  /** The filter depends only on which items were inserted: not on order, not on repetition. */
  lemma FilledDependsOnItemsOnly(sha: Sha256, shape: Shape, a: seq<Bytes>, b: seq<Bytes>)
    requires ValidShape(shape) && forall d :: d in a <==> d in b
    ensures Filled(sha, shape, a) == Filled(sha, shape, b)
  {
    forall i: nat ensures i in Filled(sha, shape, a) <==> i in Filled(sha, shape, b) {
      FilledIsUnion(sha, shape, a, i);
      FilledIsUnion(sha, shape, b, i);
    }
  }

  /** More inserts never lose a member, and nothing inserted is ever reported absent. */
  lemma NoFalseNegatives(sha: Sha256, shape: Shape, items: seq<Bytes>, more: seq<Bytes>, d: Bytes)
    requires ValidShape(shape)
    ensures d in items ==> MayContain(sha, shape, items, d)
    ensures MayContain(sha, shape, items, d) ==> MayContain(sha, shape, items + more, d)
  {
    forall i: nat | i in Filled(sha, shape, items) ensures i in Filled(sha, shape, items + more) {
      FilledIsUnion(sha, shape, items, i);
      FilledIsUnion(sha, shape, items + more, i);
    }
    if d in items {
      forall i: nat | i in IndexSet(sha, shape, d) ensures i in Filled(sha, shape, items) {
        FilledIsUnion(sha, shape, items, i);
      }
    }
  }

  /** An item is reported present exactly when inserted items together cover all its indices. */
  lemma PresentIffCovered(sha: Sha256, shape: Shape, items: seq<Bytes>, data: Bytes)
    requires ValidShape(shape)
    ensures MayContain(sha, shape, items, data)
        <==> forall i :: i in IndexSet(sha, shape, data) ==> exists d :: d in items && i in IndexSet(sha, shape, d)
  {
    forall i: nat ensures i in Filled(sha, shape, items) <==> exists d :: d in items && i in IndexSet(sha, shape, d) {
      FilledIsUnion(sha, shape, items, i);
    }
  }
}
