/**
 The bytes behind a fixed-size pool: links and canaries as little-endian words in blocks
 of [front guard and padding][payload][back guard and padding].
 */
module FixedPoolModel {
  import opened Bits
  import opened Provider
  import opened BlockLayouts
  import opened BlockMemory
  import C = ChunkModel

  const FRONT_CANARY: nat := 0xA110CA7EA110CA7E
  const BACK_CANARY: nat := 0xB10CCAFEB10CCAFE
  const ALLOCATED_PATTERN: Byte := 0xCD
  const FREED_PATTERN: Byte := 0xDD

  datatype PoolOptions = PoolOptions(diagnostics: bool, poison: bool, guards: bool, statistics: bool)

  /**
   What the constructor establishes about the layout and the storage. The storage does not reach
   the top of the address space: the pool adds its begin and size without a check.
   */
  ghost predicate Shape(l: BlockLayout, storage: Addr, guards: bool) {
    && WORD <= l.blockStride && 0 < l.blockCount && 0 < l.alignment && l.alignment % WORD == 0
    && storage != 0 && storage % l.alignment == 0 && l.blockStride % l.alignment == 0
    && l.storageSize == l.blockStride * l.blockCount && storage + l.storageSize < SIZE_LIMIT
    && (if guards then WORD <= l.payloadOffset && l.payloadOffset + l.blockSize + WORD <= l.blockStride
        else l.payloadOffset == 0 && l.blockStride == l.blockSize)
  }

  /** Every layout the constructor accepts, placed where the provider put it, has this shape. */
  lemma LayoutHasShape(size: nat, count: nat, alignment: nat, guards: bool, storage: Addr)
    requires alignment <= SIZE_MAX
    requires var r := MakeLayout(size, count, alignment, guards, WORD, WORD, WORD);
             r.Ok? && storage != 0 && r.value.alignment != 0 && storage % r.value.alignment == 0
             && storage + r.value.storageSize < SIZE_LIMIT
    ensures var l := MakeLayout(size, count, alignment, guards, WORD, WORD, WORD).value;
            Shape(l, storage, guards) && size <= l.blockSize && alignment <= l.alignment && l.blockCount == count
  {
    assert IsPowerOfTwo(WORD) by {
      assert Pow2(3) == WORD;
      PowerOfTwoTest(WORD);
    }
    MakeLayoutSound(size, count, alignment, guards, WORD, WORD, WORD);
    var l := MakeLayout(size, count, alignment, guards, WORD, WORD, WORD).value;
    assert l.alignment == Max(alignment, WORD) by { hide RoundUp, CheckedMultiply, CheckedAdd, And; }
    PowersDivide(WORD, l.alignment);
  }

  // ---- payload addresses ----

  function Payload(l: BlockLayout, storage: Addr, k: nat): Addr {
    storage + At(l, k) + l.payloadOffset
  }

  /** `owns` and `is_block_start`; the end of the storage is computed in 64 bits. */
  predicate IsPayload(l: BlockLayout, storage: Addr, p: Addr)
    requires l.blockStride != 0
  {
    && p != 0 && storage <= p < (storage + l.storageSize) % SIZE_LIMIT
    && p - storage >= l.payloadOffset
    && (p - storage - l.payloadOffset) % l.blockStride == 0
    && (p - storage - l.payloadOffset) / l.blockStride < l.blockCount
  }

  /** `block_index`. */
  function IndexOf(l: BlockLayout, storage: Addr, p: Addr): nat
    requires l.blockStride != 0 && IsPayload(l, storage, p)
  {
    (p - storage - l.payloadOffset) / l.blockStride
  }

  /** Storage up to the very top of the address space would have its end wrap to zero: no pointer is accepted. */
  lemma TopOfMemoryAcceptsNothing(l: BlockLayout, storage: Addr, p: Addr)
    requires l.blockStride != 0 && storage + l.storageSize == SIZE_LIMIT
    ensures !IsPayload(l, storage, p)
  {
    MultipleModZero(1, SIZE_LIMIT);
  }

  /** A pointer is accepted exactly when it is the start of some block's payload. */
  lemma PayloadExact(l: BlockLayout, storage: Addr, guards: bool, p: Addr)
    requires Shape(l, storage, guards)
    ensures IsPayload(l, storage, p) <==> exists k: nat :: k < l.blockCount && p == Payload(l, storage, k)
    ensures IsPayload(l, storage, p) ==>
              IndexOf(l, storage, p) < l.blockCount && p == Payload(l, storage, IndexOf(l, storage, p))
  {
    if IsPayload(l, storage, p) {
      var k := IndexOf(l, storage, p);
      assert p - storage - l.payloadOffset == k * l.blockStride;
      assert p == Payload(l, storage, k);
    }
    forall k: nat | k < l.blockCount && p == Payload(l, storage, k)
      ensures IsPayload(l, storage, p)
    {
      IndexOfPayload(l, storage, guards, k);
    }
  }

  lemma IndexOfPayload(l: BlockLayout, storage: Addr, guards: bool, k: nat)
    requires Shape(l, storage, guards) && k < l.blockCount
    ensures var p := Payload(l, storage, k); IsPayload(l, storage, p) && IndexOf(l, storage, p) == k
  {
    BlockRange(l, k);
    DivModUnique(k * l.blockStride, l.blockStride, k, 0);
  }

  // ---- canaries ----

  function FrontAt(l: BlockLayout, k: nat): int {
    At(l, k) + l.payloadOffset - WORD
  }

  function BackAt(l: BlockLayout, k: nat): nat {
    At(l, k) + l.payloadOffset + l.blockSize
  }

  /** The bytes at `at` are those of the word `v`. */
  ghost predicate WordIs(mem: seq<Byte>, at: int, v: nat) {
    0 <= at && at + WORD <= |mem| && mem[at..at + WORD] == Encode(v, WORD)
  }

  /** Byte for byte, both canaries of block `k` are as written. */
  ghost predicate CanariesIntact(l: BlockLayout, mem: seq<Byte>, k: nat) {
    WordIs(mem, FrontAt(l, k), FRONT_CANARY) && WordIs(mem, BackAt(l, k), BACK_CANARY)
  }

  /** Changes elsewhere leave a word as it was. */
  lemma SliceKept(a: seq<Byte>, b: seq<Byte>, from: nat, to: nat, at: int, v: nat)
    requires SameOutside(a, b, from, to) && WordIs(a, at, v) && (at + WORD <= from || to <= at)
    ensures WordIs(b, at, v)
  {
    hide Encode;
    assert b[at..at + WORD] == a[at..at + WORD];
  }

  /** Guards, payload and padding of a guarded block stay inside it. */
  lemma GuardRange(l: BlockLayout, storage: Addr, k: nat)
    requires Shape(l, storage, true) && k < l.blockCount
    ensures At(l, k) <= FrontAt(l, k) && FrontAt(l, k) + WORD == At(l, k) + l.payloadOffset <= BackAt(l, k)
    ensures BackAt(l, k) + WORD <= At(l, k) + l.blockStride <= l.storageSize
  {
    BlockRange(l, k);
  }

  /** The comparison of decoded words is a comparison of all their bytes. */
  lemma CompareWords(s: seq<Byte>, v: nat)
    requires |s| == WORD && v < SIZE_LIMIT
    ensures Decode(s) == v <==> s == Encode(v, WORD)
  {
    WordRange();
    EncodeDecode(s);
    DecodeEncode(v, WORD);
  }

  /** Writes confined to payloads, of any block, never disturb a canary. */
  lemma PayloadWritesKeepCanaries(l: BlockLayout, storage: Addr, a: seq<Byte>, b: seq<Byte>, j: nat, k: nat)
    requires Shape(l, storage, true) && j < l.blockCount && k < l.blockCount && |a| == l.storageSize
    requires SameOutside(a, b, At(l, j) + l.payloadOffset, BackAt(l, j)) && CanariesIntact(l, a, k)
    ensures CanariesIntact(l, b, k)
  {
    GuardRange(l, storage, j);
    GuardRange(l, storage, k);
    if j != k {
      BlocksApart(l, j, k);
    }
    hide At, WordIs, SameOutside;
    SliceKept(a, b, At(l, j) + l.payloadOffset, BackAt(l, j), FrontAt(l, k), FRONT_CANARY);
    SliceKept(a, b, At(l, j) + l.payloadOffset, BackAt(l, j), BackAt(l, k), BACK_CANARY);
  }

  /** Changes inside block `j` do not reach the canaries of another block. */
  lemma OtherCanariesKept(l: BlockLayout, storage: Addr, a: seq<Byte>, b: seq<Byte>, j: nat, k: nat)
    requires Shape(l, storage, true) && j < l.blockCount && k < l.blockCount && j != k && |a| == l.storageSize
    requires SameOutside(a, b, At(l, j), At(l, j) + l.blockStride) && CanariesIntact(l, a, k)
    ensures CanariesIntact(l, b, k)
  {
    GuardRange(l, storage, k);
    BlocksApart(l, j, k);
    hide At, WordIs, SameOutside;
    SliceKept(a, b, At(l, j), At(l, j) + l.blockStride, FrontAt(l, k), FRONT_CANARY);
    SliceKept(a, b, At(l, j), At(l, j) + l.blockStride, BackAt(l, k), BACK_CANARY);
  }

  // ---- values that are never links ----

  /** Every link is null or a multiple of the word size. */
  lemma LinksAreAligned(c: C.Chunk, i: nat)
    requires 0 < c.alignment && c.alignment % WORD == 0 && c.storage % c.alignment == 0 && c.stride % c.alignment == 0
    ensures C.Link(c, i) % WORD == 0
  {
    if i < |c.free| {
      C.AlignedBlock(c, c.free[i]);
      ModTransitive(C.Link(c, i), WORD, c.alignment);
    }
  }

  lemma PatternIsNoLink(s: seq<Byte>)
    requires |s| == WORD && (s[0] == FREED_PATTERN || s == Encode(FRONT_CANARY, WORD))
    ensures Decode(s) % WORD != 0
  {
    if s == Encode(FRONT_CANARY, WORD) {
      CompareWords(s, FRONT_CANARY);
    } else {
      var d := Decode(s[1..]);
      assert Decode(s) == 0xDD + 256 * d;
      assert Decode(s) == 8 * (27 + 32 * d) + 5;
    }
  }
}
