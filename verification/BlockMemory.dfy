/**
 Bytes that hold equal-size blocks, with a little-endian word at the start of each: the link of a
 free block, and client data otherwise.
 */
module BlockMemory {
  import opened Bits
  import opened Provider
  import opened BlockLayouts
  import C = ChunkModel

  type Byte = x: int | 0 <= x < 256

  const WORD: nat := 8

  // ---- words in memory ----

  function Encode(v: nat, n: nat): (s: seq<Byte>)
    ensures |s| == n
  {
    if n == 0 then [] else [v % 256] + Encode(v / 256, n - 1)
  }

  function Decode(s: seq<Byte>): nat {
    if |s| == 0 then 0 else s[0] + 256 * Decode(s[1..])
  }

  function Range(n: nat): nat {
    if n == 0 then 1 else 256 * Range(n - 1)
  }

  lemma {:induction false} DecodeEncode(v: nat, n: nat)
    requires v < Range(n)
    ensures Decode(Encode(v, n)) == v
  {
    if n > 0 {
      DecodeEncode(v / 256, n - 1);
      assert Encode(v, n)[1..] == Encode(v / 256, n - 1);
    }
  }

  lemma {:induction false} EncodeDecode(s: seq<Byte>)
    ensures Encode(Decode(s), |s|) == s
  {
    if |s| > 0 {
      EncodeDecode(s[1..]);
      assert Decode(s) % 256 == s[0] && Decode(s) / 256 == Decode(s[1..]);
    }
  }

  lemma WordRange()
    ensures Range(WORD) == SIZE_LIMIT
  {
    assert Range(4) == 0x1_0000_0000;
    assert Range(8) == 0x1_0000_0000_0000_0000;
  }

  // ---- offsets ----

  /** The offset of block `k`. */
  function At(l: BlockLayout, k: nat): nat {
    k * l.blockStride
  }

  lemma BlockRange(l: BlockLayout, k: nat)
    requires k < l.blockCount && l.storageSize == l.blockStride * l.blockCount
    ensures At(l, k) + l.blockStride <= l.storageSize
  {
    C.MulOrder(k, l.blockCount, l.blockStride);
  }

  lemma BlocksApart(l: BlockLayout, j: nat, k: nat)
    requires j != k
    ensures At(l, j) + l.blockStride <= At(l, k) || At(l, k) + l.blockStride <= At(l, j)
  {
    if j < k {
      C.MulOrder(j, k, l.blockStride);
    } else {
      C.MulOrder(k, j, l.blockStride);
    }
  }

  // ---- links ----

  function WordAt(mem: seq<Byte>, at: nat): nat
    requires at + WORD <= |mem|
  {
    Decode(mem[at..at + WORD])
  }

  /** `n` bytes hold all blocks, and every block holds a link. */
  ghost predicate Covers(l: BlockLayout, n: nat) {
    n == l.storageSize == l.blockStride * l.blockCount && WORD <= l.blockStride
  }

  /** The word at the raw start of each block. */
  ghost function Words(l: BlockLayout, mem: seq<Byte>): (words: seq<Addr>)
    requires Covers(l, |mem|)
    ensures |words| == l.blockCount
  {
    seq(l.blockCount, k requires 0 <= k < l.blockCount => BlockRange(l, k); WordAt(mem, At(l, k)))
  }

  /** Only bytes in [from, to) differ. */
  ghost predicate SameOutside(a: seq<Byte>, b: seq<Byte>, from: nat, to: nat) {
    |a| == |b| && forall i :: 0 <= i < |a| && !(from <= i < to) ==> a[i] == b[i]
  }

  ghost predicate Filled(mem: seq<Byte>, from: nat, to: nat, value: Byte) {
    forall i :: from <= i < to && i < |mem| ==> mem[i] == value
  }

  /** Changing bytes that miss the word at the start of block `k` leaves it alone. */
  lemma WordKept(l: BlockLayout, a: seq<Byte>, b: seq<Byte>, from: nat, to: nat, k: nat)
    requires Covers(l, |a|)
    requires SameOutside(a, b, from, to) && k < l.blockCount && (to <= At(l, k) || At(l, k) + WORD <= from)
    ensures Words(l, a)[k] == Words(l, b)[k]
  {
    BlockRange(l, k);
    hide At;
    assert a[At(l, k)..At(l, k) + WORD] == b[At(l, k)..At(l, k) + WORD];
  }

  /** Changing bytes of block `k` leaves the words of all other blocks alone. */
  lemma OtherWordsKept(l: BlockLayout, a: seq<Byte>, b: seq<Byte>, k: nat)
    requires Covers(l, |a|)
    requires SameOutside(a, b, At(l, k), At(l, k) + l.blockStride)
    ensures forall j :: 0 <= j < l.blockCount && j != k ==> Words(l, a)[j] == Words(l, b)[j]
  {
    forall j | 0 <= j < l.blockCount && j != k
      ensures Words(l, a)[j] == Words(l, b)[j]
    {
      BlocksApart(l, j, k);
      WordKept(l, a, b, At(l, k), At(l, k) + l.blockStride, j);
    }
  }

  // ---- reading and writing ----

  method FillBytes(bytes: array<Byte>, from: nat, count: nat, value: Byte)
    requires from + count <= bytes.Length
    modifies bytes
    ensures SameOutside(old(bytes[..]), bytes[..], from, from + count)
    ensures Filled(bytes[..], from, from + count, value)
  {
    for i := 0 to count
      invariant SameOutside(old(bytes[..]), bytes[..], from, from + count)
      invariant forall j :: from <= j < from + i ==> bytes[j] == value
    {
      bytes[from + i] := value;
    }
  }

  method CopyBytes(bytes: array<Byte>, from: nat, data: seq<Byte>)
    requires from + |data| <= bytes.Length
    modifies bytes
    ensures SameOutside(old(bytes[..]), bytes[..], from, from + |data|)
    ensures bytes[from..from + |data|] == data
  {
    for i := 0 to |data|
      invariant SameOutside(old(bytes[..]), bytes[..], from, from + |data|)
      invariant forall j :: 0 <= j < i ==> bytes[from + j] == data[j]
    {
      bytes[from + i] := data[i];
    }
  }

  method ReadLink(bytes: array<Byte>, l: BlockLayout, k: nat) returns (link: Addr)
    requires Covers(l, bytes.Length) && k < l.blockCount
    ensures link == Words(l, bytes[..])[k]
  {
    BlockRange(l, k);
    link := Decode(bytes[At(l, k)..At(l, k) + WORD]);
    assert bytes[..][At(l, k)..At(l, k) + WORD] == bytes[At(l, k)..At(l, k) + WORD];
  }

  method WriteLink(bytes: array<Byte>, l: BlockLayout, k: nat, link: Addr)
    requires Covers(l, bytes.Length) && k < l.blockCount && link < SIZE_LIMIT
    modifies bytes
    ensures SameOutside(old(bytes[..]), bytes[..], At(l, k), At(l, k) + WORD)
    ensures Words(l, bytes[..])[k] == link
    ensures forall j :: 0 <= j < l.blockCount && j != k ==> Words(l, bytes[..])[j] == Words(l, old(bytes[..]))[j]
  {
    BlockRange(l, k);
    ghost var before := bytes[..];
    CopyBytes(bytes, At(l, k), Encode(link, WORD));
    OtherWordsKept(l, before, bytes[..], k);
    WordRange();
    DecodeEncode(link, WORD);
    assert bytes[..][At(l, k)..At(l, k) + WORD] == bytes[At(l, k)..At(l, k) + WORD];
  }
}
