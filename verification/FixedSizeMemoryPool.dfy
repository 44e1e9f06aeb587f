/**
 The stand-alone fixed-size pool over real bytes. Whatever its options, it is a LIFO stack of
 block indices; its free list lives in the same bytes as its clients' data.
 */
module FixedSizeMemoryPools {
  import opened Bits
  import opened Provider
  import opened BlockLayouts
  import opened BlockMemory
  import opened FixedPoolModel
  import C = ChunkModel
  import M = ManagerModel

  datatype Verdict = Unavailable | Intact | Damaged

  datatype FreeOutcome = Freed | Ignored | InvalidPointer | Corrupted | DoubleFree

  // ---- the list after a change of bytes ----

  lemma PopList(c: C.Chunk, words: seq<Addr>, head: Addr)
    requires C.ChunkOk(c) && C.Threaded(c, words, head) && |c.free| > 0
    ensures var n, k := c.(free := c.free[1..]), c.free[0];
            && C.ChunkOk(n) && k < c.count && C.Threaded(n, words, words[k]) && k !in n.free
            && c.stride != 0 && c.storage <= head && C.BlockIndex(c.storage, c.stride, head) == k
  {
    var states := seq(c.count, k => k !in c.free);
    C.PopThreaded(c, words, head, states);
    C.AllocateOk(c);
    C.IndexOfBlock(c, c.free[0]);
  }

  lemma PushList(c: C.Chunk, a: seq<Addr>, b: seq<Addr>, head: Addr, k: nat)
    requires C.ChunkOk(c) && C.Threaded(c, a, head) && k < c.count && k !in c.free
    requires |b| == |a| && b[k] == head && forall j :: 0 <= j < |a| && j != k ==> b[j] == a[j]
    ensures var n := c.(free := [k] + c.free); C.ChunkOk(n) && C.Threaded(n, b, C.BlockAddress(c.storage, c.stride, k))
  {
    C.ThreadPush(c, a, head, k);
    assert b == a[k := head];
  }

  lemma NothingListed(l: BlockLayout, storage: Addr, guards: bool, words: seq<Addr>)
    requires Shape(l, storage, guards) && |words| == l.blockCount
    ensures var c := C.Chunk(storage, l.blockStride, l.blockCount, l.alignment, []);
            C.ChunkOk(c) && C.Threaded(c, words, 0)
  {
  }

  lemma AllListed(c: C.Chunk, states: seq<bool>, diagnostics: bool)
    requires |c.free| == c.count && forall i :: 0 <= i < |c.free| ==> c.free[i] == i
    requires diagnostics ==> |states| == c.count && forall i :: 0 <= i < |states| ==> !states[i]
    ensures diagnostics ==> C.StatesOk(c, states)
    ensures forall k: nat :: k < c.count ==> k in c.free
  {
    forall k: nat | k < c.count
      ensures k in c.free
    {
      assert c.free[k] == k;
    }
  }

  lemma SameAsItself(mem: seq<Byte>, from: nat, to: nat)
    ensures SameOutside(mem, mem, from, to)
  {
  }

  lemma Widen(a: seq<Byte>, b: seq<Byte>, from: nat, to: nat, lower: nat, upper: nat)
    requires SameOutside(a, b, from, to) && lower <= from && to <= upper
    ensures SameOutside(a, b, lower, upper)
  {
  }

  lemma FilledKept(a: seq<Byte>, b: seq<Byte>, from: nat, to: nat, first: nat, last: nat)
    requires SameOutside(a, b, from, to) && (to <= first || last <= from)
    requires Filled(a, first, last, ALLOCATED_PATTERN)
    ensures Filled(b, first, last, ALLOCATED_PATTERN)
  {
  }

  lemma Compose(a: seq<Byte>, b: seq<Byte>, c: seq<Byte>, from: nat, to: nat)
    requires SameOutside(a, b, from, to) && SameOutside(b, c, from, to)
    ensures SameOutside(a, c, from, to)
  {
  }

  /** The head of the list is marked free; marking it allocated matches popping it. */
  lemma MarkOne(c: C.Chunk, states: seq<bool>)
    requires C.ChunkOk(c) && C.StatesOk(c, states) && |c.free| > 0
    ensures var k := c.free[0]; k < c.count && !states[k] && C.StatesOk(c.(free := c.free[1..]), states[k := true])
  {
    C.AllocateOk(c);
  }

  /** A block marked allocated; marking it free matches pushing it. */
  lemma UnmarkOne(c: C.Chunk, states: seq<bool>, k: nat)
    requires C.StatesOk(c, states) && k < c.count
    ensures states[k] <==> k !in c.free
    ensures C.StatesOk(c.(free := [k] + c.free), states[k := false])
  {
  }

  // ---- the abstract stack ----

  datatype TraceOp = Take | Give(block: nat) | Write(block: nat, at: nat, data: seq<Byte>)

  /** Clients free and write only blocks they own, and write only into the payload. */
  predicate Legal(stack: seq<nat>, count: nat, size: nat, op: TraceOp) {
    match op
    case Take => true
    case Give(k) => k < count && k !in stack
    case Write(k, at, data) => k < count && k !in stack && at + |data| <= size
  }

  function StackAfter(stack: seq<nat>, op: TraceOp): seq<nat> {
    match op
    case Take => if stack == [] then [] else stack[1..]
    case Give(k) => [k] + stack
    case Write(_, _, _) => stack
  }

  function Answer(stack: seq<nat>, op: TraceOp): seq<Option<nat>> {
    match op
    case Take => [if stack == [] then None else Some(stack[0])]
    case Give(_) => []
    case Write(_, _, _) => []
  }

  predicate AllLegal(stack: seq<nat>, count: nat, size: nat, ops: seq<TraceOp>)
    decreases |ops|
  {
    |ops| == 0 || (Legal(stack, count, size, ops[0]) && AllLegal(StackAfter(stack, ops[0]), count, size, ops[1..]))
  }

  /** What a LIFO stack answers: no options, no bytes. */
  function Results(stack: seq<nat>, ops: seq<TraceOp>): seq<Option<nat>>
    decreases |ops|
  {
    if |ops| == 0 then [] else Answer(stack, ops[0]) + Results(StackAfter(stack, ops[0]), ops[1..])
  }

  lemma NoResults(stack: seq<nat>)
    ensures Results(stack, []) == []
  {
  }

  lemma FirstOp(stack: seq<nat>, count: nat, size: nat, ops: seq<TraceOp>, i: nat)
    requires i < |ops| && AllLegal(stack, count, size, ops[i..])
    ensures Legal(stack, count, size, ops[i]) && AllLegal(StackAfter(stack, ops[i]), count, size, ops[i + 1..])
    ensures Results(stack, ops[i..]) == Answer(stack, ops[i]) + Results(StackAfter(stack, ops[i]), ops[i + 1..])
  {
    assert ops[i..][1..] == ops[i + 1..];
  }

  lemma {:induction false} LegalGrows(stack: seq<nat>, count: nat, size: nat, larger: nat, ops: seq<TraceOp>)
    requires AllLegal(stack, count, size, ops) && size <= larger
    ensures AllLegal(stack, count, larger, ops)
    decreases |ops|
  {
    if |ops| > 0 {
      LegalGrows(StackAfter(stack, ops[0]), count, size, larger, ops[1..]);
    }
  }

  /** The layout is accepted and `storage` is where the provider put it. */
  ghost predicate Buildable(size: nat, count: nat, alignment: nat, guards: bool, storage: Addr)
    requires alignment <= SIZE_MAX
  {
    var r := MakeLayout(size, count, alignment, guards, WORD, WORD, WORD);
    r.Ok? && storage != 0 && r.value.alignment != 0 && storage % r.value.alignment == 0
        && storage + r.value.storageSize < SIZE_LIMIT
  }

  // ---- walking a list that may be corrupt ----

  /** Following the links from `head` has visited `indices` and stands at `node`. */
  ghost predicate Walked(c: C.Chunk, words: seq<Addr>, head: Addr, indices: seq<nat>, node: Addr) {
    && |words| == c.count
    && (forall i :: 0 <= i < |indices| ==> indices[i] < c.count)
    && (if |indices| == 0 then node == head
        else head == c.Block(indices[0]).start && node == words[indices[|indices| - 1]])
    && forall i :: 0 < i < |indices| ==> words[indices[i - 1]] == c.Block(indices[i]).start
  }

  lemma WalkOn(c: C.Chunk, words: seq<Addr>, head: Addr, indices: seq<nat>, node: Addr, k: nat)
    requires Walked(c, words, head, indices, node) && k < c.count && node == c.Block(k).start
    ensures Walked(c, words, head, indices + [k], words[k])
  {
  }

  /** Any list the links describe begins with what has been visited and goes on at `node`. */
  lemma {:induction false} WalkIsPrefix(c: C.Chunk, words: seq<Addr>, head: Addr, indices: seq<nat>, node: Addr,
      list: seq<nat>)
    requires Walked(c, words, head, indices, node)
    requires C.ChunkOk(c.(free := list)) && C.Threaded(c.(free := list), words, head)
    ensures |indices| <= |list| && list[..|indices|] == indices && node == C.Link(c.(free := list), |indices|)
  {
    var n := |indices|;
    if n > 0 {
      var rest, k := indices[..n - 1], indices[n - 1];
      hide Walked, C.Threaded, C.ChunkOk, C.Link, C.BlockAddress;
      assert indices == rest + [k];
      WalkBefore(c, words, head, indices, node);
      WalkIsPrefix(c, words, head, rest, c.Block(k).start, list);
      PrefixStep(c, words, head, rest, k, list);
    }
  }

  /** A list that goes on at block `k` has `k` next, and goes on where the word of `k` says. */
  lemma PrefixStep(c: C.Chunk, words: seq<Addr>, head: Addr, rest: seq<nat>, k: nat, list: seq<nat>)
    requires C.ChunkOk(c.(free := list)) && C.Threaded(c.(free := list), words, head)
    requires k < c.count == |words| && |rest| <= |list| && list[..|rest|] == rest
    requires c.Block(k).start == C.Link(c.(free := list), |rest|)
    ensures |rest| < |list| && list[..|rest| + 1] == rest + [k]
    ensures words[k] == C.Link(c.(free := list), |rest| + 1)
  {
    ListedThere(c, list, |rest|, k);
    hide C.ChunkOk, C.Link, C.BlockAddress;
    assert words[list[|rest|]] == C.Link(c.(free := list), |rest| + 1);
  }

  /** One step earlier the walk stood at the block it visited last. */
  lemma WalkBefore(c: C.Chunk, words: seq<Addr>, head: Addr, indices: seq<nat>, node: Addr)
    requires Walked(c, words, head, indices, node) && |indices| > 0
    ensures var n := |indices| - 1;
            && Walked(c, words, head, indices[..n], c.Block(indices[n]).start)
            && indices[n] < c.count == |words| && node == words[indices[n]]
  {
    hide C.BlockAddress;
  }

  /** A link that leads to block `k` means that block `k` is listed there. */
  lemma ListedThere(c: C.Chunk, list: seq<nat>, i: nat, k: nat)
    requires C.ChunkOk(c.(free := list)) && k < c.count && C.Link(c.(free := list), i) == c.Block(k).start
    ensures i < |list| && list[i] == k
  {
    C.IndexOfBlock(c, k);
    if i < |list| {
      C.IndexOfBlock(c, list[i]);
    }
  }

  ghost predicate Described(c: C.Chunk, words: seq<Addr>, head: Addr, list: seq<nat>) {
    C.ChunkOk(c.(free := list)) && C.Threaded(c.(free := list), words, head)
  }

  lemma StrayLink(c: C.Chunk, words: seq<Addr>, head: Addr, indices: seq<nat>, node: Addr)
    requires C.ChunkOk(c) && c.stride != 0 && Walked(c, words, head, indices, node) && node != 0
    requires !C.StartsBlock(c.storage, c.stride, c.count, node)
    ensures forall list :: !Described(c, words, head, list)
  {
    forall list
      ensures !Described(c, words, head, list)
    {
      if Described(c, words, head, list) {
        WalkIsPrefix(c, words, head, indices, node, list);
        C.IndexOfBlock(c, list[|indices|]);
        hide C.StartsBlock, C.BlockIndex, C.BlockAddress, Walked;
      }
    }
  }

  lemma TooLong(c: C.Chunk, words: seq<Addr>, head: Addr, indices: seq<nat>, node: Addr)
    requires Walked(c, words, head, indices, node) && |indices| > c.count
    ensures forall list :: !Described(c, words, head, list)
  {
    forall list
      ensures !Described(c, words, head, list)
    {
      if Described(c, words, head, list) {
        WalkIsPrefix(c, words, head, indices, node, list);
        M.FreeAtMost(c.(free := list));
      }
    }
  }

  /** At the null link, what was visited is the only list there can be. */
  lemma WalkDone(c: C.Chunk, words: seq<Addr>, head: Addr, indices: seq<nat>)
    requires C.ChunkOk(c) && Walked(c, words, head, indices, 0)
    ensures C.Threaded(c.(free := indices), words, head)
    ensures forall list :: Described(c, words, head, list) ==> list == indices
  {
    forall list | Described(c, words, head, list)
      ensures list == indices
    {
      WalkIsPrefix(c, words, head, indices, 0, list);
      if |indices| < |list| {
        C.IndexOfBlock(c, list[|indices|]);
      }
    }
  }

  /**
   `validate_free_blocks`: the list has the expected length, names blocks that exist, each at
   most once, and names exactly those marked free.
   */
  method ValidateFreeBlocks(states: seq<bool>, indices: seq<nat>, expected: nat) returns (ok: bool)
    ensures ok <==>
              && |indices| == expected
              && (forall i :: 0 <= i < |indices| ==> indices[i] < |states|)
              && (forall i, j :: 0 <= i < j < |indices| ==> indices[i] != indices[j])
              && (forall k :: 0 <= k < |states| ==> (states[k] <==> k !in indices))
  {
    if |indices| != expected {
      return false;
    }
    var seen := new bool[|states|](_ => false);
    for n := 0 to |indices|
      invariant forall i :: 0 <= i < n ==> indices[i] < |states| && !states[indices[i]]
      invariant forall i, j :: 0 <= i < j < n ==> indices[i] != indices[j]
      invariant forall k :: 0 <= k < |states| ==> (seen[k] <==> k in indices[..n])
    {
      if indices[n] >= |states| || seen[indices[n]] || states[indices[n]] {
        return false;
      }
      seen[indices[n]] := true;
      assert indices[..n + 1] == indices[..n] + [indices[n]];
    }
    assert indices[..|indices|] == indices;
    for k := 0 to |states|
      invariant forall j :: 0 <= j < k ==> (states[j] <==> j !in indices)
    {
      if !states[k] != seen[k] {
        return false;
      }
    }
    return true;
  }

  class FixedSizeMemoryPool {
    const storage: Addr
    const layout: BlockLayout
    const opts: PoolOptions
    const bytes: array<Byte>
    var freeHead: Addr
    var freeBlocks: nat
    /** The diagnostic table, true for allocated; empty without diagnostics. */
    var states: seq<bool>
    ghost var stack: seq<nat>

    function FastPath(): bool {
      !opts.diagnostics && !opts.poison && !opts.guards && !opts.statistics
    }

    ghost function ChunkWith(list: seq<nat>): C.Chunk {
      C.Chunk(storage, layout.blockStride, layout.blockCount, layout.alignment, list)
    }

    ghost predicate Sound()
      reads this
    {
      && Shape(layout, storage, opts.guards)
      && bytes.Length == layout.storageSize && Covers(layout, bytes.Length)
      && (opts.diagnostics ==> |states| == layout.blockCount)
    }

    ghost predicate ListIs(list: seq<nat>)
      reads this, bytes
      requires Sound()
    {
      C.ChunkOk(ChunkWith(list)) && C.Threaded(ChunkWith(list), Words(layout, bytes[..]), freeHead)
    }

    /** The bytes, the head, the count and the table all describe the free stack `list`. */
    ghost predicate Represents(list: seq<nat>)
      reads this, bytes
      requires Sound()
    {
      && ListIs(list) && freeBlocks == |list|
      && (opts.diagnostics ==> C.StatesOk(ChunkWith(list), states))
    }

    ghost predicate Valid()
      reads this, bytes
    {
      Sound() && Represents(stack)
    }

    /** Every block in use has its canaries, if there are guards. */
    ghost predicate GuardsIntact()
      reads this, bytes
    {
      opts.guards ==> forall k: nat :: k < layout.blockCount && k !in stack ==> CanariesIntact(layout, bytes[..], k)
    }

    constructor (storage: Addr, layout: BlockLayout, opts: PoolOptions)
      requires Shape(layout, storage, opts.guards)
      ensures Valid() && fresh(bytes) && GuardsIntact()
      ensures this.storage == storage && this.layout == layout && this.opts == opts
      ensures stack == C.Indices(layout.blockCount)
    {
      this.storage, this.layout, this.opts := storage, layout, opts;
      states := if opts.diagnostics then seq(layout.blockCount, i => false) else [];
      bytes := new Byte[layout.storageSize];
      freeHead, freeBlocks, stack := 0, 0, [];
      new;
      InitializeFreeList();
      C.UpwardsAll(layout.blockCount);
      AllListed(ChunkWith(stack), states, opts.diagnostics);
    }

    lemma StartsEmpty()
      requires Sound() && freeHead == 0
      ensures ListIs([])
    {
      NothingListed(layout, storage, opts.guards, Words(layout, bytes[..]));
    }

    /** Builds the list backwards, so that block zero is the first to be allocated. */
    method InitializeFreeList()
      requires Sound() && freeHead == 0 && freeBlocks == 0 && stack == []
      modifies `freeHead, `freeBlocks, `stack, bytes
      ensures Sound() && ListIs(stack) && freeBlocks == |stack| && stack == C.Upwards(0, layout.blockCount)
    {
      hide *;
      StartsEmpty();
      C.UpwardsAll(layout.blockCount);
      var index: nat := layout.blockCount;
      while index > 0
        invariant index <= layout.blockCount
        invariant Sound() && ListIs(stack) && freeBlocks == |stack|
        invariant stack == C.Upwards(index, layout.blockCount)
      {
        C.UpwardsFrom(index, layout.blockCount);
        Push(index - 1);
        index := index - 1;
      }
    }

    // ---- the list ----

    /** Takes the head of the list. */
    method Pop() returns (k: nat)
      requires Sound() && ListIs(stack) && |stack| > 0 && freeBlocks == |stack|
      modifies `freeHead, `freeBlocks, `stack
      ensures Sound() && ListIs(stack) && freeBlocks == |stack|
      ensures k == old(stack)[0] && k < layout.blockCount && k !in stack && stack == old(stack)[1..]
    {
      PopList(ChunkWith(stack), Words(layout, bytes[..]), freeHead);
      hide C.ChunkOk, C.Threaded, C.BlockIndex, Shape, Covers, Words;
      k := C.BlockIndex(storage, layout.blockStride, freeHead);
      freeHead := ReadLink(bytes, layout, k);
      freeBlocks := freeBlocks - 1;
      stack := stack[1..];
    }

    /** Writes the head of the list into block `k` and makes it the new head. */
    method Push(k: nat)
      requires Sound() && ListIs(stack) && freeBlocks == |stack| && k < layout.blockCount && k !in stack
      modifies `freeHead, `freeBlocks, `stack, bytes
      ensures Sound() && ListIs(stack) && freeBlocks == |stack| && stack == [k] + old(stack)
      ensures SameOutside(old(bytes[..]), bytes[..], At(layout, k), At(layout, k) + WORD)
    {
      hide C.ChunkOk, C.Threaded, C.BlockAddress, Shape, Covers, Words, At, SameOutside;
      ghost var before, head := Words(layout, bytes[..]), freeHead;
      C.HeadInRange(ChunkWith(stack), before, freeHead);
      WriteLink(bytes, layout, k, freeHead);
      PushList(ChunkWith(stack), before, Words(layout, bytes[..]), head, k);
      freeHead := C.BlockAddress(storage, layout.blockStride, k);
      freeBlocks := freeBlocks + 1;
      stack := [k] + stack;
    }

    // ---- allocation ----

    /** Bytes of block `k` may have changed; nothing else about the free list has. */
    lemma BlockChanged(before: seq<Byte>, k: nat)
      requires Sound() && |before| == bytes.Length && k < layout.blockCount && k !in stack
      requires SameOutside(before, bytes[..], At(layout, k), At(layout, k) + layout.blockStride)
      requires C.ChunkOk(ChunkWith(stack)) && C.Threaded(ChunkWith(stack), Words(layout, before), freeHead)
      ensures ListIs(stack)
    {
      OtherWordsKept(layout, before, bytes[..], k);
      hide At, Words, Shape, Covers, SameOutside;
      C.ThreadedFrame(ChunkWith(stack), Words(layout, before), Words(layout, bytes[..]), freeHead);
    }

    /** `prepare_allocated_memory`: poison, then canaries, all inside block `k`. */
    method Prepare(k: nat)
      requires Sound() && k < layout.blockCount
      modifies bytes
      ensures SameOutside(old(bytes[..]), bytes[..], At(layout, k), At(layout, k) + layout.blockStride)
      ensures opts.guards ==> CanariesIntact(layout, bytes[..], k)
      ensures opts.poison ==>
          Filled(bytes[..], At(layout, k) + layout.payloadOffset, BackAt(layout, k), ALLOCATED_PATTERN)
    {
      BlockRange(layout, k);
      hide At;
      if opts.poison {
        FillBytes(bytes, At(layout, k) + layout.payloadOffset, layout.blockSize, ALLOCATED_PATTERN);
      }
      if opts.guards {
        GuardRange(layout, storage, k);
        hide Shape, Covers, CanariesIntact;
        WriteCanaries(k);
      }
    }

    method WriteCanaries(k: nat)
      requires Sound() && opts.guards && k < layout.blockCount
      modifies bytes
      ensures CanariesIntact(layout, bytes[..], k)
      ensures SameOutside(old(bytes[..]), bytes[..], At(layout, k), At(layout, k) + layout.blockStride)
      ensures Filled(old(bytes[..]), At(layout, k) + layout.payloadOffset, BackAt(layout, k), ALLOCATED_PATTERN) ==>
                Filled(bytes[..], At(layout, k) + layout.payloadOffset, BackAt(layout, k), ALLOCATED_PATTERN)
    {
      GuardRange(layout, storage, k);
      hide At, Shape, Covers, Encode, WordIs, SameOutside, Filled, FrontAt, BackAt;
      ghost var before := bytes[..];
      WriteWord(FrontAt(layout, k), FRONT_CANARY);
      ghost var front := bytes[..];
      WriteWord(BackAt(layout, k), BACK_CANARY);
      ghost var at, last := At(layout, k), At(layout, k) + layout.blockStride;
      SliceKept(front, bytes[..], BackAt(layout, k), BackAt(layout, k) + WORD, FrontAt(layout, k), FRONT_CANARY);
      Widen(before, front, FrontAt(layout, k), FrontAt(layout, k) + WORD, at, last);
      Widen(front, bytes[..], BackAt(layout, k), BackAt(layout, k) + WORD, at, last);
      Compose(before, front, bytes[..], at, last);
      if Filled(before, at + layout.payloadOffset, BackAt(layout, k), ALLOCATED_PATTERN) {
        FilledKept(before, front, FrontAt(layout, k), FrontAt(layout, k) + WORD,
                   at + layout.payloadOffset, BackAt(layout, k));
        FilledKept(front, bytes[..], BackAt(layout, k), BackAt(layout, k) + WORD,
                   at + layout.payloadOffset, BackAt(layout, k));
      }
    }

    method WriteWord(at: nat, v: nat)
      requires at + WORD <= bytes.Length
      modifies bytes
      ensures WordIs(bytes[..], at, v) && SameOutside(old(bytes[..]), bytes[..], at, at + WORD)
    {
      hide Encode;
      CopyBytes(bytes, at, Encode(v, WORD));
      assert bytes[..][at..at + WORD] == bytes[at..at + WORD];
    }

    /**
     Pops the stack, on the fast path and on every other: no byte outside the block handed out
     changes. The source's `std::terminate` on an inconsistent table is never reached.
     */
    method Allocate() returns (p: Addr)
      requires Valid()
      modifies this, bytes
      ensures Valid()
      ensures if old(stack) == [] then p == 0 && unchanged(this) && unchanged(bytes)
              else
                var k := old(stack)[0];
                && k < layout.blockCount && p == Payload(layout, storage, k) && p != 0 && stack == old(stack)[1..]
                && SameOutside(old(bytes[..]), bytes[..], At(layout, k), At(layout, k) + layout.blockStride)
                && (opts.guards ==> CanariesIntact(layout, bytes[..], k))
                && (opts.poison ==>
                    Filled(bytes[..], At(layout, k) + layout.payloadOffset, BackAt(layout, k), ALLOCATED_PATTERN))
    {
      hide C.ChunkOk, C.Threaded, C.StatesOk, Covers, Words, At, SameOutside, CanariesIntact, Filled;
      C.HeadInRange(ChunkWith(stack), Words(layout, bytes[..]), freeHead);
      if freeHead == 0 {
        return 0;
      }
      ghost var free := stack;
      var k := Pop();
      if FastPath() {
        SameAsItself(bytes[..], At(layout, k), At(layout, k) + layout.blockStride);
        return storage + At(layout, k);
      }
      ghost var before := bytes[..];
      if opts.diagnostics {
        MarkOne(ChunkWith(free), states);
        if states[k] {
          assert false;
        }
        states := states[k := true];
      }
      Prepare(k);
      BlockChanged(before, k);
      return Payload(layout, storage, k);
    }

    // ---- deallocation ----

    /** `canaries_are_valid` compares words; it notices any changed byte. */
    method CanariesAreValid(k: nat) returns (ok: bool)
      requires Sound() && opts.guards && k < layout.blockCount
      ensures ok <==> CanariesIntact(layout, bytes[..], k)
    {
      GuardRange(layout, storage, k);
      hide At, Shape, Covers, Encode, Decode;
      var front := bytes[FrontAt(layout, k)..FrontAt(layout, k) + WORD];
      var back := bytes[BackAt(layout, k)..BackAt(layout, k) + WORD];
      assert bytes[..][FrontAt(layout, k)..FrontAt(layout, k) + WORD] == front;
      assert bytes[..][BackAt(layout, k)..BackAt(layout, k) + WORD] == back;
      CompareWords(front, FRONT_CANARY);
      CompareWords(back, BACK_CANARY);
      return Decode(front) == FRONT_CANARY && Decode(back) == BACK_CANARY;
    }

    /** `validate_and_prepare_freed_memory`: a changed canary is reported before anything is written. */
    method PrepareFreed(k: nat) returns (ok: bool)
      requires Sound() && k < layout.blockCount
      modifies bytes
      ensures ok <==> (opts.guards ==> CanariesIntact(layout, old(bytes[..]), k))
      ensures !ok || !opts.poison ==> bytes[..] == old(bytes[..])
      ensures SameOutside(old(bytes[..]), bytes[..], At(layout, k) + layout.payloadOffset, BackAt(layout, k))
      ensures ok && opts.poison ==>
          Filled(bytes[..], At(layout, k) + layout.payloadOffset, BackAt(layout, k), FREED_PATTERN)
    {
      hide At, CanariesIntact;
      SameAsItself(bytes[..], At(layout, k) + layout.payloadOffset, BackAt(layout, k));
      if opts.guards {
        ok := CanariesAreValid(k);
        if !ok {
          return;
        }
      }
      if opts.poison {
        BlockRange(layout, k);
        FillBytes(bytes, At(layout, k) + layout.payloadOffset, layout.blockSize, FREED_PATTERN);
      }
      return true;
    }

    /** With guards the link lies before the payload, so poisoning a free block leaves the list alone. */
    lemma PayloadChanged(before: seq<Byte>, k: nat)
      requires Sound() && opts.guards && |before| == bytes.Length && k < layout.blockCount
      requires SameOutside(before, bytes[..], At(layout, k) + layout.payloadOffset, BackAt(layout, k))
      requires C.ChunkOk(ChunkWith(stack)) && C.Threaded(ChunkWith(stack), Words(layout, before), freeHead)
      ensures ListIs(stack)
    {
      GuardRange(layout, storage, k);
      forall j | 0 <= j < layout.blockCount
        ensures Words(layout, before)[j] == Words(layout, bytes[..])[j]
      {
        if j != k {
          BlocksApart(layout, j, k);
        }
        WordKept(layout, before, bytes[..], At(layout, k) + layout.payloadOffset, BackAt(layout, k), j);
      }
      hide At, Words, Shape, Covers, SameOutside;
      C.ThreadedFrame(ChunkWith(stack), Words(layout, before), Words(layout, bytes[..]), freeHead);
    }

    /** A word that is no multiple of the word size is the link of no listed block. */
    lemma BrokenLink(list: seq<nat>, k: nat)
      requires Sound() && ListIs(list) && k in list && k < layout.blockCount
      ensures Words(layout, bytes[..])[k] % WORD == 0
    {
      var c := ChunkWith(list);
      var i :| 0 <= i < |list| && list[i] == k;
      hide At, Words, Covers;
      LinksAreAligned(c, i + 1);
    }

    /** Without guards the poison covers the link: no list at all is described any more. */
    lemma PoisonBreaksList(list: seq<nat>, k: nat)
      requires Sound() && !opts.guards && k < layout.blockCount && k in list
      requires Filled(bytes[..], At(layout, k) + layout.payloadOffset, BackAt(layout, k), FREED_PATTERN)
      ensures !ListIs(list)
    {
      BlockRange(layout, k);
      var at := At(layout, k);
      PatternIsNoLink(bytes[..][at..at + WORD]);
      assert Words(layout, bytes[..])[k] % WORD != 0;
      hide Words, At, Filled, Decode, Shape, Covers;
      if ListIs(list) {
        BrokenLink(list, k);
      }
    }

    /** If the front canary and the link share their bytes, a listed block never has its canary. */
    lemma LinkIsNoCanary(k: nat)
      requires Valid() && opts.guards && layout.payloadOffset == WORD && k < layout.blockCount && k in stack
      ensures !CanariesIntact(layout, bytes[..], k)
    {
      BlockRange(layout, k);
      if CanariesIntact(layout, bytes[..], k) {
        var at := At(layout, k);
        assert FrontAt(layout, k) == at;
        PatternIsNoLink(bytes[..][at..at + WORD]);
        BrokenLink(stack, k);
      }
    }

    /** What a client owes without diagnostics, unless the guards would notice anyway. */
    ghost predicate MayFree(p: Addr)
      reads this
      requires Sound()
    {
      opts.diagnostics || !IsPayload(layout, storage, p) || IndexOf(layout, storage, p) !in stack
      || (opts.guards && layout.payloadOffset == WORD)
    }

    /**
     Pushes the block of `p` back. Foreign, interior and null pointers and blocks with a changed
     canary leave every byte and field alone. A double free that is reported as such leaves the
     free list alone exactly when poisoning is off or guards are on: otherwise the poison has
     already overwritten the block's link when the table is consulted, and no list is left.
     */
    method Deallocate(p: Addr) returns (r: FreeOutcome)
      requires Valid() && MayFree(p)
      modifies this, bytes
      ensures Sound() && (r != DoubleFree ==> Valid())
      ensures r == Ignored <==> p == 0
      ensures r == InvalidPointer <==> p != 0 && !IsPayload(layout, storage, p)
      ensures r.Ignored? || r.InvalidPointer? || r.Corrupted? ==> unchanged(this) && bytes[..] == old(bytes[..])
      ensures IsPayload(layout, storage, p) ==>
                var k := IndexOf(layout, storage, p);
                && k < layout.blockCount
                && (r == Corrupted <==> opts.guards && !CanariesIntact(layout, old(bytes[..]), k))
                && (r == DoubleFree <==> r != Corrupted && k in old(stack))
                && (r == Freed ==>
                      && stack == [k] + old(stack)
                      && SameOutside(old(bytes[..]), bytes[..], At(layout, k), At(layout, k) + layout.blockStride)
                      && FreedBytes(old(bytes[..]), bytes[..], k))
                && (r == DoubleFree ==> SameOutside(old(bytes[..]), bytes[..], At(layout, k) + layout.payloadOffset,
                    BackAt(layout, k)))
      ensures r == DoubleFree ==>
                && unchanged(this)
                && (Valid() <==> !opts.poison || opts.guards)
                && (opts.poison && !opts.guards ==> forall list :: !Represents(list))
    {
      if p == 0 {
        return Ignored;
      }
      PayloadExact(layout, storage, opts.guards, p);
      if !IsPayload(layout, storage, p) {
        return InvalidPointer;
      }
      r := Release(IndexOf(layout, storage, p));
    }

    method Release(k: nat) returns (r: FreeOutcome)
      requires Valid() && k < layout.blockCount
      requires opts.diagnostics || k !in stack || (opts.guards && layout.payloadOffset == WORD)
      modifies this, bytes
      ensures Sound() && (r.Corrupted? || r.DoubleFree? || r.Freed?) && (r != DoubleFree ==> Valid())
      ensures r == Corrupted <==> opts.guards && !CanariesIntact(layout, old(bytes[..]), k)
      ensures r == Corrupted ==> unchanged(this) && bytes[..] == old(bytes[..])
      ensures r == DoubleFree <==> r != Corrupted && k in old(stack)
      ensures r == Freed ==> stack == [k] + old(stack)
      ensures r == Freed ==> SameOutside(old(bytes[..]), bytes[..], At(layout, k), At(layout, k) + layout.blockStride)
      ensures r == Freed ==> FreedBytes(old(bytes[..]), bytes[..], k)
      ensures r == DoubleFree ==>
                && unchanged(this)
                && SameOutside(old(bytes[..]), bytes[..], At(layout, k) + layout.payloadOffset, BackAt(layout, k))
                && (Valid() <==> !opts.poison || opts.guards)
                && (opts.poison && !opts.guards ==> forall list :: !Represents(list))
    {
      hide C.ChunkOk, C.Threaded, C.StatesOk, Covers, Words, At, SameOutside, CanariesIntact, Filled, Shape, BackAt;
      hide FreedBytes;
      ghost var before := bytes[..];
      if FastPath() {
        Push(k);
        WidenLink(before, k);
        SameAsItself(before, At(layout, k) + layout.payloadOffset, BackAt(layout, k));
        FreedInSteps(before, before, bytes[..], k);
        return Freed;
      }
      if opts.guards && layout.payloadOffset == WORD && k in stack {
        LinkIsNoCanary(k);
      }
      var ok := PrepareFreed(k);
      if !ok {
        return Corrupted;
      }
      if opts.diagnostics {
        UnmarkOne(ChunkWith(stack), states, k);
        if !states[k] {
          RejectedTwice(before, k);
          return DoubleFree;
        }
        states := states[k := false];
      }
      WidenPayload(before, k);
      BlockChanged(before, k);
      ghost var mid := bytes[..];
      Push(k);
      WidenLink(mid, k);
      FreedInSteps(before, mid, bytes[..], k);
      Compose(before, mid, bytes[..], At(layout, k), At(layout, k) + layout.blockStride);
      return Freed;
    }

    /** A free writes the link and, if the pool poisons, the payload around it; every other byte stays. */
    ghost predicate FreedBytes(before: seq<Byte>, after: seq<Byte>, k: nat) {
      && |before| == |after|
      && forall i :: 0 <= i < |after| && !(At(layout, k) <= i < At(layout, k) + WORD) ==>
           after[i] ==
             if opts.poison && At(layout, k) + layout.payloadOffset <= i < BackAt(layout, k) then FREED_PATTERN
             else before[i]
    }

    lemma FreedInSteps(before: seq<Byte>, mid: seq<Byte>, after: seq<Byte>, k: nat)
      requires SameOutside(before, mid, At(layout, k) + layout.payloadOffset, BackAt(layout, k))
      requires !opts.poison ==> mid == before
      requires opts.poison ==> Filled(mid, At(layout, k) + layout.payloadOffset, BackAt(layout, k), FREED_PATTERN)
      requires SameOutside(mid, after, At(layout, k), At(layout, k) + WORD)
      ensures FreedBytes(before, after, k)
    {
      hide At, BackAt;
    }

    lemma WidenLink(before: seq<Byte>, k: nat)
      requires Sound() && SameOutside(before, bytes[..], At(layout, k), At(layout, k) + WORD)
      ensures SameOutside(before, bytes[..], At(layout, k), At(layout, k) + layout.blockStride)
    {
    }

    lemma WidenPayload(before: seq<Byte>, k: nat)
      requires Sound() && SameOutside(before, bytes[..], At(layout, k) + layout.payloadOffset, BackAt(layout, k))
      ensures SameOutside(before, bytes[..], At(layout, k), At(layout, k) + layout.blockStride)
    {
    }

    /** After a double free is noticed by the table, the list is intact or described by nothing. */
    lemma RejectedTwice(before: seq<Byte>, k: nat)
      requires Sound() && |before| == bytes.Length && opts.diagnostics && k < layout.blockCount && k in stack
      requires !states[k]
      requires C.ChunkOk(ChunkWith(stack)) && C.Threaded(ChunkWith(stack), Words(layout, before), freeHead)
      requires freeBlocks == |stack| && C.StatesOk(ChunkWith(stack), states)
      requires !opts.poison ==> bytes[..] == before
      requires SameOutside(before, bytes[..], At(layout, k) + layout.payloadOffset, BackAt(layout, k))
      requires opts.poison ==> Filled(bytes[..], At(layout, k) + layout.payloadOffset, BackAt(layout, k), FREED_PATTERN)
      ensures Valid() <==> !opts.poison || opts.guards
      ensures opts.poison && !opts.guards ==> forall list :: !Represents(list)
    {
      hide Words, At, SameOutside, Filled, Shape, BackAt, Covers, C.ChunkOk, C.Threaded;
      if opts.guards {
        PayloadChanged(before, k);
      } else if opts.poison {
        forall list
          ensures !Represents(list)
        {
          if k in list {
            PoisonBreaksList(list, k);
          }
        }
      }
    }

    // ---- integrity ----

    /**
     Whatever the bytes, the head, the count and the table hold, the walk ends, and it reports
     the pool intact exactly when they describe some free stack: a null-terminated list of
     distinct blocks, of the expected length, through exactly the blocks marked free.
     */
    method ValidateIntegrity() returns (r: Verdict)
      requires Sound()
      ensures r == Unavailable <==> !opts.diagnostics
      ensures opts.diagnostics ==> (r == Intact <==> exists list :: Represents(list))
    {
      if !opts.diagnostics {
        return Unavailable;
      }
      ShapeOfChunk();
      hide Words, Covers, Shape, Walked;
      var ended, indices := Walk();
      if !ended {
        assert forall list :: Represents(list) ==> Described(ChunkWith([]), Words(layout, bytes[..]), freeHead, list);
        return Damaged;
      }
      WalkDone(ChunkWith([]), Words(layout, bytes[..]), freeHead, indices);
      var ok := ValidateFreeBlocks(states, indices, freeBlocks);
      OnlyCandidate(indices, ok);
      return if ok then Intact else Damaged;
    }

    /** Follows the links to the null link, an invalid address, or one step past the capacity. */
    method Walk() returns (ended: bool, indices: seq<nat>)
      requires Sound()
      ensures if ended then Walked(ChunkWith([]), Words(layout, bytes[..]), freeHead, indices, 0)
              else forall list :: !Described(ChunkWith([]), Words(layout, bytes[..]), freeHead, list)
    {
      ghost var c, words := ChunkWith([]), Words(layout, bytes[..]);
      ShapeOfChunk();
      var node := freeHead;
      indices := [];
      assert Walked(c, words, freeHead, indices, node);
      hide Words, Covers, C.StartsBlock, C.BlockIndex, C.BlockAddress, C.ChunkOk, Shape, Walked, Described;
      while node != 0
        invariant Walked(c, words, freeHead, indices, node) && |indices| <= layout.blockCount
        decreases layout.blockCount - |indices|
      {
        if !C.StartsBlock(storage, layout.blockStride, layout.blockCount, node) {
          StrayLink(c, words, freeHead, indices, node);
          return false, [];
        }
        C.Basics(c, node);
        var k := C.BlockIndex(storage, layout.blockStride, node);
        var next := ReadLink(bytes, layout, k);
        WalkOn(c, words, freeHead, indices, node, k);
        indices, node := indices + [k], next;
        if |indices| > layout.blockCount {
          TooLong(c, words, freeHead, indices, node);
          return false, [];
        }
      }
      return true, indices;
    }

    /** The list found stands or falls with the comparison against the table. */
    lemma OnlyCandidate(indices: seq<nat>, ok: bool)
      requires Sound() && opts.diagnostics && C.ChunkOk(ChunkWith([]))
      requires C.Threaded(ChunkWith(indices), Words(layout, bytes[..]), freeHead)
      requires forall list :: Described(ChunkWith([]), Words(layout, bytes[..]), freeHead, list) ==> list == indices
      requires ok <==>
                 && |indices| == freeBlocks
                 && (forall i :: 0 <= i < |indices| ==> indices[i] < |states|)
                 && (forall i, j :: 0 <= i < j < |indices| ==> indices[i] != indices[j])
                 && (forall k :: 0 <= k < |states| ==> (states[k] <==> k !in indices))
      ensures ok <==> exists list :: Represents(list)
    {
      hide Words, Covers, Shape, C.Threaded;
      assert forall list :: Represents(list) ==> Described(ChunkWith([]), Words(layout, bytes[..]), freeHead, list);
      assert ok <==> Represents(indices);
    }

    lemma ShapeOfChunk()
      requires Sound()
      ensures var c := ChunkWith([]); C.ChunkOk(c) && c.stride != 0
    {
    }

    /**
     Freeing any block that is already free, on any pool with diagnostics: the free is refused,
     and the pool is still intact exactly when poisoning is off or guards are on.
     */
    method FreeAgain(p: Addr) returns (r: FreeOutcome, after: Verdict)
      requires Valid() && opts.diagnostics && IsPayload(layout, storage, p) && IndexOf(layout, storage, p) in stack
      modifies this, bytes
      ensures r == Corrupted || r == DoubleFree
      ensures !opts.guards ==> r == DoubleFree
      ensures after == Intact <==> !opts.poison || opts.guards
    {
      hide Shape, IndexOf, At, BackAt, CanariesIntact, Filled, SameOutside, Words, Covers;
      hide C.ChunkOk, C.Threaded, C.StatesOk;
      r := Deallocate(p);
      ghost var intact := Valid();
      after := ValidateIntegrity();
      assert intact ==> Represents(stack);
    }

    // ---- traces ----

    /**
     A client writes whatever it likes into the payload of a block it owns: no list, canary or other
     block notices.
     */
    method ClientWrites(k: nat, at: nat, data: seq<Byte>)
      requires Valid() && k < layout.blockCount && k !in stack && at + |data| <= layout.blockSize
      modifies bytes
      ensures Valid() && (old(GuardsIntact()) ==> GuardsIntact())
      ensures SameOutside(old(bytes[..]), bytes[..], At(layout, k) + layout.payloadOffset, BackAt(layout, k))
    {
      ghost var before := bytes[..];
      BlockRange(layout, k);
      hide At, CanariesIntact, C.ChunkOk, C.Threaded, C.StatesOk, Words;
      CopyBytes(bytes, At(layout, k) + layout.payloadOffset + at, data);
      assert SameOutside(before, bytes[..], At(layout, k) + layout.payloadOffset, BackAt(layout, k));
      hide SameOutside, Covers, Shape, BackAt;
      WidenPayload(before, k);
      BlockChanged(before, k);
      if opts.guards {
        forall j: nat | j < layout.blockCount && CanariesIntact(layout, before, j)
          ensures CanariesIntact(layout, bytes[..], j)
        {
          PayloadWritesKeepCanaries(layout, storage, before, bytes[..], k, j);
        }
      }
    }

    /** Performs one operation of a legal trace. */
    method Perform(op: TraceOp) returns (got: seq<Option<nat>>)
      requires Valid() && GuardsIntact() && Legal(stack, layout.blockCount, layout.blockSize, op)
      modifies this, bytes
      ensures Valid() && GuardsIntact()
      ensures got == Answer(old(stack), op) && stack == StackAfter(old(stack), op)
    {
      hide C.ChunkOk, C.Threaded, C.StatesOk, Covers, Words, At, CanariesIntact, Filled, BackAt, SameOutside;
      ghost var before, was := bytes[..], stack;
      match op {
        case Take =>
          var p := Allocate();
          if p == 0 {
            return [None];
          }
          IndexOfPayload(layout, storage, opts.guards, was[0]);
          hide Shape, IsPayload, IndexOf, Payload;
          GuardsStay(before, was, was[0]);
          return [Some(IndexOf(layout, storage, p))];
        case Give(k) =>
          IndexOfPayload(layout, storage, opts.guards, k);
          hide Shape, IsPayload, IndexOf;
          var r := Deallocate(Payload(layout, storage, k));
          assert r == Freed;
          GuardsStay(before, was, k);
          return [];
        case Write(k, at, data) =>
          ClientWrites(k, at, data);
          return [];
      }
    }

    lemma GuardsStay(before: seq<Byte>, was: seq<nat>, k: nat)
      requires Sound() && |before| == bytes.Length && k < layout.blockCount
      requires SameOutside(before, bytes[..], At(layout, k), At(layout, k) + layout.blockStride)
      requires opts.guards ==> forall j: nat :: j < layout.blockCount && j !in was ==> CanariesIntact(layout, before, j)
      requires stack == [k] + was
          || (was != [] && stack == was[1..] && k == was[0] && (opts.guards ==> CanariesIntact(layout, bytes[..], k)))
      ensures GuardsIntact()
    {
      if opts.guards {
        forall j: nat | j < layout.blockCount && j !in stack && j != k
          ensures CanariesIntact(layout, bytes[..], j)
        {
          assert j !in was;
          OtherCanariesKept(layout, storage, before, bytes[..], k, j);
        }
      }
    }

    /** Runs a legal trace: the blocks handed out are those of the abstract stack. */
    method Run(ops: seq<TraceOp>) returns (got: seq<Option<nat>>)
      requires Valid() && GuardsIntact() && AllLegal(stack, layout.blockCount, layout.blockSize, ops)
      modifies this, bytes
      ensures Valid() && GuardsIntact()
      ensures got == Results(old(stack), ops)
    {
      hide *;
      got := [];
      assert ops[0..] == ops;
      for i := 0 to |ops|
        invariant Valid() && GuardsIntact() && AllLegal(stack, layout.blockCount, layout.blockSize, ops[i..])
        invariant got + Results(stack, ops[i..]) == Results(old(stack), ops)
      {
        FirstOp(stack, layout.blockCount, layout.blockSize, ops, i);
        var more := Perform(ops[i]);
        got := got + more;
      }
      assert ops[|ops|..] == [];
      NoResults(stack);
    }
  }

  /**
   Option independence: two pools for the same request, under any two combinations of options
   and wherever their storage lies, hand out the same blocks on every legal trace.
   */
  method SameBlocks(size: nat, count: nat, alignment: nat, ops: seq<TraceOp>,
                    first: PoolOptions, firstStorage: Addr, second: PoolOptions, secondStorage: Addr)
      returns (a: seq<Option<nat>>, b: seq<Option<nat>>)
    requires alignment <= SIZE_MAX && AllLegal(C.Indices(count), count, size, ops)
    requires Buildable(size, count, alignment, first.guards, firstStorage)
    requires Buildable(size, count, alignment, second.guards, secondStorage)
    ensures a == b == Results(C.Indices(count), ops)
  {
    hide MakeLayout, IsPowerOfTwo;
    a := RunFresh(size, count, alignment, ops, first, firstStorage);
    b := RunFresh(size, count, alignment, ops, second, secondStorage);
  }

  method RunFresh(size: nat, count: nat, alignment: nat, ops: seq<TraceOp>, opts: PoolOptions, storage: Addr)
      returns (got: seq<Option<nat>>)
    requires alignment <= SIZE_MAX && AllLegal(C.Indices(count), count, size, ops)
    requires Buildable(size, count, alignment, opts.guards, storage)
    ensures got == Results(C.Indices(count), ops)
  {
    LayoutHasShape(size, count, alignment, opts.guards, storage);
    var layout := MakeLayout(size, count, alignment, opts.guards, WORD, WORD, WORD).value;
    hide MakeLayout, Shape;
    LegalGrows(C.Indices(count), count, size, layout.blockSize, ops);
    var pool := new FixedSizeMemoryPool(storage, layout, opts);
    got := pool.Run(ops);
  }

  /**
   A block freed twice, on any pool with diagnostics: the second free is refused, and the pool
   is still intact afterwards exactly when poisoning is off or guards are on. "A refused free
   changes nothing" is therefore false of every pool that poisons without guards.
   */
  method FreeTwice(storage: Addr, layout: BlockLayout, opts: PoolOptions)
      returns (first: FreeOutcome, before: Verdict, second: FreeOutcome, after: Verdict)
    requires Shape(layout, storage, opts.guards) && opts.diagnostics
    ensures first == Freed && before == Intact && second != Freed
    ensures !opts.guards ==> second == DoubleFree
    ensures after == Intact <==> !opts.poison || opts.guards
  {
    var pool := new FixedSizeMemoryPool(storage, layout, opts);
    assert 0 < layout.blockCount && pool.stack[0] == 0;
    IndexOfPayload(layout, storage, opts.guards, 0);
    hide Shape, IsPayload, IndexOf, Payload, At, BackAt, CanariesIntact, Filled, SameOutside, Words, Covers, C.Indices;
    hide C.ChunkOk, C.Threaded, C.StatesOk;
    var p := pool.Allocate();
    first := pool.Deallocate(p);
    assert pool.Represents(pool.stack) && 0 in pool.stack;
    before := pool.ValidateIntegrity();
    second, after := pool.FreeAgain(p);
  }
}
