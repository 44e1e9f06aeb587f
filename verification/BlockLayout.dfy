/** The layout of equal-size blocks in one backing allocation, in checked size_t arithmetic. */
module BlockLayouts {
  import opened Bits

  datatype Result<T> = Ok(value: T) | BadArgument | TooLarge

  datatype BlockLayout = BlockLayout(
    blockSize: nat,
    blockCount: nat,
    alignment: nat,
    payloadOffset: nat,
    blockStride: nat,
    storageSize: nat)

  function CheckedAdd(left: nat, right: nat): Result<nat>
    requires right <= SIZE_MAX
  {
    if left > SIZE_MAX - right then TooLarge else Ok(left + right)
  }

  function CheckedMultiply(left: nat, right: nat): Result<nat> {
    if right != 0 && left > SIZE_MAX / right then TooLarge else Ok(left * right)
  }

  /** Rounding by the mask `(size + alignment - 1) & ~(alignment - 1)`. */
  function RoundUp(size: nat, alignment: nat): Result<nat>
    requires alignment <= SIZE_MAX
  {
    if !IsPowerOfTwo(alignment) then BadArgument
    else if size > SIZE_MAX - (alignment - 1) then TooLarge
    else Ok(And(size + alignment - 1, Not(alignment - 1)))
  }

  function MakeLayout(requestedSize: nat, blockCount: nat, requestedAlignment: nat, guards: bool,
                      nodeSize: nat, nodeAlignment: nat, guardSize: nat): Result<BlockLayout>
    requires requestedAlignment <= SIZE_MAX && nodeAlignment <= SIZE_MAX && guardSize <= SIZE_MAX
  {
    if blockCount == 0 || !IsPowerOfTwo(requestedAlignment) then BadArgument
    else
      var alignment := Max(requestedAlignment, nodeAlignment);
      match RoundUp(Max(requestedSize, nodeSize), alignment)
      case BadArgument => BadArgument
      case TooLarge => TooLarge
      case Ok(blockSize) =>
        if !guards then
          match CheckedMultiply(blockSize, blockCount)
          case BadArgument => BadArgument
          case TooLarge => TooLarge
          case Ok(total) => Ok(BlockLayout(blockSize, blockCount, alignment, 0, blockSize, total))
        else GuardedLayout(blockSize, blockCount, alignment, nodeSize, guardSize)
  }

  /** [front guard and padding][payload][back guard and padding]; a free node sits at the raw start. */
  function GuardedLayout(blockSize: nat, blockCount: nat, alignment: nat, nodeSize: nat, guardSize: nat):
      Result<BlockLayout>
    requires alignment <= SIZE_MAX && guardSize <= SIZE_MAX
  {
    match RoundUp(Max(guardSize, nodeSize), alignment)
    case BadArgument => BadArgument
    case TooLarge => TooLarge
    case Ok(payloadOffset) =>
      if blockSize > SIZE_MAX then TooLarge
      else match CheckedAdd(payloadOffset, blockSize)
      case BadArgument => BadArgument
      case TooLarge => TooLarge
      case Ok(payloadEnd) =>
        match CheckedAdd(payloadEnd, guardSize)
        case BadArgument => BadArgument
        case TooLarge => TooLarge
        case Ok(rawEnd) =>
          match RoundUp(rawEnd, alignment)
          case BadArgument => BadArgument
          case TooLarge => TooLarge
          case Ok(stride) =>
            match CheckedMultiply(stride, blockCount)
            case BadArgument => BadArgument
            case TooLarge => TooLarge
            case Ok(total) => Ok(BlockLayout(blockSize, blockCount, alignment, payloadOffset, stride, total))
  }

  /** Mask rounding yields the least multiple of the alignment that is large enough, without wrapping. */
  lemma RoundUpIsLeast(size: nat, alignment: nat)
    requires alignment <= SIZE_MAX && IsPowerOfTwo(alignment)
    ensures var r := RoundUp(size, alignment);
            && (r.Ok? <==> size + alignment - 1 <= SIZE_MAX)
            && (r.Ok? ==>
                  && size <= r.value <= SIZE_MAX
                  && r.value < size + alignment
                  && r.value % alignment == 0)
  {
    hide And;
    if size + alignment - 1 <= SIZE_MAX {
      var x := size + alignment - 1;
      MaskClearsRemainder(x, alignment);
      RemainderCleared(x, alignment);
    }
  }

  lemma RemainderCleared(x: nat, a: nat)
    requires a > 0
    ensures 0 <= x % a < a && x - x % a >= 0 && (x - x % a) % a == 0
  {
    var q := x / a;
    assert x - x % a == q * a;
    MultipleModZero(q, a);
  }

  lemma CheckedMultiplyExact(left: nat, right: nat)
    ensures CheckedMultiply(left, right).Ok? <==> left * right <= SIZE_MAX
  {
    if right != 0 {
      var q := SIZE_MAX / right;
      assert SIZE_MAX == right * q + SIZE_MAX % right;
      if left <= q {
        assert left * right <= q * right by { MulMono(left, q, right); }
      } else {
        assert left * right >= (q + 1) * right by { MulMono(q + 1, left, right); }
      }
    }
  }

  /** What a layout promises: everything in place, aligned, and within the storage. */
  ghost predicate LayoutOk(l: BlockLayout, requestedSize: nat, requestedAlignment: nat, guards: bool,
                           nodeSize: nat, guardSize: nat)
  {
    && IsPowerOfTwo(l.alignment) && requestedAlignment <= l.alignment
    && requestedSize <= l.blockSize && nodeSize <= l.blockStride
    && l.blockSize % l.alignment == 0 && l.payloadOffset % l.alignment == 0 && l.blockStride % l.alignment == 0
    && (if guards
        then guardSize <= l.payloadOffset && nodeSize <= l.payloadOffset
            && l.payloadOffset + l.blockSize + guardSize <= l.blockStride
        else l.payloadOffset == 0 && l.blockStride == l.blockSize)
    && l.storageSize == l.blockStride * l.blockCount <= SIZE_MAX
    && l.blockCount > 0
  }

  lemma MakeLayoutSound(requestedSize: nat, blockCount: nat, requestedAlignment: nat, guards: bool,
                        nodeSize: nat, nodeAlignment: nat, guardSize: nat)
    requires requestedAlignment <= SIZE_MAX && nodeAlignment <= SIZE_MAX && guardSize <= SIZE_MAX
    requires IsPowerOfTwo(nodeAlignment)
    ensures var r := MakeLayout(requestedSize, blockCount, requestedAlignment, guards, nodeSize, nodeAlignment,
        guardSize);
            r.Ok? ==>
              && LayoutOk(r.value, requestedSize, requestedAlignment, guards, nodeSize, guardSize)
              && r.value.blockCount == blockCount
              && r.value.blockSize < Max(requestedSize, nodeSize) + r.value.alignment
  {
    if blockCount > 0 && IsPowerOfTwo(requestedAlignment) {
      var alignment := Max(requestedAlignment, nodeAlignment);
      RoundUpIsLeast(Max(requestedSize, nodeSize), alignment);
      RoundUpIsLeast(Max(guardSize, nodeSize), alignment);
      hide RoundUp;
      var first := RoundUp(Max(requestedSize, nodeSize), alignment);
      if first.Ok? {
        if !guards {
          CheckedMultiplyExact(first.value, blockCount);
        } else {
          var second := RoundUp(Max(guardSize, nodeSize), alignment);
          if second.Ok? && second.value + first.value + guardSize <= SIZE_MAX {
            RoundUpIsLeast(second.value + first.value + guardSize, alignment);
            var third := RoundUp(second.value + first.value + guardSize, alignment);
            if third.Ok? {
              CheckedMultiplyExact(third.value, blockCount);
            }
          }
        }
      }
    }
  }

  // ---- exactly which layouts are accepted ----

  /** The least multiple of `a` from `size` on, in unbounded arithmetic. */
  function Ceiling(size: nat, a: nat): (r: nat)
    requires a > 0
    ensures size <= r < size + a
  {
    if size % a == 0 then size else size + (a - size % a)
  }

  lemma CeilingIsMultiple(size: nat, a: nat)
    requires a > 0
    ensures Ceiling(size, a) % a == 0
  {
    if size % a != 0 {
      var q := size / a;
      assert Ceiling(size, a) == (q + 1) * a by { assert size == q * a + size % a; }
      MultipleModZero(q + 1, a);
    }
  }

  lemma MultiplesApart(x: nat, y: nat, a: nat)
    requires a > 0 && x % a == 0 && y % a == 0 && x < y
    ensures x + a <= y
  {
    if y < x + a {
      assert y == (x / a) * a + (y - x);
      DivModUnique(y, a, x / a, y - x);
    }
  }

  /** Checked rounding fails exactly when the least multiple is no `size_t`, and yields it otherwise. */
  lemma RoundUpExact(size: nat, a: nat)
    requires a <= SIZE_MAX && IsPowerOfTwo(a)
    ensures a > 0
    ensures RoundUp(size, a) == if Ceiling(size, a) <= SIZE_MAX then Ok(Ceiling(size, a)) else TooLarge
  {
    RoundUpIsLeast(size, a);
    CeilingIsMultiple(size, a);
    assert IsPowerOfTwo(SIZE_LIMIT) by {
      Pow2Of64();
      PowerIsPowerOfTwo(64);
    }
    PowersDivide(a, SIZE_LIMIT);
    hide And, IsPowerOfTwo, Ceiling;
    var r, c := RoundUp(size, a), Ceiling(size, a);
    if r.Ok? {
      if c < r.value {
        MultiplesApart(c, r.value, a);
      } else if r.value < c {
        MultiplesApart(r.value, c, a);
      }
    } else if c < SIZE_LIMIT {
      MultiplesApart(c, SIZE_LIMIT, a);
    }
  }

  /** The layout in unbounded arithmetic: blocks rounded to the alignment, guards before and behind the payload. */
  function IdealLayout(requestedSize: nat, blockCount: nat, alignment: nat, guards: bool,
                       nodeSize: nat, guardSize: nat): BlockLayout
    requires alignment > 0
  {
    var blockSize := Ceiling(Max(requestedSize, nodeSize), alignment);
    var offset := if guards then Ceiling(Max(guardSize, nodeSize), alignment) else 0;
    var stride := if guards then Ceiling(offset + blockSize + guardSize, alignment) else blockSize;
    BlockLayout(blockSize, blockCount, alignment, offset, stride, Total(stride, blockCount))
  }

  function Total(stride: nat, blockCount: nat): nat {
    stride * blockCount
  }

  /**
   The checked computation accepts exactly the layouts whose total, in unbounded arithmetic,
   is a `size_t`, and then yields that layout; no check on the way refuses more.
   */
  lemma MakeLayoutExact(requestedSize: nat, blockCount: nat, requestedAlignment: nat, guards: bool,
                        nodeSize: nat, nodeAlignment: nat, guardSize: nat)
    requires requestedAlignment <= SIZE_MAX && nodeAlignment <= SIZE_MAX && guardSize <= SIZE_MAX
    requires IsPowerOfTwo(nodeAlignment)
    ensures var r := MakeLayout(requestedSize, blockCount, requestedAlignment, guards, nodeSize, nodeAlignment,
        guardSize);
            if blockCount == 0 || !IsPowerOfTwo(requestedAlignment) then r == BadArgument
            else
              && Max(requestedAlignment, nodeAlignment) > 0
              && var ideal := IdealLayout(requestedSize, blockCount, Max(requestedAlignment, nodeAlignment), guards,
                     nodeSize, guardSize);
              && r == if ideal.storageSize <= SIZE_MAX then Ok(ideal) else TooLarge
  {
    if blockCount > 0 && IsPowerOfTwo(requestedAlignment) {
      var a := Max(requestedAlignment, nodeAlignment);
      RoundUpExact(Max(requestedSize, nodeSize), a);
      var ideal := IdealLayout(requestedSize, blockCount, a, guards, nodeSize, guardSize);
      TotalExact(ideal.blockStride, blockCount);
      if guards {
        GuardedExact(ideal.blockSize, blockCount, a, nodeSize, guardSize);
      }
      hide RoundUp, IsPowerOfTwo, Ceiling, CheckedMultiply, GuardedLayout;
    }
  }

  lemma TotalExact(stride: nat, blockCount: nat)
    requires blockCount > 0
    ensures var total := stride * blockCount;
            && stride <= total
            && CheckedMultiply(stride, blockCount) == if total <= SIZE_MAX then Ok(total) else TooLarge
  {
    MulAtLeast(blockCount, stride);
    CheckedMultiplyExact(stride, blockCount);
  }

  lemma GuardedExact(blockSize: nat, blockCount: nat, a: nat, nodeSize: nat, guardSize: nat)
    requires blockCount > 0 && a <= SIZE_MAX && IsPowerOfTwo(a) && guardSize <= SIZE_MAX
    ensures a > 0
    ensures var offset := Ceiling(Max(guardSize, nodeSize), a);
            var stride := Ceiling(offset + blockSize + guardSize, a);
            var total := stride * blockCount;
            && stride <= total
            && GuardedLayout(blockSize, blockCount, a, nodeSize, guardSize) ==
                 if total <= SIZE_MAX then Ok(BlockLayout(blockSize, blockCount, a, offset, stride, total))
                 else TooLarge
  {
    RoundUpExact(Max(guardSize, nodeSize), a);
    var offset := Ceiling(Max(guardSize, nodeSize), a);
    RoundUpExact(offset + blockSize + guardSize, a);
    TotalExact(Ceiling(offset + blockSize + guardSize, a), blockCount);
    hide RoundUp, IsPowerOfTwo, Ceiling, CheckedMultiply;
  }

  /** A block size that is itself a power of two at least the node size is laid out without waste. */
  lemma PowerOfTwoLayout(size: nat, blockCount: nat, nodeSize: nat, nodeAlignment: nat)
    requires IsPowerOfTwo(size) && nodeSize <= size <= SIZE_MAX && nodeAlignment <= size && IsPowerOfTwo(nodeAlignment)
    ensures var r := MakeLayout(size, blockCount, size, false, nodeSize, nodeAlignment, 0);
            r.Ok? ==> r.value == BlockLayout(size, blockCount, size, 0, size, size * blockCount)
                      && size * blockCount <= SIZE_MAX && blockCount > 0
  {
    RoundUpIsLeast(size, size);
    hide RoundUp;
    var r := RoundUp(size, size);
    if r.Ok? {
      OnlyMultiple(size, r.value);
    }
    CheckedMultiplyExact(size, blockCount);
  }

  lemma OnlyMultiple(size: nat, v: nat)
    requires 0 < size <= v < size + size && v % size == 0
    ensures v == size
  {
    DivModUnique(v, size, 1, v - size);
  }
}
