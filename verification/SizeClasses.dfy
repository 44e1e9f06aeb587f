/**
 The size-class selector: validation of a class table and the routing of a
 (size, alignment) request to the smallest compatible class.
 */
module SizeClasses {
  import opened Bits

  /** sizeof(void*), the least size of a class. */
  const POINTER_SIZE: nat := 8

  datatype Selection = InvalidAlignment | NoClass | Selected(index: nat)

  /** What the selector's constructor accepts. */
  ghost predicate ValidClasses(classes: seq<nat>) {
    && |classes| > 0
    && (forall i :: 0 <= i < |classes| ==>
          IsPowerOfTwo(classes[i]) && POINTER_SIZE <= classes[i] < SIZE_LIMIT)
    && (forall i, j :: 0 <= i < j < |classes| ==> classes[i] < classes[j])
  }

  /** The constructor's validating loop accepts exactly the valid tables. */
  method ValidateClasses(classes: seq<nat>) returns (ok: bool)
    requires forall i :: 0 <= i < |classes| ==> classes[i] < SIZE_LIMIT
    ensures ok <==> ValidClasses(classes)
  {
    if |classes| == 0 {
      return false;
    }
    var previous := 0;
    for n := 0 to |classes|
      invariant n == 0 ==> previous == 0
      invariant n > 0 ==> previous == classes[n - 1]
      invariant forall i :: 0 <= i < n ==> IsPowerOfTwo(classes[i]) && POINTER_SIZE <= classes[i]
      invariant forall i, j :: 0 <= i < j < n ==> classes[i] < classes[j]
    {
      if !IsPowerOfTwo(classes[n]) || classes[n] < POINTER_SIZE {
        return false;
      }
      if classes[n] <= previous {
        return false;
      }
      previous := classes[n];
    }
    return true;
  }

  function Normalized(size: nat): nat {
    Max(size, 1)
  }

  /** The first index from `from` on whose class is at least `required`. */
  function LowerBound(classes: seq<nat>, required: nat, from: nat): (r: nat)
    requires from <= |classes|
    ensures from <= r <= |classes|
    ensures forall i :: from <= i < r ==> classes[i] < required
    ensures r < |classes| ==> required <= classes[r]
    decreases |classes| - from
  {
    if from == |classes| || required <= classes[from] then from
    else LowerBound(classes, required, from + 1)
  }

  lemma LowerBoundUnique(classes: seq<nat>, required: nat, r: nat)
    requires r <= |classes|
    requires forall i :: 0 <= i < r ==> classes[i] < required
    requires r < |classes| ==> required <= classes[r]
    ensures LowerBound(classes, required, 0) == r
  {
    var least := LowerBound(classes, required, 0);
    assert !(least < r);
  }

  function Select(classes: seq<nat>, size: nat, alignment: nat): Selection {
    if !IsPowerOfTwo(alignment) then InvalidAlignment
    else
      var i := LowerBound(classes, Max(Normalized(size), alignment), 0);
      if i == |classes| then NoClass else Selected(i)
  }

  /** Binary search (`std::lower_bound`) over a sorted table finds the selected class. */
  method BinarySelect(classes: seq<nat>, size: nat, alignment: nat) returns (r: Selection)
    requires ValidClasses(classes)
    ensures r == Select(classes, size, alignment)
  {
    if !IsPowerOfTwo(alignment) {
      return InvalidAlignment;
    }
    var required := Max(Normalized(size), alignment);
    var low, high := 0, |classes|;
    while low < high
      invariant 0 <= low <= high <= |classes|
      invariant forall i :: 0 <= i < low ==> classes[i] < required
      invariant forall i :: high <= i < |classes| ==> required <= classes[i]
    {
      var mid := (low + high) / 2;
      if classes[mid] < required {
        low := mid + 1;
      } else {
        high := mid;
      }
    }
    LowerBoundUnique(classes, required, low);
    return if low == |classes| then NoClass else Selected(low);
  }

  lemma SmallModulus(x: nat, a: nat)
    requires 0 < x < a
    ensures x % a != 0
  {
    DivModUnique(x, a, 0, x);
  }

  /**
   Routing is sound and minimal: the chosen class holds the size, its size (hence the
   alignment of its blocks) is a multiple of the requested alignment, and no smaller
   class could hold size and alignment; a request is turned away from the classes
   exactly when none of them can hold it.
   */
  lemma SelectIsLeast(classes: seq<nat>, size: nat, alignment: nat)
    requires ValidClasses(classes) && IsPowerOfTwo(alignment)
    ensures var r := Select(classes, size, alignment);
            && !r.InvalidAlignment?
            && (r.Selected? ==> Compatible(classes, size, alignment, r.index))
            && (forall i :: Compatible(classes, size, alignment, i) ==> r.Selected? && r.index <= i)
  {
    var r := Select(classes, size, alignment);
    if r.Selected? {
      PowersDivide(alignment, classes[r.index]);
    }
    forall i | Compatible(classes, size, alignment, i)
      ensures r.Selected? && r.index <= i
    {
      if classes[i] < alignment {
        SmallModulus(classes[i], alignment);
      }
    }
  }

  /** Class `i` can hold the request: large enough, and its blocks are aligned for it. */
  predicate Compatible(classes: seq<nat>, size: nat, alignment: nat, i: int)
    requires alignment != 0
  {
    0 <= i < |classes| && Normalized(size) <= classes[i] && classes[i] % alignment == 0
  }
}
