/**
 The backing-memory provider, seen from its clients: regions of addresses, and what a
 provider may answer to a request.
 */
module Provider {
  import opened Bits

  type Addr = nat

  datatype Option<T> = None | Some(value: T)

  datatype Region = Region(start: Addr, size: nat)

  predicate Apart(a: Region, b: Region) {
    a.start + a.size <= b.start || b.start + b.size <= a.start
  }

  predicate Inside(a: Region, b: Region) {
    b.start <= a.start && a.start + a.size <= b.start + b.size
  }

  /**
   A provider either throws (None) or returns a non-null, suitably aligned block that does
   not overlap anything it has handed out and not got back.
   */
  predicate Conforms(outstanding: seq<Region>, bytes: nat, alignment: nat, answer: Option<Addr>)
    requires alignment != 0
  {
    answer.Some? ==>
      && answer.value != 0
      && answer.value % alignment == 0
      && answer.value + bytes <= SIZE_LIMIT
      && forall i :: 0 <= i < |outstanding| ==> Apart(outstanding[i], Region(answer.value, bytes))
  }
}
