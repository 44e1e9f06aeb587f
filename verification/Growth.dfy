/**
 The growth policy shared by the chunk manager and the arena: the size of the next chunk
 from the size of the current one, in saturating size_t arithmetic.
 */
module Growth {
  import opened Bits

  /** A maximum of zero means no configured cap. */
  datatype Policy = Fixed(maximum: nat) | Geometric(factor: nat, maximum: nat)

  /** What the constructors accept for an initial size. */
  predicate ValidPolicy(p: Policy, initial: nat) {
    && 1 <= initial <= SIZE_MAX
    && (p.Geometric? ==> 2 <= p.factor <= SIZE_MAX)
    && p.maximum <= SIZE_MAX
    && (p.maximum != 0 ==> initial <= p.maximum)
  }

  /** `calculate_next_growth` and `calculate_next_chunk_size`. */
  function NextSize(p: Policy, initial: nat, current: nat): nat
    requires p.Geometric? ==> p.factor != 0
  {
    match p
    case Fixed(_) => initial
    case Geometric(factor, maximum) =>
      if maximum != 0 && current >= maximum then maximum
      else if current > SIZE_MAX / factor then (if maximum != 0 then maximum else SIZE_MAX)
      else if maximum != 0 then Min(current * factor, maximum)
      else current * factor
  }

  /** The size after `k` successful growths, as the code computes it one step at a time. */
  function SizeAfter(p: Policy, initial: nat, k: nat): nat
    requires ValidPolicy(p, initial)
  {
    if k == 0 then initial else NextSize(p, initial, SizeAfter(p, initial, k - 1))
  }

  function Power(b: nat, k: nat): nat {
    if k == 0 then 1 else b * Power(b, k - 1)
  }

  /** The same in unbounded arithmetic: initial * factor^k, cut off at the cap. */
  function ClosedForm(p: Policy, initial: nat, k: nat): nat {
    match p
    case Fixed(_) => initial
    case Geometric(factor, maximum) =>
      Min(if maximum == 0 then SIZE_MAX else maximum, initial * Power(factor, k))
  }

  lemma QuotientTest(c: nat, f: nat, limit: nat)
    requires f >= 1
    ensures c > limit / f <==> c * f > limit
  {
    var q, r := limit / f, limit % f;
    assert limit == f * q + r;
    if c > q {
      assert c * f >= (q + 1) * f by { MulMono(q + 1, c, f); }
    } else {
      assert c * f <= q * f by { MulMono(c, q, f); }
    }
  }

  lemma NextSizeCloses(p: Policy, initial: nat, product: nat)
    requires ValidPolicy(p, initial) && p.Geometric?
    ensures var cap := if p.maximum == 0 then SIZE_MAX else p.maximum;
            NextSize(p, initial, Min(cap, product)) == Min(cap, product * p.factor)
  {
    var cap := if p.maximum == 0 then SIZE_MAX else p.maximum;
    var c := Min(cap, product);
    QuotientTest(c, p.factor, SIZE_MAX);
    assert product * p.factor >= product by { MulAtLeast(p.factor, product); }
    assert c * p.factor >= 2 * c by { MulMono(2, p.factor, c); }
    if product >= cap {
      assert c == cap;
    } else {
      assert c == product;
    }
  }

  /** Stepwise saturating growth is exactly the closed form, at every step and for every policy. */
  lemma {:induction false} GrowthClosedForm(p: Policy, initial: nat, k: nat)
    requires ValidPolicy(p, initial)
    ensures SizeAfter(p, initial, k) == ClosedForm(p, initial, k)
    ensures 1 <= SizeAfter(p, initial, k) <= SIZE_MAX
  {
    if k > 0 {
      GrowthClosedForm(p, initial, k - 1);
      if p.Geometric? {
        var power := Power(p.factor, k - 1);
        var product := initial * power;
        NextSizeCloses(p, initial, product);
        MulShuffle(initial, power, p.factor);
        hide NextSize;
        MulAtLeast(p.factor, product);
      }
    }
  }

  lemma MulShuffle(a: nat, b: nat, f: nat)
    ensures (a * b) * f == a * (f * b)
  {
  }
}
