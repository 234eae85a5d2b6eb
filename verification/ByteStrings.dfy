/** Bytes, and what stands where in a string of them. */
module ByteStrings {
  type Byte = x: int | 0 <= x < 256
  type Bytes = seq<Byte>

  /** `part` stands at position `p` of `b`. */
  predicate At(b: Bytes, p: nat, part: Bytes) { p + |part| <= |b| && b[p..p + |part|] == part }

  lemma AtInside(b: Bytes, p: nat, whole: Bytes, k: nat, part: Bytes)
    requires At(b, p, whole) && At(whole, k, part)
    ensures At(b, p + k, part)
  {
    var inner := b[p + k..p + k + |part|];
    forall i | 0 <= i < |part|
      ensures inner[i] == part[i]
    {
      assert inner[i] == b[p..p + |whole|][k + i] == whole[k..k + |part|][i];
    }
  }

  lemma AtFront(a: Bytes, z: Bytes, p: nat, part: Bytes)
    requires At(a, p, part)
    ensures At(a + z, p, part)
  {
    assert (a + z)[p..p + |part|] == a[p..p + |part|];
  }

  lemma AtBack(a: Bytes, z: Bytes)
    ensures At(a + z, |a|, z)
  {}

  /** Two parts that stand together stand one behind the other. */
  lemma AtSplit(b: Bytes, p: nat, x: Bytes, y: Bytes)
    requires At(b, p, x + y)
    ensures At(b, p, x) && At(b, p + |x|, y)
  {
    AtFront(x, y, 0, x);
    AtBack(x, y);
    AtInside(b, p, x + y, 0, x);
    AtInside(b, p, x + y, |x|, y);
  }

  lemma Joined(b: Bytes, p: nat, q: nat, r: nat)
    requires p <= q <= r <= |b|
    ensures b[p..r] == b[p..q] + b[q..r]
  {}
}
