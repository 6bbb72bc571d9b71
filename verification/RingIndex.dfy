/** Positions of an ever-growing index in a ring, and in the 16-bit counters that stand for it. */
module RingIndex {
  import opened Words

  /** `u` modulo `n`, by repeated subtraction. */
  function Slot(u: nat, n: nat): (r: nat)
    requires n > 0
    ensures r < n && r <= u
    decreases u
  {
    if u < n then u else Slot(u - n, n)
  }

  function Inc16(i: u16): u16 { if i == U16_SPAN - 1 then 0 else i + 1 }

  /** The 16-bit counter value that stands for `u`. */
  function Low16(u: nat): u16 { Slot(u, U16_SPAN) }

  lemma MulBounds(d: int, m: nat)
    ensures d >= 1 ==> d * m >= m
    ensures d <= -1 ==> d * m <= 0 - m
  {
    if d >= 1 { assert d * m == (d - 1) * m + m && (d - 1) * m >= 0; }
    if d <= -1 { assert d * m == (d + 1) * m - m && (d + 1) * m <= 0; }
  }

  lemma ModUnique(x: nat, m: nat, q: nat, r: nat)
    requires m > 0 && r < m && x == q * m + r
    ensures x % m == r
  {
    var p, s := x / m, x % m;
    assert x == p * m + s;
    assert (p - q) * m == p * m - q * m;
    MulBounds(p - q, m);
  }

  lemma {:induction false} SlotIsMod(u: nat, n: nat)
    requires n > 0
    ensures Slot(u, n) == u % n
    decreases u
  {
    if u >= n {
      SlotIsMod(u - n, n);
      var q, r := (u - n) / n, (u - n) % n;
      assert (q + 1) * n == q * n + n;
      ModUnique(u, n, q + 1, r);
    }
  }

  lemma {:induction false} SlotInc(u: nat, n: nat)
    requires n > 0
    ensures Slot(u + 1, n) == if Slot(u, n) + 1 == n then 0 else Slot(u, n) + 1
    decreases u
  {
    if u >= n { SlotInc(u - n, n); }
  }

  lemma {:induction false} SlotPeriod(u: nat, m: nat, n: nat)
    requires n > 0 && Slot(m, n) == 0
    ensures Slot(u + m, n) == Slot(u, n)
    decreases m
  {
    if m >= n {
      assert Slot(m - n, n) == 0;
      SlotPeriod(u, m - n, n);
      assert Slot(u + m, n) == Slot(u + m - n, n);
    }
  }

  /** An index and its 16-bit counter select the same ring slot, if the ring size divides 2^16. */
  lemma {:induction false} SlotStable(u: nat, n: nat)
    requires n > 0 && Low16Divides(n)
    ensures Slot(Low16(u), n) == Slot(u, n)
    decreases u
  {
    if u >= U16_SPAN {
      SlotStable(u - U16_SPAN, n);
      SlotPeriod(u - U16_SPAN, U16_SPAN, n);
    }
  }

  predicate Low16Divides(n: nat)
    requires n > 0
  {
    Slot(U16_SPAN, n) == 0
  }

  /** Ring slots survive the 16-bit wrap exactly for sizes that divide 2^16: the powers of two VIRTIO requires. */
  lemma SlotStableIff(n: nat)
    requires n > 0
    ensures (forall u: nat :: u % U16_SPAN % n == u % n) <==> U16_SPAN % n == 0
  {
    if U16_SPAN % n == 0 {
      forall u: nat ensures u % U16_SPAN % n == u % n {
        SlotIsMod(U16_SPAN, n);
        SlotStable(u, n);
        SlotIsMod(u, U16_SPAN);
        SlotIsMod(Low16(u), n);
        SlotIsMod(u, n);
      }
    } else {
      assert U16_SPAN % U16_SPAN % n == 0 by { SlotIsMod(0, n); }
    }
  }

  /** Indices less than a ring apart use different slots. */
  lemma {:induction false} SlotsDiffer(u: nat, v: nat, n: nat)
    requires u < v < u + n
    ensures Slot(u, n) != Slot(v, n)
    decreases u
  {
    if u >= n {
      SlotsDiffer(u - n, v - n, n);
    } else if v >= n {
      assert Slot(v, n) == Slot(v - n, n) == v - n;
    }
  }

  /** The distance between two 16-bit counters is that of the indices they stand for. */
  lemma {:induction false} Low16Distance(d: nat, u: nat)
    requires d <= u < d + U16_SPAN
    ensures u - d == if Low16(d) <= Low16(u) then Low16(u) - Low16(d) else Low16(u) + U16_SPAN - Low16(d)
    decreases d
  {
    if d >= U16_SPAN {
      Low16Distance(d - U16_SPAN, u - U16_SPAN);
    } else if u >= U16_SPAN {
      assert Low16(u) == Slot(u - U16_SPAN, U16_SPAN) == u - U16_SPAN;
    }
  }
}
