/** Quotients of row-major offsets, for the layouts and the image grids. */
module Division {

  lemma {:induction false} DigitBound(high: nat, count: nat, low: nat, size: nat)
    requires high < count && low < size
    ensures high * size + low < count * size
    ensures (high * size + low) / size == high && (high * size + low) % size == low
  {
    assert (high + 1) * size <= count * size by { MulOrdered(high + 1, count, size); }
    assert (high + 1) * size == high * size + size;
    QuotientIs(high, low, size);
  }

  lemma {:induction false} MulOrdered(a: nat, b: nat, c: nat)
    requires a <= b
    ensures a * c <= b * c
  {
  }

  lemma {:induction false} QuotientIs(high: nat, low: nat, size: nat)
    requires low < size
    ensures (high * size + low) / size == high && (high * size + low) % size == low
  {
    var n := high * size + low;
    var q, r := n / size, n % size;
    assert n == q * size + r;
    if q < high {
      Ladder(q, high, r, size);
    } else if q > high {
      Ladder(high, q, low, size);
    }
  }

  lemma {:induction false} Ladder(low: nat, high: nat, rest: nat, size: nat)
    requires low < high && rest < size
    ensures low * size + rest < high * size
  {
    MulOrdered(low + 1, high, size);
    assert (low + 1) * size == low * size + size;
  }

  lemma {:induction false} QuotientBelow(flat: nat, count: nat, size: nat)
    requires flat < count * size
    ensures size > 0 && flat / size < count && flat == flat / size * size + flat % size
  {
    if size > 0 && flat / size >= count {
      MulOrdered(count, flat / size, size);
    }
  }
}
