/** Facts about quotients and remainders that the other modules use by name. */
module Division {

  lemma TimesAtLeast(d: int, n: nat)
    requires d >= 1
    ensures d * n >= n && -d * n == -(d * n)
  {
  }

  lemma QuotientIs(i: nat, n: nat, q: nat, r: nat)
    requires n > 0 && i == q * n + r && r < n
    ensures i / n == q && i % n == r
  {
    var d := i / n - q;
    assert d * n == r - i % n by {
      assert i == i / n * n + i % n;
      assert d * n == i / n * n - q * n;
    }
    if d >= 1 {
      TimesAtLeast(d, n);
    } else if d <= -1 {
      TimesAtLeast(-d, n);
    }
  }

  lemma MultipleHasNoRemainder(q: nat, n: nat)
    requires n > 0
    ensures q * n / n == q && q * n % n == 0
  {
    QuotientIs(q * n, n, q, 0);
  }

  lemma QuotientBelow(i: nat, n: nat, m: nat)
    requires i < m * n
    ensures n > 0 && i / n < m && i % n < n && i == i / n * n + i % n
  {
    assert n > 0;
    var q := i / n;
    assert i == q * n + i % n;
    if q >= m {
      TimesMonotone(m, q, n);
    }
  }

  lemma TimesMonotone(a: nat, b: nat, n: nat)
    requires a <= b
    ensures a * n <= b * n
  {
  }

  lemma DifferenceOfMultiples(a: nat, b: nat, n: nat)
    requires n > 0 && a % n == 0 && b % n == 0 && b <= a
    ensures (a - b) % n == 0
  {
    var p, q := a / n, b / n;
    assert a - b == (p - q) * n;
    assert p >= q;
    MultipleHasNoRemainder(p - q, n);
  }

  lemma CarryOver(i: nat, n: nat, rest: nat)
    requires n > 0
    ensures i * rest == i / n * (n * rest) + i % n * rest
  {
    var q, r := i / n, i % n;
    Regroup(q, r, n, rest);
    assert i == q * n + r;
  }

  lemma Regroup(q: nat, r: nat, n: nat, rest: nat)
    ensures (q * n + r) * rest == q * (n * rest) + r * rest
  {
  }
}
