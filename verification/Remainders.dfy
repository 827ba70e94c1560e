// Remainders by a divisor that is not a constant.
module Remainders {
  lemma SmallMultiple(n: int, d: int)
    requires n > 0
    ensures (d >= 1 ==> n * d >= n) && (d <= -1 ==> n * d <= -n)
  {
  }

  lemma ModOf(a: int, n: int, q: int, r: int)
    requires n > 0 && 0 <= r < n && a == n * q + r
    ensures a % n == r
  {
    SmallMultiple(n, a / n - q);
    assert a == n * (a / n) + a % n;
    assert n * (a / n - q) == r - a % n;
  }

  lemma Small(a: nat, n: nat)
    requires a < n
    ensures a % n == a
  {
    ModOf(a, n, 0, a);
  }

  lemma Whole(n: nat)
    requires n > 0
    ensures n % n == 0
  {
    ModOf(n, n, 1, 0);
  }

  lemma TakeOne(a: int, n: int)
    requires n > 0
    ensures a % n == (a - n) % n
  {
    ModOf(a, n, (a - n) / n + 1, (a - n) % n);
  }
}
