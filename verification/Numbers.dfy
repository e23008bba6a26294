/** Facts about powers and division that the other modules share. */
module Numbers {

  type Byte = x: int | 0 <= x < 256

  const U64_MODULUS := 0x1_0000_0000_0000_0000
  const U64_MAX := U64_MODULUS - 1

  lemma Division(n: nat, m: nat)
    requires m > 0
    ensures n == (n / m) * m + n % m
  {
  }

  lemma Distribute(a: int, b: int, m: int)
    ensures (a - b) * m == a * m - b * m
  {
  }

  lemma AtLeastOnce(d: int, m: nat)
    requires d >= 1
    ensures d * m >= m
  {
  }

  /** Quotient and remainder are unique. */
  lemma Quotient(n: nat, m: nat, q: nat, r: nat)
    requires r < m && n == q * m + r
    ensures n / m == q && n % m == r
  {
    var q', r' := n / m, n % m;
    Division(n, m);
    Distribute(q, q', m);
    if q > q' {
      AtLeastOnce(q - q', m);
    } else if q < q' {
      AtLeastOnce(q' - q, m);
      Distribute(q', q, m);
    }
  }

  lemma Successor(n: nat, m: nat)
    requires m > 0
    ensures (n + 1) / m == n / m + if n % m == m - 1 then 1 else 0
    ensures (n + 1) % m == if n % m == m - 1 then 0 else n % m + 1
  {
    var q, r := n / m, n % m;
    Division(n, m);
    if r == m - 1 {
      Distribute(q + 1, 1, m);
      Quotient(n + 1, m, q + 1, 0);
    } else {
      Quotient(n + 1, m, q, r + 1);
    }
  }

  function Pow(b: nat, e: nat): nat {
    if e == 0 then 1 else b * Pow(b, e - 1)
  }

  function Pow2(d: nat): (n: nat)
    ensures n >= 1
  {
    if d == 0 then 1 else 2 * Pow2(d - 1)
  }
}
