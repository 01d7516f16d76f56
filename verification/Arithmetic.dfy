/** Products and quotients, kept apart from the other proofs. */
module Arithmetic {
  /** `a * b`, by adding. */
  function Product(a: nat, b: nat): nat {
    if a == 0 then 0 else Product(a - 1, b) + b
  }

  lemma {:induction false} ProductIs(a: nat, b: nat)
    ensures Product(a, b) == a * b
  {
    if a > 0 {
      ProductIs(a - 1, b);
    }
  }

  function Div(n: nat, k: nat): nat
    requires k >= 1
  {
    n / k
  }

  /** Rounded-up division. */
  function CeilDiv(n: nat, k: nat): nat
    requires k >= 1
  {
    (n + k - 1) / k
  }

  lemma Unique(a: nat, m: nat, q: nat, r: nat, k: nat)
    requires m < k && r < k && Product(a, k) + m == Product(q, k) + r
    ensures a == q && m == r
  {
    Apart(a, q, k);
    Apart(q, a, k);
  }

  lemma Apart(a: nat, b: nat, k: nat)
    ensures a < b ==> Product(a, k) + k <= Product(b, k)
  {
    if a < b {
      Grows(a + 1, b, k);
    }
  }

  /** Division undoes multiplication by `k` with a remainder. */
  lemma {:induction false} Quotient(q: nat, k: nat, r: nat)
    requires r < k
    ensures (Product(q, k) + r) / k == q && (Product(q, k) + r) % k == r
  {
    hide Product;
    var n := Product(q, k) + r;
    Division(n, k);
    Unique(n / k, n % k, q, r, k);
  }

  lemma Division(n: nat, k: nat)
    requires k >= 1
    ensures n == Product(n / k, k) + n % k && n % k < k
  {
    hide Product;
    ProductIs(n / k, k);
  }

  lemma OneMore(q: nat, k: nat)
    ensures Product(q + 1, k) == Product(q, k) + k && Product(0, k) == 0 && Product(1, k) == k
  {
  }

  lemma {:induction false} Grows(a: nat, b: nat, k: nat)
    requires a <= b
    ensures Product(a, k) <= Product(b, k)
  {
    if a < b {
      Grows(a, b - 1, k);
    }
  }

  lemma Commutes(a: nat, b: nat)
    ensures Product(a, b) == Product(b, a)
  {
    ProductIs(a, b);
    ProductIs(b, a);
  }
}
