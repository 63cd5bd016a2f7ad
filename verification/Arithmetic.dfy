/** Repeated addition, for counting fixed-length steps in a span. */
module Arithmetic {
  // Repeated addition, for bounds that count fixed-length steps in a span and
  // for the lengths of lists of equally wide groups. It is the product, but as a
  // recursion that proofs can follow one step at a time, without multiplying two
  // unknowns.

  function Times(n: nat, m: nat): nat {
    if n == 0 then 0 else Times(n - 1, m) + m
  }

  lemma {:induction false} TimesIsProduct(n: nat, m: nat)
    ensures Times(n, m) == n * m
  {
    if n > 0 {
      TimesIsProduct(n - 1, m);
      assert n * m == (n - 1) * m + m;
    }
  }

  lemma {:induction false} TimesGrows(n: nat, k: nat, m: nat)
    requires n <= k
    ensures Times(n, m) <= Times(k, m)
  {
    if n < k { TimesGrows(n, k - 1, m); }
  }

  /** As many steps as the quotient says do fit. */
  lemma QuotientFits(span: nat, m: nat)
    requires m > 0
    ensures Times(span / m, m) <= span
  {
    var q := span / m;
    TimesIsProduct(q, m);
    assert q * m + span % m == span;
  }

  /** If `n` steps of length `m` fit into `span`, then `n` is at most `span / m`. */
  lemma FitsInto(n: nat, m: nat, span: nat)
    requires m > 0 && Times(n, m) <= span
    ensures n <= span / m
  {
    var q := span / m;
    assert Times(q + 1, m) > span by {
      TimesIsProduct(q, m);
      assert q * m + span % m == span;
    }
    if n > q {
      TimesGrows(q + 1, n, m);
      assert false;
    }
  }
}
