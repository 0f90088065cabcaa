/**
 * Multiplication and Euclidean division of natural numbers, written as
 * repeated addition and subtraction. The sticker layout is stated with
 * these, so that its proofs unfold them one step at a time; the last lemmas
 * tie them to *, / and %.
 */
module Counting {

  /** q * d, as q additions of d. */
  function Multiple(q: nat, d: nat): nat
    decreases q
  {
    if q == 0 then 0 else Multiple(q - 1, d) + d
  }

  /** i / d for d >= 1: how often d can be taken from i. */
  function Quot(i: nat, d: nat): nat
    requires d >= 1
    decreases i
  {
    if i < d then 0 else Quot(i - d, d) + 1
  }

  /** i % d for d >= 1: what is left of i once d can no longer be taken. */
  function Rem(i: nat, d: nat): (r: nat)
    requires d >= 1
    ensures r < d
    decreases i
  {
    if i < d then i else Rem(i - d, d)
  }

  lemma {:induction false} MultipleMonotone(p: nat, q: nat, d: nat)
    requires p <= q
    ensures Multiple(p, d) <= Multiple(q, d)
    decreases q
  {
    if p < q {
      MultipleMonotone(p, q - 1, d);
    }
  }

  /** i is Quot(i, d) times d plus Rem(i, d). */
  lemma {:induction false} QuotRemSplit(i: nat, d: nat)
    requires d >= 1
    ensures i == Multiple(Quot(i, d), d) + Rem(i, d)
    decreases i
  {
    if i >= d {
      QuotRemSplit(i - d, d);
    }
  }

  /** The quotient and remainder of x = q times d plus r, r < d, are q and
      r. */
  lemma {:induction false} QuotRemOf(x: nat, q: nat, r: nat, d: nat)
    requires r < d && x == Multiple(q, d) + r
    ensures Quot(x, d) == q && Rem(x, d) == r
    decreases q
  {
    if q > 0 {
      QuotRemOf(x - d, q - 1, r, d);
    }
  }

  lemma {:induction false} MultipleFormula(q: nat, d: nat)
    ensures Multiple(q, d) == q * d
    decreases q
  {
    if q > 0 {
      MultipleFormula(q - 1, d);
      assert q * d == (q - 1) * d + d;
    }
  }

  lemma {:induction false} MultipleAtLeast(a: int, d: int)
    requires a >= 1 && d > 0
    ensures a * d >= d
    decreases a
  {
    if a > 1 {
      MultipleAtLeast(a - 1, d);
      assert a * d == (a - 1) * d + d;
    }
  }

  /** Euclidean division has one quotient and remainder. */
  lemma DivModUnique(c: int, d: int, q: int, r: int)
    requires d > 0 && 0 <= r < d && c == q * d + r
    ensures c / d == q && c % d == r
  {
    var q', r' := c / d, c % d;
    assert c == q' * d + r';
    assert (q - q') * d == r' - r;
    if q > q' {
      MultipleAtLeast(q - q', d);
    } else if q < q' {
      MultipleAtLeast(q' - q, d);
    }
  }

  /** Quot and Rem are / and %. */
  lemma QuotRemFormula(i: nat, d: nat)
    requires d >= 1
    ensures Quot(i, d) == i / d && Rem(i, d) == i % d
  {
    QuotRemSplit(i, d);
    MultipleFormula(Quot(i, d), d);
    DivModUnique(i, d, Quot(i, d), Rem(i, d));
  }
}
