/** The scoring rule: an entry's average is the plain arithmetic mean of its whole history. */
module Puntuacion {

  /** The range of scores an evaluation accepts. */
  const Minima: real := 1.0
  const Maxima: real := 10.0

  /** `sum(historial)`, adding from left to right. */
  function Suma(h: seq<real>): real {
    if h == [] then 0.0 else Suma(h[..|h| - 1]) + h[|h| - 1]
  }

  function Media(h: seq<real>): real
    requires |h| > 0
  {
    Suma(h) / (|h| as real)
  }

  /** Summing a concatenated history adds the sums of its two halves. */
  lemma {:induction false} SumaConcatenada(a: seq<real>, b: seq<real>)
    ensures Suma(a + b) == Suma(a) + Suma(b)
  {
    if b != [] {
      var b' := b[..|b| - 1];
      assert (a + b)[..|a + b| - 1] == a + b';
      SumaConcatenada(a, b');
    } else {
      assert a + b == a;
    }
  }

  predicate EnRango(h: seq<real>, lo: real, hi: real) {
    forall i :: 0 <= i < |h| ==> lo <= h[i] <= hi
  }

  /** A history whose scores lie in [lo, hi] sums to between |h| * lo and |h| * hi. */
  lemma {:induction false} SumaAcotada(h: seq<real>, lo: real, hi: real)
    requires EnRango(h, lo, hi)
    ensures (|h| as real) * lo <= Suma(h) <= (|h| as real) * hi
  {
    if h != [] {
      var previos := h[..|h| - 1];
      assert EnRango(previos, lo, hi) by {
        forall i | 0 <= i < |previos| ensures previos[i] == h[i] { }
      }
      SumaAcotada(previos, lo, hi);
      var n := |previos| as real;
      assert (|h| as real) * lo == n * lo + lo;
      assert (|h| as real) * hi == n * hi + hi;
    }
  }

  /** The mean of scores in [lo, hi] lies in [lo, hi]: with every evaluation in 1..10 the
      average stays in 1..10. */
  lemma MediaAcotada(h: seq<real>, lo: real, hi: real)
    requires |h| > 0 && EnRango(h, lo, hi)
    ensures lo <= Media(h) <= hi
  {
    SumaAcotada(h, lo, hi);
    CocienteEntre(Suma(h), |h|, lo, hi);
  }

  /** A total of `n` values in [lo, hi], divided by `n`, lies in [lo, hi]. */
  lemma CocienteEntre(s: real, n: nat, lo: real, hi: real)
    requires n > 0 && lo * n as real <= s <= hi * n as real
    ensures lo <= s / n as real <= hi
  {
    var k := n as real;
    assert s / k - lo == (s - lo * k) / k;
    assert hi - s / k == (hi * k - s) / k;
  }

  /** The mean of a concatenation is the mean of the two means weighted by their lengths. */
  lemma MediaConcatenada(a: seq<real>, b: seq<real>)
    requires |a| > 0 && |b| > 0
    ensures Media(a + b) == (Media(a) * (|a| as real) + Media(b) * (|b| as real)) / ((|a| + |b|) as real)
  {
    SumaConcatenada(a, b);
    var na, nb := |a| as real, |b| as real;
    assert Media(a) * na == Suma(a);
    assert Media(b) * nb == Suma(b);
  }
}
