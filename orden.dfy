/** A stable sort by a numeric key: the list `sort` of the source, which keeps elements with
    equal keys in their original order. Ascending on `rango`; a descending sort (`reverse=True`,
    which is stable too) is the ascending sort on the negated key. */
module OrdenEstable {

  predicate Ordenada<T>(s: seq<T>, rango: T -> real) {
    forall i, j :: 0 <= i < j < |s| ==> rango(s[i]) <= rango(s[j])
  }

  /** Put `x` in front of the first element whose key is not smaller than its own. */
  function Insertar<T>(x: T, s: seq<T>, rango: T -> real): (r: seq<T>)
    ensures multiset(r) == multiset(s) + multiset{x}
    ensures |r| == |s| + 1
  {
    if s == [] || rango(x) <= rango(s[0]) then [x] + s
    else
      assert s == [s[0]] + s[1..];
      [s[0]] + Insertar(x, s[1..], rango)
  }

  /** Inserting an element that ranks at least `b` into a list whose elements all rank at
      least `b` gives such a list. */
  lemma {:induction false} InsertarCota<T>(x: T, s: seq<T>, rango: T -> real, b: real)
    requires b <= rango(x) && forall i :: 0 <= i < |s| ==> b <= rango(s[i])
    ensures forall i :: 0 <= i < |s| + 1 ==> b <= rango(Insertar(x, s, rango)[i])
  {
    if s != [] && rango(s[0]) < rango(x) {
      InsertarCota(x, s[1..], rango, b);
    }
  }

  /** Insertion keeps a list sorted. */
  lemma {:induction false} InsertarOrdenada<T>(x: T, s: seq<T>, rango: T -> real)
    requires Ordenada(s, rango)
    ensures Ordenada(Insertar(x, s, rango), rango)
  {
    if s != [] && rango(s[0]) < rango(x) {
      var resto := Insertar(x, s[1..], rango);
      InsertarOrdenada(x, s[1..], rango);
      InsertarCota(x, s[1..], rango, rango(s[0]));
      assert Insertar(x, s, rango) == [s[0]] + resto;
    }
  }

  function Ordenar<T>(s: seq<T>, rango: T -> real): (r: seq<T>)
    ensures multiset(r) == multiset(s)
    ensures |r| == |s|
    ensures Ordenada(r, rango)
  {
    if s == [] then []
    else
      assert s == [s[0]] + s[1..];
      InsertarOrdenada(s[0], Ordenar(s[1..], rango), rango);
      Insertar(s[0], Ordenar(s[1..], rango), rango)
  }

  /** The elements of `s` whose key is `v`, in the order `s` has them. */
  function ConRango<T>(s: seq<T>, rango: T -> real, v: real): seq<T> {
    if s == [] then []
    else (if rango(s[0]) == v then [s[0]] else []) + ConRango(s[1..], rango, v)
  }

  lemma {:induction false} InsertarEstable<T>(x: T, s: seq<T>, rango: T -> real, v: real)
    ensures ConRango(Insertar(x, s, rango), rango, v)
         == (if rango(x) == v then [x] else []) + ConRango(s, rango, v)
  {
    var r := Insertar(x, s, rango);
    if s == [] || rango(x) <= rango(s[0]) {
      assert r[0] == x && r[1..] == s;
    } else {
      var resto := Insertar(x, s[1..], rango);
      var cabeza := if rango(s[0]) == v then [s[0]] else [];
      var propia := if rango(x) == v then [x] else [];
      assert r[0] == s[0] && r[1..] == resto;
      InsertarEstable(x, s[1..], rango, v);
      assert ConRango(r, rango, v) == cabeza + (propia + ConRango(s[1..], rango, v));
      assert ConRango(s, rango, v) == cabeza + ConRango(s[1..], rango, v);
      // x ranks strictly above s[0], so at most one of the two heads is kept.
      assert cabeza == [] || propia == [];
    }
  }

  /** Stability: for every key value, the elements with that key come out in the order they
      went in (and none is lost or added). */
  lemma {:induction false} OrdenarEstable<T>(s: seq<T>, rango: T -> real, v: real)
    ensures ConRango(Ordenar(s, rango), rango, v) == ConRango(s, rango, v)
  {
    if s != [] {
      OrdenarEstable(s[1..], rango, v);
      InsertarEstable(s[0], Ordenar(s[1..], rango), rango, v);
    }
  }

  /** In a sorted list every element of a prefix ranks no higher than any element left out
      of it. */
  lemma PrefijoDeOrdenada<T>(s: seq<T>, rango: T -> real, n: nat)
    requires n <= |s| && Ordenada(s, rango)
    ensures multiset(s[..n]) <= multiset(s)
    ensures forall y, i :: y in multiset(s) - multiset(s[..n]) && 0 <= i < n ==> rango(s[i]) <= rango(y)
  {
    assert s == s[..n] + s[n..];
    assert multiset(s) == multiset(s[..n]) + multiset(s[n..]);
    forall y, i | y in multiset(s) - multiset(s[..n]) && 0 <= i < n
      ensures rango(s[i]) <= rango(y)
    {
      assert y in multiset(s[n..]);
      var j :| 0 <= j < |s[n..]| && s[n..][j] == y;
      assert s[n + j] == y;
    }
  }

  /** The elements of a prefix that have a given key form a prefix of those of the whole. */
  lemma {:induction false} ConRangoPrefijo<T>(s: seq<T>, rango: T -> real, v: real, n: nat)
    requires n <= |s|
    ensures ConRango(s[..n], rango, v) <= ConRango(s, rango, v)
  {
    if n > 0 {
      assert s[..n][1..] == s[1..][..n - 1];
      ConRangoPrefijo(s[1..], rango, v, n - 1);
    }
  }

  /** Filtering by key distributes over concatenation. */
  lemma {:induction false} ConRangoConcatenado<T>(a: seq<T>, b: seq<T>, rango: T -> real, v: real)
    ensures ConRango(a + b, rango, v) == ConRango(a, rango, v) + ConRango(b, rango, v)
  {
    if a == [] {
      assert a + b == b;
    } else {
      var c := a + b;
      var cabeza := if rango(a[0]) == v then [a[0]] else [];
      assert c[0] == a[0] && c[1..] == a[1..] + b;
      ConRangoConcatenado(a[1..], b, rango, v);
      calc {
        ConRango(c, rango, v);
        cabeza + ConRango(a[1..] + b, rango, v);
        cabeza + (ConRango(a[1..], rango, v) + ConRango(b, rango, v));
        (cabeza + ConRango(a[1..], rango, v)) + ConRango(b, rango, v);
      }
    }
  }
}
