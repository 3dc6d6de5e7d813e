/** The phrase table of one language pair: an insertion-ordered dictionary from the
    lower-cased source phrase to its entry, kept as a list of (key, entry) pairs so that the
    order the dictionary iterates in is part of the model. */
module Tablas {

  import opened Wrappers
  import opened Traducciones

  type Tabla = seq<(string, Traduccion)>

  function Claves(t: Tabla): set<string> {
    set i | 0 <= i < |t| :: t[i].0
  }

  /** Dictionary keys are unique. */
  predicate ClavesUnicas(t: Tabla) {
    forall i, j :: 0 <= i < j < |t| ==> t[i].0 != t[j].0
  }

  /** Where key `k` sits in the table, or |t| when it is absent. */
  function Posicion(t: Tabla, k: string): (p: nat)
    ensures p <= |t|
    ensures p < |t| ==> t[p].0 == k
    ensures forall j :: 0 <= j < p ==> t[j].0 != k
    ensures p == |t| <==> k !in Claves(t)
  {
    if t == [] then 0
    else if t[0].0 == k then 0
    else
      1 + Posicion(t[1..], k)
  }

  /** `k in table` then `table[k]`. */
  function Buscar(t: Tabla, k: string): (r: Option<Traduccion>)
    ensures r.Some? <==> k in Claves(t)
    ensures r.Some? ==> (k, r.value) in t
  {
    var p := Posicion(t, k);
    if p < |t| then Some(t[p].1) else None
  }

  /** `table[k] = v`: a present key keeps its place and gets the new value, an absent key
      is appended at the end. */
  function Poner(t: Tabla, k: string, v: Traduccion): (r: Tabla)
    ensures k !in Claves(t) ==> r == t + [(k, v)]
    ensures k in Claves(t) ==>
      |r| == |t| && r[Posicion(t, k)] == (k, v)
      && forall j :: 0 <= j < |t| && j != Posicion(t, k) ==> r[j] == t[j]
  {
    var p := Posicion(t, k);
    if p < |t| then t[p := (k, v)] else t + [(k, v)]
  }

  /** After `table[k] = v`, looking up `k` gives `v`, every other key gives what it gave
      before, and the table grew by one exactly when `k` was new. */
  lemma PonerBuscar(t: Tabla, k: string, v: Traduccion, otra: string)
    ensures Buscar(Poner(t, k, v), k) == Some(v)
    ensures otra != k ==> Buscar(Poner(t, k, v), otra) == Buscar(t, otra)
    ensures Claves(Poner(t, k, v)) == Claves(t) + {k}
    ensures |Poner(t, k, v)| == if k in Claves(t) then |t| else |t| + 1
  {
    PonerBuscarMisma(t, k, v);
    if otra != k {
      PonerBuscarOtra(t, k, v, otra);
    }
    PonerClaves(t, k, v);
  }

  lemma PonerBuscarMisma(t: Tabla, k: string, v: Traduccion)
    ensures Buscar(Poner(t, k, v), k) == Some(v)
  {
    var r := Poner(t, k, v);
    var p := Posicion(t, k);
    if p < |t| {
      assert r[p].0 == k;
    } else {
      assert r[|t|].0 == k;
      assert forall j :: 0 <= j < |t| ==> r[j] == t[j];
    }
    assert Posicion(r, k) == p;
  }

  lemma PonerBuscarOtra(t: Tabla, k: string, v: Traduccion, otra: string)
    requires otra != k
    ensures Buscar(Poner(t, k, v), otra) == Buscar(t, otra)
  {
    var r := Poner(t, k, v);
    var p := Posicion(t, k);
    var q := Posicion(t, otra);
    assert forall j :: 0 <= j < |t| && j != p ==> r[j] == t[j];
    assert forall j :: 0 <= j < q ==> r[j].0 != otra;
    if q < |t| {
      assert r[q] == t[q];
      assert Posicion(r, otra) == q;
    } else {
      assert otra !in Claves(r) by {
        forall i | 0 <= i < |r| ensures r[i].0 != otra {
          if i < |t| && i != p { assert r[i] == t[i]; }
        }
      }
    }
  }

  lemma PonerClaves(t: Tabla, k: string, v: Traduccion)
    ensures Claves(Poner(t, k, v)) == Claves(t) + {k}
    ensures |Poner(t, k, v)| == if k in Claves(t) then |t| else |t| + 1
  {
    var r := Poner(t, k, v);
    var p := Posicion(t, k);
    forall x | x in Claves(r) ensures x in Claves(t) + {k} {
      var i :| 0 <= i < |r| && r[i].0 == x;
      if x != k { assert i < |t| && r[i] == t[i]; }
    }
    forall x | x in Claves(t) + {k} ensures x in Claves(r) {
      if x == k {
        if p < |t| { assert r[p].0 == k; } else { assert r[|t|].0 == k; }
      } else {
        var i :| 0 <= i < |t| && t[i].0 == x;
        assert i != p && r[i] == t[i];
      }
    }
  }

  /** `table[k] = v` keeps the keys unique. */
  lemma PonerClavesUnicas(t: Tabla, k: string, v: Traduccion)
    requires ClavesUnicas(t)
    ensures ClavesUnicas(Poner(t, k, v))
  {
    var r := Poner(t, k, v);
    var p := Posicion(t, k);
    if p == |t| {
      forall i, j | 0 <= i < j < |r| ensures r[i].0 != r[j].0 {
        if j == |t| {
          assert r[i] == t[i];
          assert t[i].0 in Claves(t);
        }
      }
    }
  }
}
