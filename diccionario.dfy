/** The translation store: source language -> target language -> lower-cased phrase -> entry,
    and the pure queries over it. */
module Diccionarios {

  import opened Wrappers
  import opened Idiomas
  import opened Texto
  import opened Traducciones
  import opened Tablas

  /** The target languages of one source language. */
  type Fila = map<Idioma, Tabla>
  type Diccionario = map<Idioma, Fila>

  /** The empty skeleton: every language is a source, and each source has an empty table for
      every other language and none for itself. */
  predicate EsEsqueleto(d: Diccionario) {
    forall o: Idioma :: o in d && forall t: Idioma :: (t in d[o] <==> t != o) && (t in d[o] ==> d[o][t] == [])
  }

  /** Every table of a well-formed dictionary has unique keys. */
  predicate BienFormado(d: Diccionario) {
    forall o, t :: o in d && t in d[o] ==> ClavesUnicas(d[o][t])
  }

  /** The table of a pair; an absent pair reads as an empty table. */
  function TablaDe(d: Diccionario, o: Idioma, t: Idioma): Tabla {
    if o in d && t in d[o] then d[o][t] else []
  }

  /** `existe_traduccion`: is there an entry for the lower-cased phrase? */
  predicate Existe(d: Diccionario, o: Idioma, t: Idioma, texto: string): (b: bool)
    ensures b <==> exists i :: 0 <= i < |TablaDe(d, o, t)| && TablaDe(d, o, t)[i].0 == Minusculas(texto)
    ensures b ==> o in d && t in d[o]
  {
    if o in d && t in d[o] then
      var clave := Minusculas(texto);
      assert TablaDe(d, o, t) == d[o][t];
      assert clave in Claves(d[o][t]) <==> exists i :: 0 <= i < |d[o][t]| && d[o][t][i].0 == clave;
      clave in Claves(d[o][t])
    else false
  }

  /** The entry a lookup of `texto` finds, if any. */
  function Entrada(d: Diccionario, o: Idioma, t: Idioma, texto: string): (r: Option<Traduccion>)
    ensures r.Some? <==> Existe(d, o, t, texto)
    ensures r.Some? ==> (Minusculas(texto), r.value) in TablaDe(d, o, t)
  {
    if o in d && t in d[o] then Buscar(d[o][t], Minusculas(texto)) else None
  }

  /** Lookups ignore case: two phrases that lower-case alike find the same entry. */
  lemma EntradaIgnoraMayusculas(d: Diccionario, o: Idioma, t: Idioma, a: string, b: string)
    requires Minusculas(a) == Minusculas(b)
    ensures Entrada(d, o, t, a) == Entrada(d, o, t, b)
    ensures Existe(d, o, t, a) <==> Existe(d, o, t, b)
  {
  }

  /** Looking up the lower-cased phrase is looking up the phrase. */
  lemma EntradaDeMinusculas(d: Diccionario, o: Idioma, t: Idioma, texto: string)
    ensures Entrada(d, o, t, Minusculas(texto)) == Entrada(d, o, t, texto)
  {
    MinusculasIdempotente(texto);
  }

  /** `diccionario[o][t][clave] = v`, creating the source row and the pair table when absent. */
  function Insertar(d: Diccionario, o: Idioma, t: Idioma, clave: string, v: Traduccion): (r: Diccionario)
    ensures r.Keys == d.Keys + {o}
    ensures t in r[o] && r[o][t] == Poner(TablaDe(d, o, t), clave, v)
    ensures r[o].Keys == (if o in d then d[o].Keys else {}) + {t}
    ensures forall t' :: t' in r[o] && t' != t ==> r[o][t'] == d[o][t']
    ensures forall o' :: o' in d && o' != o ==> r[o'] == d[o']
  {
    var fila := if o in d then d[o] else map[];
    var tabla := if t in fila then fila[t] else [];
    d[o := fila[t := Poner(tabla, clave, v)]]
  }

  /** After an insertion the pair finds the new entry under its key, every other key and
      every other pair reads as before. */
  lemma InsertarEntrada(d: Diccionario, o: Idioma, t: Idioma, texto: string, v: Traduccion,
                        o': Idioma, t': Idioma, otro: string)
    ensures Entrada(Insertar(d, o, t, Minusculas(texto), v), o, t, texto) == Some(v)
    ensures (o', t', Minusculas(otro)) != (o, t, Minusculas(texto)) ==>
      Entrada(Insertar(d, o, t, Minusculas(texto), v), o', t', otro) == Entrada(d, o', t', otro)
  {
    var k := Minusculas(texto);
    PonerBuscar(TablaDe(d, o, t), k, v, Minusculas(otro));
  }

  lemma InsertarBienFormado(d: Diccionario, o: Idioma, t: Idioma, clave: string, v: Traduccion)
    requires BienFormado(d)
    ensures BienFormado(Insertar(d, o, t, clave, v))
  {
    var r := Insertar(d, o, t, clave, v);
    PonerClavesUnicas(TablaDe(d, o, t), clave, v);
    forall o', t' | o' in r && t' in r[o'] ensures ClavesUnicas(r[o'][t']) {
      if o' != o {
        assert r[o'] == d[o'];
      } else if t' != t {
        assert r[o][t'] == d[o][t'];
      }
    }
  }

  lemma EsqueletoBienFormado(d: Diccionario)
    requires EsEsqueleto(d)
    ensures BienFormado(d)
  {
  }

  // ---------------------------------------------------------------------------------------
  // Counting entries: the sum over every source row of the sizes of its tables.

  function Tamano(f: Fila, t: Idioma): nat {
    if t in f then |f[t]| else 0
  }

  function SumaFila(f: Fila, ls: seq<Idioma>): nat {
    if ls == [] then 0 else SumaFila(f, ls[..|ls| - 1]) + Tamano(f, ls[|ls| - 1])
  }

  function TotalFila(d: Diccionario, o: Idioma): nat {
    if o in d then SumaFila(d[o], TodosLosIdiomas) else 0
  }

  function SumaOrigenes(d: Diccionario, ls: seq<Idioma>): nat {
    if ls == [] then 0 else SumaOrigenes(d, ls[..|ls| - 1]) + TotalFila(d, ls[|ls| - 1])
  }

  /** The number of entries in the whole dictionary. */
  function Total(d: Diccionario): nat {
    SumaOrigenes(d, TodosLosIdiomas)
  }

  lemma SinRepetidosPrefijo(ls: seq<Idioma>)
    requires SinRepetidos(ls) && ls != []
    ensures SinRepetidos(ls[..|ls| - 1]) && ls[|ls| - 1] !in ls[..|ls| - 1]
  {
  }

  /** Changing the table of one target language changes a row's sum by the change in that
      table's size. */
  lemma {:induction false} SumaFilaCambio(f: Fila, g: Fila, t: Idioma, ls: seq<Idioma>)
    requires SinRepetidos(ls)
    requires forall l :: l != t ==> Tamano(g, l) == Tamano(f, l)
    ensures SumaFila(g, ls) + (if t in ls then Tamano(f, t) else 0)
         == SumaFila(f, ls) + (if t in ls then Tamano(g, t) else 0)
  {
    if ls != [] {
      SinRepetidosPrefijo(ls);
      SumaFilaCambio(f, g, t, ls[..|ls| - 1]);
      assert t in ls <==> t in ls[..|ls| - 1] || t == ls[|ls| - 1];
    }
  }

  /** Changing the row of one source language changes the total by the change in that
      row's sum. */
  lemma {:induction false} SumaOrigenesCambio(d: Diccionario, e: Diccionario, o: Idioma, ls: seq<Idioma>)
    requires SinRepetidos(ls)
    requires forall l :: l != o ==> TotalFila(e, l) == TotalFila(d, l)
    ensures SumaOrigenes(e, ls) + (if o in ls then TotalFila(d, o) else 0)
         == SumaOrigenes(d, ls) + (if o in ls then TotalFila(e, o) else 0)
  {
    if ls != [] {
      SinRepetidosPrefijo(ls);
      SumaOrigenesCambio(d, e, o, ls[..|ls| - 1]);
      assert o in ls <==> o in ls[..|ls| - 1] || o == ls[|ls| - 1];
    }
  }

  /** An insertion adds one entry when the key is new to the pair and none when it
      overwrites. */
  lemma TotalInsertar(d: Diccionario, o: Idioma, t: Idioma, clave: string, v: Traduccion)
    ensures Total(Insertar(d, o, t, clave, v))
         == Total(d) + (if clave in Claves(TablaDe(d, o, t)) then 0 else 1)
  {
    var r := Insertar(d, o, t, clave, v);
    TotalFilaInsertar(d, o, t, clave, v);
    assert forall l :: l != o ==> TotalFila(r, l) == TotalFila(d, l);
    EnumeracionCompleta(o);
    SumaOrigenesCambio(d, r, o, TodosLosIdiomas);
  }

  lemma TotalFilaInsertar(d: Diccionario, o: Idioma, t: Idioma, clave: string, v: Traduccion)
    ensures TotalFila(Insertar(d, o, t, clave, v), o)
         == TotalFila(d, o) + (if clave in Claves(TablaDe(d, o, t)) then 0 else 1)
  {
    var r := Insertar(d, o, t, clave, v);
    var f: Fila := if o in d then d[o] else map[];
    EnumeracionCompleta(t);
    PonerBuscar(TablaDe(d, o, t), clave, v, clave);
    assert Tamano(r[o], t) == Tamano(f, t) + (if clave in Claves(TablaDe(d, o, t)) then 0 else 1);
    assert forall l :: l != t ==> Tamano(r[o], l) == Tamano(f, l);
    SumaFilaCambio(f, r[o], t, TodosLosIdiomas);
    assert TotalFila(d, o) == SumaFila(f, TodosLosIdiomas) by {
      if o !in d { SumaFilaVacia(f, TodosLosIdiomas); }
    }
  }

  /** A row whose tables are all empty sums to zero. */
  lemma {:induction false} SumaFilaVacia(f: Fila, ls: seq<Idioma>)
    requires forall l :: l in f ==> f[l] == []
    ensures SumaFila(f, ls) == 0
  {
    if ls != [] {
      SumaFilaVacia(f, ls[..|ls| - 1]);
    }
  }

  lemma {:induction false} SumaOrigenesVacia(d: Diccionario, ls: seq<Idioma>)
    requires forall o :: o in d ==> forall t :: t in d[o] ==> d[o][t] == []
    ensures SumaOrigenes(d, ls) == 0
  {
    if ls != [] {
      var o := ls[|ls| - 1];
      if o in d { SumaFilaVacia(d[o], TodosLosIdiomas); }
      SumaOrigenesVacia(d, ls[..|ls| - 1]);
    }
  }

  /** The skeleton holds no entry. */
  lemma TotalEsqueleto(d: Diccionario)
    requires EsEsqueleto(d)
    ensures Total(d) == 0
  {
    SumaOrigenesVacia(d, TodosLosIdiomas);
  }
}
