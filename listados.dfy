/** The best and worst listings of a language pair. */
module Listados {

  import opened Idiomas
  import opened Traducciones
  import opened Tablas
  import opened Diccionarios
  import opened OrdenEstable

  type Item = (string, Traduccion)

  function Promedio(p: Item): real {
    p.1.puntuacionPromedio
  }

  /** Sorting key of the descending (best first) listing. */
  function RangoMejor(p: Item): real {
    -p.1.puntuacionPromedio
  }

  /** `lista[:limite]`, with Python's slice semantics: a negative limit drops that many
      elements from the end. */
  function Cortar<T>(s: seq<T>, limite: int): (r: seq<T>)
    ensures |r| == if limite >= 0 then (if limite < |s| then limite else |s|)
                   else (if |s| + limite > 0 then |s| + limite else 0)
    ensures r == s[..|r|]
  {
    var n := if limite >= 0 then (if limite < |s| then limite else |s|)
             else (if |s| + limite > 0 then |s| + limite else 0);
    s[..n]
  }

  /** `obtener_mejores_traducciones`: the pair's entries by descending average, ties in table
      order, cut to the limit. The listed entries are drawn from the pair, come in descending
      order, and none left out has a higher average than any listed one. */
  function Mejores(d: Diccionario, o: Idioma, t: Idioma, limite: int): (r: seq<Item>)
    ensures !(o in d && t in d[o]) ==> r == []
    ensures o in d && t in d[o] ==>
      && |r| == |Cortar(d[o][t], limite)|
      && multiset(r) <= multiset(d[o][t])
      && (forall i, j :: 0 <= i < j < |r| ==> Promedio(r[i]) >= Promedio(r[j]))
      && (forall y, i :: y in multiset(d[o][t]) - multiset(r) && 0 <= i < |r| ==> Promedio(r[i]) >= Promedio(y))
  {
    if o !in d || t !in d[o] then []
    else
      var ordenada := Ordenar(d[o][t], RangoMejor);
      var r := Cortar(ordenada, limite);
      PrefijoDeOrdenada(ordenada, RangoMejor, |r|);
      r
  }

  /** `obtener_peores_traducciones`: the pair's entries by ascending average, ties in table
      order, cut to the limit. The listed entries are drawn from the pair, come in ascending
      order, and none left out has a lower average than any listed one. */
  function Peores(d: Diccionario, o: Idioma, t: Idioma, limite: int): (r: seq<Item>)
    ensures !(o in d && t in d[o]) ==> r == []
    ensures o in d && t in d[o] ==>
      && |r| == |Cortar(d[o][t], limite)|
      && multiset(r) <= multiset(d[o][t])
      && (forall i, j :: 0 <= i < j < |r| ==> Promedio(r[i]) <= Promedio(r[j]))
      && (forall y, i :: y in multiset(d[o][t]) - multiset(r) && 0 <= i < |r| ==> Promedio(r[i]) <= Promedio(y))
  {
    if o !in d || t !in d[o] then []
    else
      var ordenada := Ordenar(d[o][t], Promedio);
      var r := Cortar(ordenada, limite);
      PrefijoDeOrdenada(ordenada, Promedio, |r|);
      r
  }

  /** Ties keep the pair's insertion order: among the listed entries with a given average,
      the order is that of the table (the sort is stable, also when descending). */
  lemma MejoresEstable(d: Diccionario, o: Idioma, t: Idioma, limite: int, v: real)
    requires o in d && t in d[o]
    ensures ConRango(Mejores(d, o, t, limite), RangoMejor, v) <= ConRango(d[o][t], RangoMejor, v)
  {
    var ordenada := Ordenar(d[o][t], RangoMejor);
    OrdenarEstable(d[o][t], RangoMejor, v);
    ConRangoPrefijo(ordenada, RangoMejor, v, |Mejores(d, o, t, limite)|);
  }

  lemma PeoresEstable(d: Diccionario, o: Idioma, t: Idioma, limite: int, v: real)
    requires o in d && t in d[o]
    ensures ConRango(Peores(d, o, t, limite), Promedio, v) <= ConRango(d[o][t], Promedio, v)
  {
    var ordenada := Ordenar(d[o][t], Promedio);
    OrdenarEstable(d[o][t], Promedio, v);
    ConRangoPrefijo(ordenada, Promedio, v, |Peores(d, o, t, limite)|);
  }
}
