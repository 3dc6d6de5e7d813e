/** The statistics report over the dictionary: entry and evaluation counts, the mean of the
    per-pair mean averages, and per-language figures, as the three nested accumulator loops
    compute them (sources, then targets, then the entries of each non-empty pair). */
module Estadisticas {

  import opened Idiomas
  import opened Traducciones
  import opened Tablas
  import opened Diccionarios
  import opened Puntuacion

  /** The per-language figures: entries with the language as source and as target, and the
      best and worst average among the entries with the language as source. */
  datatype EstadisticasIdioma = EstadisticasIdioma(
    comoOrigen: nat,
    comoDestino: nat,
    mejorPuntuacion: real,
    peorPuntuacion: real)

  /** Every language starts with no entries, best 0 and worst 10. */
  const Inicial := EstadisticasIdioma(0, 0, 0.0, 10.0)

  type PorIdioma = map<Idioma, EstadisticasIdioma>

  predicate Completo(m: PorIdioma) {
    forall l: Idioma :: l in m
  }

  function PorIdiomaInicial(): (m: PorIdioma)
    ensures Completo(m)
    ensures forall l :: m[l] == Inicial
  {
    var m := map l: Idioma | l in TodosLosIdiomas :: Inicial;
    assert forall l: Idioma :: l in m by {
      forall l: Idioma ensures l in m { EnumeracionCompleta(l); }
    }
    m
  }

  datatype EstadisticasGlobales = EstadisticasGlobales(
    totalTraducciones: nat,
    totalEvaluaciones: nat,
    puntuacionGlobal: real,
    combinacionesConTraducciones: nat,
    estadisticasIdiomas: PorIdioma,
    historialTraducciones: nat)

  // ---------------------------------------------------------------------------------------
  // The innermost loop, over the entries of one non-empty pair.

  /** The averages of a pair's entries, in table order. */
  function Promedios(t: Tabla): (r: seq<real>)
    ensures |r| == |t|
  {
    seq(|t|, i requires 0 <= i < |t| => t[i].1.puntuacionPromedio)
  }

  function SumaEvaluaciones(t: Tabla): nat {
    if t == [] then 0 else SumaEvaluaciones(t[..|t| - 1]) + t[|t| - 1].1.totalEvaluaciones
  }

  /** The running best: raised whenever an entry's average is strictly greater. */
  function MejorDe(m: real, t: Tabla): (r: real)
    ensures m <= r
    ensures forall i :: 0 <= i < |t| ==> t[i].1.puntuacionPromedio <= r
  {
    if t == [] then m
    else
      var previo := MejorDe(m, t[..|t| - 1]);
      var p := t[|t| - 1].1.puntuacionPromedio;
      assert forall i :: 0 <= i < |t| - 1 ==> t[..|t| - 1][i] == t[i];
      if p > previo then p else previo
  }

  /** The running worst: lowered whenever an entry's average is strictly smaller. */
  function PeorDe(m: real, t: Tabla): (r: real)
    ensures r <= m
    ensures forall i :: 0 <= i < |t| ==> r <= t[i].1.puntuacionPromedio
  {
    if t == [] then m
    else
      var previo := PeorDe(m, t[..|t| - 1]);
      var p := t[|t| - 1].1.puntuacionPromedio;
      assert forall i :: 0 <= i < |t| - 1 ==> t[..|t| - 1][i] == t[i];
      if p < previo then p else previo
  }

  /** The best is the starting value or the average of some entry. */
  lemma {:induction false} MejorDeAlcanzado(m: real, t: Tabla)
    ensures MejorDe(m, t) == m || exists i :: 0 <= i < |t| && MejorDe(m, t) == t[i].1.puntuacionPromedio
  {
    if t != [] {
      var previos := t[..|t| - 1];
      MejorDeAlcanzado(m, previos);
      assert forall i :: 0 <= i < |previos| ==> previos[i] == t[i];
    }
  }

  /** The worst is the starting value or the average of some entry. */
  lemma {:induction false} PeorDeAlcanzado(m: real, t: Tabla)
    ensures PeorDe(m, t) == m || exists i :: 0 <= i < |t| && PeorDe(m, t) == t[i].1.puntuacionPromedio
  {
    if t != [] {
      var previos := t[..|t| - 1];
      PeorDeAlcanzado(m, previos);
      assert forall i :: 0 <= i < |previos| ==> previos[i] == t[i];
    }
  }

  // ---------------------------------------------------------------------------------------
  // The outer loops, as folds over the languages in enumeration order.

  datatype Acumulado = Acumulado(
    totalTraducciones: nat,
    totalEvaluaciones: nat,
    sumaGlobal: real,
    combinaciones: nat,
    idiomas: PorIdioma)

  function AcumuladoInicial(): (a: Acumulado)
    ensures Completo(a.idiomas)
  {
    Acumulado(0, 0, 0.0, 0, PorIdiomaInicial())
  }

  /** The figures after the pair table `tabla` (source `o`, target `t`) was accounted for;
      an empty table is skipped. */
  function PasoPar(a: Acumulado, o: Idioma, t: Idioma, tabla: Tabla): (r: Acumulado)
    requires Completo(a.idiomas)
    ensures Completo(r.idiomas)
  {
    if tabla == [] then a
    else
      Acumulado(a.totalTraducciones + |tabla|, a.totalEvaluaciones + SumaEvaluaciones(tabla),
                a.sumaGlobal + Suma(Promedios(tabla)) / |tabla| as real, a.combinaciones + 1,
                IdiomasPar(a.idiomas, o, t, tabla))
  }

  /** The per-language figures after a non-empty pair: both languages count its entries, and
      its entries are folded into the source's best and worst. */
  function IdiomasPar(m: PorIdioma, o: Idioma, t: Idioma, tabla: Tabla): (r: PorIdioma)
    requires Completo(m)
    ensures Completo(r)
  {
    var r := map l: Idioma | l in TodosLosIdiomas :: IdiomaTrasPar(m[l], l, o, t, tabla);
    assert forall l: Idioma :: l in r by {
      forall l: Idioma ensures l in r { EnumeracionCompleta(l); }
    }
    r
  }

  /** The figures of language `l` after the pair (`o`, `t`). */
  function IdiomaTrasPar(e: EstadisticasIdioma, l: Idioma, o: Idioma, t: Idioma, tabla: Tabla): EstadisticasIdioma {
    EstadisticasIdioma(
      e.comoOrigen + (if l == o then |tabla| else 0),
      e.comoDestino + (if l == t then |tabla| else 0),
      if l == o then MejorDe(e.mejorPuntuacion, tabla) else e.mejorPuntuacion,
      if l == o then PeorDe(e.peorPuntuacion, tabla) else e.peorPuntuacion)
  }

  /** The same figures, as the report writes them: the two counts first, then the source's
      best and worst. */
  lemma IdiomasParEnOrden(m: PorIdioma, o: Idioma, t: Idioma, tabla: Tabla)
    requires Completo(m)
    ensures IdiomasPar(m, o, t, tabla) == EnOrden(m, o, t, tabla)
  {
    var r := IdiomasPar(m, o, t, tabla);
    var m3 := EnOrden(m, o, t, tabla);
    forall l: Idioma ensures r[l] == m3[l] {
      EnumeracionCompleta(l);
      EnOrdenIdioma(m, o, t, tabla, l);
    }
    assert r.Keys == m3.Keys;
  }

  /** The three in-place updates of the report for a non-empty pair. */
  function EnOrden(m: PorIdioma, o: Idioma, t: Idioma, tabla: Tabla): (r: PorIdioma)
    requires Completo(m)
    ensures Completo(r)
  {
    var m1 := m[o := m[o].(comoOrigen := m[o].comoOrigen + |tabla|)];
    var m2 := m1[t := m1[t].(comoDestino := m1[t].comoDestino + |tabla|)];
    m2[o := m2[o].(mejorPuntuacion := MejorDe(m2[o].mejorPuntuacion, tabla),
                   peorPuntuacion := PeorDe(m2[o].peorPuntuacion, tabla))]
  }

  lemma EnOrdenIdioma(m: PorIdioma, o: Idioma, t: Idioma, tabla: Tabla, l: Idioma)
    requires Completo(m)
    ensures EnOrden(m, o, t, tabla)[l] == IdiomaTrasPar(m[l], l, o, t, tabla)
  {
    var n := |tabla|;
    var m1 := m[o := m[o].(comoOrigen := m[o].comoOrigen + n)];
    var m2 := m1[t := m1[t].(comoDestino := m1[t].comoDestino + n)];
    if l == o {
      EnOrdenOrigen(m, o, t, tabla);
    } else {
      assert EnOrden(m, o, t, tabla)[l] == m2[l];
      if l == t {
        assert m2[l] == m[l].(comoDestino := m[l].comoDestino + n);
      } else {
        assert m2[l] == m[l];
      }
    }
  }

  lemma EnOrdenOrigen(m: PorIdioma, o: Idioma, t: Idioma, tabla: Tabla)
    requires Completo(m)
    ensures EnOrden(m, o, t, tabla)[o] == IdiomaTrasPar(m[o], o, o, t, tabla)
  {
    var n := |tabla|;
    var e1 := m[o].(comoOrigen := m[o].comoOrigen + n);
    var e2 := if o == t then e1.(comoDestino := e1.comoDestino + n) else e1;
    var m1 := m[o := e1];
    var m2 := m1[t := m1[t].(comoDestino := m1[t].comoDestino + n)];
    assert m2[o] == e2;
  }

  /** What a pair does to the figures of language `l`: its size is added to the source
      count of its source and to the target count of its target, and only its source's best
      and worst move; an empty pair changes nothing. */
  lemma PasoParIdioma(a: Acumulado, o: Idioma, t: Idioma, tabla: Tabla, l: Idioma)
    requires Completo(a.idiomas)
    ensures PasoPar(a, o, t, tabla).idiomas[l] == EstadisticasIdioma(
      a.idiomas[l].comoOrigen + (if l == o then |tabla| else 0),
      a.idiomas[l].comoDestino + (if l == t then |tabla| else 0),
      if l == o then MejorDe(a.idiomas[l].mejorPuntuacion, tabla) else a.idiomas[l].mejorPuntuacion,
      if l == o then PeorDe(a.idiomas[l].peorPuntuacion, tabla) else a.idiomas[l].peorPuntuacion)
  {
    if tabla != [] {
      assert PasoPar(a, o, t, tabla).idiomas == IdiomasPar(a.idiomas, o, t, tabla);
      EnumeracionCompleta(l);
    }
  }

  /** The targets loop for source `o`. */
  function PasoFila(a: Acumulado, o: Idioma, fila: Fila, ls: seq<Idioma>): (r: Acumulado)
    requires Completo(a.idiomas)
    ensures Completo(r.idiomas)
    ensures r.totalTraducciones == a.totalTraducciones + SumaFila(fila, ls)
  {
    if ls == [] then a
    else
      var t := ls[|ls| - 1];
      PasoPar(PasoFila(a, o, fila, ls[..|ls| - 1]), o, t, if t in fila then fila[t] else [])
  }

  /** Only the row's own language gains source entries: the size of the row. */
  lemma {:induction false} PasoFilaComoOrigen(a: Acumulado, o: Idioma, fila: Fila, ls: seq<Idioma>, l: Idioma)
    requires Completo(a.idiomas)
    ensures PasoFila(a, o, fila, ls).idiomas[l].comoOrigen
         == a.idiomas[l].comoOrigen + (if l == o then SumaFila(fila, ls) else 0)
  {
    if ls != [] {
      var t := ls[|ls| - 1];
      PasoFilaComoOrigen(a, o, fila, ls[..|ls| - 1], l);
      PasoParIdioma(PasoFila(a, o, fila, ls[..|ls| - 1]), o, t, if t in fila then fila[t] else [], l);
    }
  }

  /** Each visited target language gains the entries of its table. */
  lemma {:induction false} PasoFilaComoDestino(a: Acumulado, o: Idioma, fila: Fila, ls: seq<Idioma>, l: Idioma)
    requires Completo(a.idiomas) && SinRepetidos(ls)
    ensures PasoFila(a, o, fila, ls).idiomas[l].comoDestino
         == a.idiomas[l].comoDestino + (if l in ls then Tamano(fila, l) else 0)
  {
    if ls != [] {
      var previos := ls[..|ls| - 1];
      var t := ls[|ls| - 1];
      SinRepetidosPrefijo(ls);
      assert l in ls <==> l in previos || l == t;
      PasoFilaComoDestino(a, o, fila, previos, l);
      PasoParIdioma(PasoFila(a, o, fila, previos), o, t, if t in fila then fila[t] else [], l);
    }
  }

  /** The best and worst of every language other than the row's are left alone. */
  lemma {:induction false} PasoFilaOtro(a: Acumulado, o: Idioma, fila: Fila, ls: seq<Idioma>, l: Idioma)
    requires Completo(a.idiomas) && l != o
    ensures PasoFila(a, o, fila, ls).idiomas[l].mejorPuntuacion == a.idiomas[l].mejorPuntuacion
    ensures PasoFila(a, o, fila, ls).idiomas[l].peorPuntuacion == a.idiomas[l].peorPuntuacion
  {
    if ls != [] {
      var t := ls[|ls| - 1];
      PasoFilaOtro(a, o, fila, ls[..|ls| - 1], l);
      PasoParIdioma(PasoFila(a, o, fila, ls[..|ls| - 1]), o, t, if t in fila then fila[t] else [], l);
    }
  }

  /** The row's language's best only rises and its worst only falls. */
  lemma {:induction false} PasoFilaMonotono(a: Acumulado, o: Idioma, fila: Fila, ls: seq<Idioma>)
    requires Completo(a.idiomas)
    ensures a.idiomas[o].mejorPuntuacion <= PasoFila(a, o, fila, ls).idiomas[o].mejorPuntuacion
    ensures PasoFila(a, o, fila, ls).idiomas[o].peorPuntuacion <= a.idiomas[o].peorPuntuacion
  {
    if ls != [] {
      var t := ls[|ls| - 1];
      PasoFilaMonotono(a, o, fila, ls[..|ls| - 1]);
      PasoParIdioma(PasoFila(a, o, fila, ls[..|ls| - 1]), o, t, if t in fila then fila[t] else [], o);
    }
  }

  /** Every entry of a visited table lies between the row language's worst and best. */
  lemma {:induction false} PasoFilaCotas(a: Acumulado, o: Idioma, fila: Fila, ls: seq<Idioma>, t: Idioma, i: nat)
    requires Completo(a.idiomas)
    requires t in ls && t in fila && i < |fila[t]|
    ensures PasoFila(a, o, fila, ls).idiomas[o].peorPuntuacion <= fila[t][i].1.puntuacionPromedio
    ensures fila[t][i].1.puntuacionPromedio <= PasoFila(a, o, fila, ls).idiomas[o].mejorPuntuacion
  {
    var previos := ls[..|ls| - 1];
    var ultimo := ls[|ls| - 1];
    var a1 := PasoFila(a, o, fila, previos);
    var tabla := if ultimo in fila then fila[ultimo] else [];
    PasoParIdioma(a1, o, ultimo, tabla, o);
    if t != ultimo {
      assert t in previos;
      PasoFilaCotas(a, o, fila, previos, t, i);
    }
  }

  /** The sources loop: how many entries of the languages in `ls` have `l` as target. */
  function SumaColumna(d: Diccionario, l: Idioma, ls: seq<Idioma>): nat {
    if ls == [] then 0
    else SumaColumna(d, l, ls[..|ls| - 1]) + (if ls[|ls| - 1] in d then Tamano(d[ls[|ls| - 1]], l) else 0)
  }

  /** The number of entries whose target language is `l`. */
  function TotalColumna(d: Diccionario, l: Idioma): nat {
    SumaColumna(d, l, TodosLosIdiomas)
  }

  function PasoOrigenes(a: Acumulado, d: Diccionario, ls: seq<Idioma>): (r: Acumulado)
    requires Completo(a.idiomas)
    ensures Completo(r.idiomas)
    ensures r.totalTraducciones == a.totalTraducciones + SumaOrigenes(d, ls)
  {
    if ls == [] then a
    else
      var a1 := PasoOrigenes(a, d, ls[..|ls| - 1]);
      var o := ls[|ls| - 1];
      if o in d then PasoFila(a1, o, d[o], TodosLosIdiomas) else a1
  }

  /** A language's target count gains, per visited source row, that row's table for it. */
  lemma {:induction false} PasoOrigenesComoDestino(a: Acumulado, d: Diccionario, ls: seq<Idioma>, l: Idioma)
    requires Completo(a.idiomas)
    ensures PasoOrigenes(a, d, ls).idiomas[l].comoDestino == a.idiomas[l].comoDestino + SumaColumna(d, l, ls)
  {
    if ls != [] {
      PasoOrigenesComoDestino(a, d, ls[..|ls| - 1], l);
      var o := ls[|ls| - 1];
      EnumeracionCompleta(l);
      if o in d {
        PasoFilaComoDestino(PasoOrigenes(a, d, ls[..|ls| - 1]), o, d[o], TodosLosIdiomas, l);
      }
    }
  }

  /** Each source row is visited once, so a language's source count is its row's size. */
  lemma {:induction false} PasoOrigenesComoOrigen(a: Acumulado, d: Diccionario, ls: seq<Idioma>, l: Idioma)
    requires Completo(a.idiomas) && SinRepetidos(ls)
    ensures PasoOrigenes(a, d, ls).idiomas[l].comoOrigen
         == a.idiomas[l].comoOrigen + (if l in ls then TotalFila(d, l) else 0)
  {
    if ls != [] {
      var previos := ls[..|ls| - 1];
      SinRepetidosPrefijo(ls);
      PasoOrigenesComoOrigen(a, d, previos, l);
      var o := ls[|ls| - 1];
      assert l in ls <==> l in previos || l == o;
      if o in d {
        PasoFilaComoOrigen(PasoOrigenes(a, d, previos), o, d[o], TodosLosIdiomas, l);
      }
    }
  }

  /** The best average of a language only rises and its worst only falls. */
  lemma {:induction false} PasoOrigenesMonotono(a: Acumulado, d: Diccionario, ls: seq<Idioma>, l: Idioma)
    requires Completo(a.idiomas)
    ensures a.idiomas[l].mejorPuntuacion <= PasoOrigenes(a, d, ls).idiomas[l].mejorPuntuacion
    ensures PasoOrigenes(a, d, ls).idiomas[l].peorPuntuacion <= a.idiomas[l].peorPuntuacion
  {
    if ls != [] {
      PasoOrigenesMonotono(a, d, ls[..|ls| - 1], l);
      var o := ls[|ls| - 1];
      if o in d {
        if o == l {
          PasoFilaMonotono(PasoOrigenes(a, d, ls[..|ls| - 1]), o, d[o], TodosLosIdiomas);
        } else {
          PasoFilaOtro(PasoOrigenes(a, d, ls[..|ls| - 1]), o, d[o], TodosLosIdiomas, l);
        }
      }
    }
  }

  /** Every entry of a visited source row lies between the row language's worst and best. */
  lemma {:induction false} PasoOrigenesCotas(a: Acumulado, d: Diccionario, ls: seq<Idioma>,
                                             o: Idioma, t: Idioma, i: nat)
    requires Completo(a.idiomas)
    requires o in ls && o in d && t in d[o] && i < |d[o][t]|
    ensures PasoOrigenes(a, d, ls).idiomas[o].peorPuntuacion <= d[o][t][i].1.puntuacionPromedio
    ensures d[o][t][i].1.puntuacionPromedio <= PasoOrigenes(a, d, ls).idiomas[o].mejorPuntuacion
  {
    var previos := ls[..|ls| - 1];
    var a1 := PasoOrigenes(a, d, previos);
    var ultimo := ls[|ls| - 1];
    if o == ultimo {
      EnumeracionCompleta(t);
      PasoFilaCotas(a1, o, d[o], TodosLosIdiomas, t, i);
    } else {
      assert o in previos;
      PasoOrigenesCotas(a, d, previos, o, t, i);
      if ultimo in d {
        PasoFilaOtro(a1, ultimo, d[ultimo], TodosLosIdiomas, o);
      }
    }
  }

  /** `obtener_estadisticas`, given the length of the action log. */
  function Calcular(d: Diccionario, registros: nat): (r: EstadisticasGlobales)
    ensures Completo(r.estadisticasIdiomas)
    ensures r.totalTraducciones == Total(d)
    ensures r.combinacionesConTraducciones == 0 ==> r.puntuacionGlobal == 0.0
    ensures r.historialTraducciones == registros
  {
    var a := PasoOrigenes(AcumuladoInicial(), d, TodosLosIdiomas);
    EstadisticasGlobales(
      a.totalTraducciones,
      a.totalEvaluaciones,
      if a.combinaciones > 0 then a.sumaGlobal / a.combinaciones as real else 0.0,
      a.combinaciones,
      a.idiomas,
      registros)
  }

  /** Per language: the source count is the size of its row, the best average is at least 0,
      the worst at most 10, and every entry of its row lies between the two. */
  lemma CalcularPorIdioma(d: Diccionario, registros: nat, o: Idioma)
    ensures Calcular(d, registros).estadisticasIdiomas[o].comoOrigen == TotalFila(d, o)
    ensures Calcular(d, registros).estadisticasIdiomas[o].comoDestino == TotalColumna(d, o)
    ensures 0.0 <= Calcular(d, registros).estadisticasIdiomas[o].mejorPuntuacion
    ensures Calcular(d, registros).estadisticasIdiomas[o].peorPuntuacion <= 10.0
    ensures forall t, i :: t in TablasDe(d, o) && 0 <= i < |d[o][t]| ==>
      Calcular(d, registros).estadisticasIdiomas[o].peorPuntuacion <= d[o][t][i].1.puntuacionPromedio
        <= Calcular(d, registros).estadisticasIdiomas[o].mejorPuntuacion
  {
    var a0 := AcumuladoInicial();
    EnumeracionCompleta(o);
    PasoOrigenesComoOrigen(a0, d, TodosLosIdiomas, o);
    PasoOrigenesComoDestino(a0, d, TodosLosIdiomas, o);
    PasoOrigenesMonotono(a0, d, TodosLosIdiomas, o);
    forall t, i | t in TablasDe(d, o) && 0 <= i < |d[o][t]|
      ensures Calcular(d, registros).estadisticasIdiomas[o].peorPuntuacion <= d[o][t][i].1.puntuacionPromedio
                <= Calcular(d, registros).estadisticasIdiomas[o].mejorPuntuacion
    {
      PasoOrigenesCotas(a0, d, TodosLosIdiomas, o, t, i);
    }
  }

  /** The target languages that have a table in the row of `o`. */
  function TablasDe(d: Diccionario, o: Idioma): set<Idioma> {
    if o in d then d[o].Keys else {}
  }

  // ---------------------------------------------------------------------------------------
  // The two inner loops of the report, proved against the folds above.

  /** The targets loop of the report for one source row. */
  method AcumularFila(a: Acumulado, origen: Idioma, fila: Fila) returns (r: Acumulado)
    requires Completo(a.idiomas)
    ensures r == PasoFila(a, origen, fila, TodosLosIdiomas)
  {
    r := a;
    for j := 0 to |TodosLosIdiomas|
      invariant r == PasoFila(a, origen, fila, TodosLosIdiomas[..j])
    {
      var destino := TodosLosIdiomas[j];
      assert TodosLosIdiomas[..j + 1][..j] == TodosLosIdiomas[..j];
      if destino in fila && fila[destino] != [] {
        r := AcumularPar(r, origen, destino, fila[destino]);
      }
    }
    assert TodosLosIdiomas[..|TodosLosIdiomas|] == TodosLosIdiomas;
  }

  /** One non-empty pair: count its entries for both languages, then walk its entries. */
  method AcumularPar(a: Acumulado, origen: Idioma, destino: Idioma, traducciones: Tabla)
    returns (r: Acumulado)
    requires Completo(a.idiomas) && traducciones != []
    ensures r == PasoPar(a, origen, destino, traducciones)
  {
    var n := |traducciones|;
    var idiomas := a.idiomas;
    idiomas := idiomas[origen := idiomas[origen].(comoOrigen := idiomas[origen].comoOrigen + n)];
    idiomas := idiomas[destino := idiomas[destino].(comoDestino := idiomas[destino].comoDestino + n)];
    var suma, totalEvaluaciones;
    suma, totalEvaluaciones, idiomas := RecorrerPar(idiomas, origen, traducciones, a.totalEvaluaciones);
    assert idiomas == EnOrden(a.idiomas, origen, destino, traducciones);
    IdiomasParEnOrden(a.idiomas, origen, destino, traducciones);
    r := Acumulado(a.totalTraducciones + n, totalEvaluaciones, a.sumaGlobal + suma / n as real,
                   a.combinaciones + 1, idiomas);
  }

  /** The entries loop: sum the averages and the evaluation counts, and raise the source
      language's best and lower its worst whenever an average passes them. */
  method RecorrerPar(m: PorIdioma, origen: Idioma, traducciones: Tabla, evaluaciones: nat)
    returns (suma: real, totalEvaluaciones: nat, idiomas: PorIdioma)
    requires origen in m
    ensures suma == Suma(Promedios(traducciones))
    ensures totalEvaluaciones == evaluaciones + SumaEvaluaciones(traducciones)
    ensures idiomas == m[origen := m[origen].(mejorPuntuacion := MejorDe(m[origen].mejorPuntuacion, traducciones),
                                             peorPuntuacion := PeorDe(m[origen].peorPuntuacion, traducciones))]
  {
    idiomas := m;
    totalEvaluaciones := evaluaciones;
    suma := 0.0;
    for k := 0 to |traducciones|
      invariant suma == Suma(Promedios(traducciones[..k]))
      invariant totalEvaluaciones == evaluaciones + SumaEvaluaciones(traducciones[..k])
      invariant idiomas == m[origen := m[origen].(mejorPuntuacion := MejorDe(m[origen].mejorPuntuacion, traducciones[..k]),
                                                  peorPuntuacion := PeorDe(m[origen].peorPuntuacion, traducciones[..k]))]
    {
      assert traducciones[..k + 1][..k] == traducciones[..k];
      var trad := traducciones[k].1;
      ghost var previos := Promedios(traducciones[..k]);
      assert Promedios(traducciones[..k + 1]) == previos + [trad.puntuacionPromedio];
      assert (previos + [trad.puntuacionPromedio])[..|previos|] == previos;
      suma := suma + trad.puntuacionPromedio;
      totalEvaluaciones := totalEvaluaciones + trad.totalEvaluaciones;
      if trad.puntuacionPromedio > idiomas[origen].mejorPuntuacion {
        idiomas := idiomas[origen := idiomas[origen].(mejorPuntuacion := trad.puntuacionPromedio)];
      }
      if trad.puntuacionPromedio < idiomas[origen].peorPuntuacion {
        idiomas := idiomas[origen := idiomas[origen].(peorPuntuacion := trad.puntuacionPromedio)];
      }
    }
    assert traducciones[..|traducciones|] == traducciones;
  }

  // ---------------------------------------------------------------------------------------
  // The empty skeleton reports nothing.

  lemma {:induction false} PasoFilaVacia(a: Acumulado, o: Idioma, fila: Fila, ls: seq<Idioma>)
    requires Completo(a.idiomas)
    requires forall t :: t in fila ==> fila[t] == []
    ensures PasoFila(a, o, fila, ls) == a
  {
    if ls != [] {
      PasoFilaVacia(a, o, fila, ls[..|ls| - 1]);
    }
  }

  lemma {:induction false} PasoOrigenesVacia(a: Acumulado, d: Diccionario, ls: seq<Idioma>)
    requires Completo(a.idiomas)
    requires forall o, t :: o in d && t in d[o] ==> d[o][t] == []
    ensures PasoOrigenes(a, d, ls) == a
  {
    if ls != [] {
      PasoOrigenesVacia(a, d, ls[..|ls| - 1]);
      var o := ls[|ls| - 1];
      if o in d {
        PasoFilaVacia(a, o, d[o], TodosLosIdiomas);
      }
    }
  }

  /** Right after initialisation or clearing, every figure is zero, every language keeps
      best 0 and worst 10, and the global score is 0. */
  lemma EstadisticasEsqueleto(d: Diccionario, registros: nat)
    requires EsEsqueleto(d)
    ensures Calcular(d, registros) == EstadisticasGlobales(0, 0, 0.0, 0, PorIdiomaInicial(), registros)
  {
    PasoOrigenesVacia(AcumuladoInicial(), d, TodosLosIdiomas);
  }

  // ---------------------------------------------------------------------------------------
  // The global score is a mean of per-pair means, so when every entry's average is a valid
  // score so is the global score.

  predicate PromediosValidos(d: Diccionario) {
    forall o, t, i :: o in d && t in d[o] && 0 <= i < |d[o][t]| ==>
      Minima <= d[o][t][i].1.puntuacionPromedio <= Maxima
  }

  /** The running sum of per-pair means lies within the valid range times the pairs counted. */
  predicate SumaValida(a: Acumulado) {
    Minima * a.combinaciones as real <= a.sumaGlobal <= Maxima * a.combinaciones as real
  }

  lemma PasoParValido(a: Acumulado, o: Idioma, t: Idioma, tabla: Tabla)
    requires Completo(a.idiomas) && SumaValida(a)
    requires forall i :: 0 <= i < |tabla| ==> Minima <= tabla[i].1.puntuacionPromedio <= Maxima
    ensures SumaValida(PasoPar(a, o, t, tabla))
  {
    if tabla != [] {
      MediaAcotada(Promedios(tabla), Minima, Maxima);
    }
  }

  lemma {:induction false} PasoFilaValida(a: Acumulado, o: Idioma, fila: Fila, ls: seq<Idioma>)
    requires Completo(a.idiomas) && SumaValida(a)
    requires forall t, i :: t in fila && 0 <= i < |fila[t]| ==> Minima <= fila[t][i].1.puntuacionPromedio <= Maxima
    ensures SumaValida(PasoFila(a, o, fila, ls))
  {
    if ls != [] {
      var t := ls[|ls| - 1];
      PasoFilaValida(a, o, fila, ls[..|ls| - 1]);
      PasoParValido(PasoFila(a, o, fila, ls[..|ls| - 1]), o, t, if t in fila then fila[t] else []);
    }
  }

  lemma {:induction false} PasoOrigenesValido(a: Acumulado, d: Diccionario, ls: seq<Idioma>)
    requires Completo(a.idiomas) && SumaValida(a) && PromediosValidos(d)
    ensures SumaValida(PasoOrigenes(a, d, ls))
  {
    if ls != [] {
      var o := ls[|ls| - 1];
      PasoOrigenesValido(a, d, ls[..|ls| - 1]);
      if o in d {
        PasoFilaValida(PasoOrigenes(a, d, ls[..|ls| - 1]), o, d[o], TodosLosIdiomas);
      }
    }
  }

  /** When every entry's average is a valid score, the global score of a dictionary with at
      least one non-empty pair is a valid score too. */
  lemma PuntuacionGlobalValida(d: Diccionario, registros: nat)
    requires PromediosValidos(d)
    ensures Calcular(d, registros).combinacionesConTraducciones > 0 ==>
      Minima <= Calcular(d, registros).puntuacionGlobal <= Maxima
  {
    var a := PasoOrigenes(AcumuladoInicial(), d, TodosLosIdiomas);
    PasoOrigenesValido(AcumuladoInicial(), d, TodosLosIdiomas);
    if a.combinaciones > 0 {
      CocienteEntre(a.sumaGlobal, a.combinaciones, Minima, Maxima);
    }
  }

  // ---------------------------------------------------------------------------------------
  // The report's global figures against a direct description: the pair tables in the order
  // the loops visit them, the mean of each non-empty one, and the totals over all of them.

  /** The tables of row `f` for the targets `ls`, in order; a missing target is empty. */
  function TablasFila(f: Fila, ls: seq<Idioma>): (r: seq<Tabla>)
    ensures |r| == |ls|
  {
    if ls == [] then []
    else TablasFila(f, ls[..|ls| - 1]) + [if ls[|ls| - 1] in f then f[ls[|ls| - 1]] else []]
  }

  /** The tables of the source rows `ls`, row after row. */
  function TablasOrigenes(d: Diccionario, ls: seq<Idioma>): seq<Tabla> {
    if ls == [] then []
    else
      var o := ls[|ls| - 1];
      TablasOrigenes(d, ls[..|ls| - 1]) + (if o in d then TablasFila(d[o], TodosLosIdiomas) else [])
  }

  /** Every pair table of the dictionary, in the order the report visits them. */
  function TodasLasTablas(d: Diccionario): seq<Tabla> {
    TablasOrigenes(d, TodosLosIdiomas)
  }

  /** The mean average of each non-empty table, in order: one value per counted pair. */
  function MediasPorPar(ts: seq<Tabla>): seq<real> {
    if ts == [] then []
    else
      var t := ts[|ts| - 1];
      MediasPorPar(ts[..|ts| - 1]) + (if t == [] then [] else [Media(Promedios(t))])
  }

  /** The evaluations recorded by all entries of the tables. */
  function Evaluaciones(ts: seq<Tabla>): nat {
    if ts == [] then 0 else Evaluaciones(ts[..|ts| - 1]) + SumaEvaluaciones(ts[|ts| - 1])
  }

  /** The number of entries of the tables. */
  function Entradas(ts: seq<Tabla>): nat {
    if ts == [] then 0 else Entradas(ts[..|ts| - 1]) + |ts[|ts| - 1]|
  }

  /** The three descriptions distribute over a concatenation of table sequences. */
  lemma {:induction false} TablasConcatenadas(x: seq<Tabla>, y: seq<Tabla>)
    ensures MediasPorPar(x + y) == MediasPorPar(x) + MediasPorPar(y)
    ensures Evaluaciones(x + y) == Evaluaciones(x) + Evaluaciones(y)
    ensures Entradas(x + y) == Entradas(x) + Entradas(y)
  {
    if y == [] {
      assert x + y == x;
    } else {
      var y' := y[..|y| - 1];
      assert (x + y)[..|x + y| - 1] == x + y';
      TablasConcatenadas(x, y');
    }
  }

  /** No pair is counted exactly when there are no entries at all. */
  lemma {:induction false} MediasVacias(ts: seq<Tabla>)
    ensures |MediasPorPar(ts)| == 0 <==> Entradas(ts) == 0
  {
    if ts != [] {
      MediasVacias(ts[..|ts| - 1]);
    }
  }

  lemma {:induction false} TablasFilaEntradas(f: Fila, ls: seq<Idioma>)
    ensures Entradas(TablasFila(f, ls)) == SumaFila(f, ls)
  {
    if ls != [] {
      var ts := TablasFila(f, ls);
      assert ts[..|ts| - 1] == TablasFila(f, ls[..|ls| - 1]);
      TablasFilaEntradas(f, ls[..|ls| - 1]);
    }
  }

  lemma {:induction false} TablasOrigenesEntradas(d: Diccionario, ls: seq<Idioma>)
    ensures Entradas(TablasOrigenes(d, ls)) == SumaOrigenes(d, ls)
  {
    if ls != [] {
      var o := ls[|ls| - 1];
      TablasOrigenesEntradas(d, ls[..|ls| - 1]);
      var fila := if o in d then TablasFila(d[o], TodosLosIdiomas) else [];
      TablasConcatenadas(TablasOrigenes(d, ls[..|ls| - 1]), fila);
      if o in d {
        TablasFilaEntradas(d[o], TodosLosIdiomas);
      }
    }
  }

  /** The targets loop adds the evaluations of the row's tables, one counted pair and its mean
      per non-empty table. */
  lemma {:induction false} PasoFilaPares(a: Acumulado, o: Idioma, fila: Fila, ls: seq<Idioma>)
    requires Completo(a.idiomas)
    ensures PasoFila(a, o, fila, ls).totalEvaluaciones == a.totalEvaluaciones + Evaluaciones(TablasFila(fila, ls))
    ensures PasoFila(a, o, fila, ls).combinaciones == a.combinaciones + |MediasPorPar(TablasFila(fila, ls))|
    ensures PasoFila(a, o, fila, ls).sumaGlobal == a.sumaGlobal + Suma(MediasPorPar(TablasFila(fila, ls)))
  {
    if ls != [] {
      var previos := ls[..|ls| - 1];
      var t := ls[|ls| - 1];
      var tabla := if t in fila then fila[t] else [];
      var ts := TablasFila(fila, ls);
      assert ts[..|ts| - 1] == TablasFila(fila, previos);
      PasoFilaPares(a, o, fila, previos);
      var medias := MediasPorPar(TablasFila(fila, previos));
      if tabla != [] {
        var m := Media(Promedios(tabla));
        assert MediasPorPar(ts) == medias + [m];
        assert (medias + [m])[..|medias|] == medias;
      } else {
        assert MediasPorPar(ts) == medias;
      }
    }
  }

  /** The sources loop does the same over all the visited rows' tables. */
  lemma {:induction false} PasoOrigenesPares(a: Acumulado, d: Diccionario, ls: seq<Idioma>)
    requires Completo(a.idiomas)
    ensures PasoOrigenes(a, d, ls).totalEvaluaciones == a.totalEvaluaciones + Evaluaciones(TablasOrigenes(d, ls))
    ensures PasoOrigenes(a, d, ls).combinaciones == a.combinaciones + |MediasPorPar(TablasOrigenes(d, ls))|
    ensures PasoOrigenes(a, d, ls).sumaGlobal == a.sumaGlobal + Suma(MediasPorPar(TablasOrigenes(d, ls)))
  {
    if ls != [] {
      var previos := ls[..|ls| - 1];
      var o := ls[|ls| - 1];
      PasoOrigenesPares(a, d, previos);
      var antes := TablasOrigenes(d, previos);
      var fila := if o in d then TablasFila(d[o], TodosLosIdiomas) else [];
      TablasConcatenadas(antes, fila);
      SumaConcatenada(MediasPorPar(antes), MediasPorPar(fila));
      if o in d {
        PasoFilaPares(PasoOrigenes(a, d, previos), o, d[o], TodosLosIdiomas);
      }
    }
  }

  /** The global figures: the evaluations of every entry, one combination per non-empty
      pair, none exactly when the dictionary is empty, and a global score that is the mean
      of the per-pair means (0 when no pair counts). */
  lemma CalcularGlobal(d: Diccionario, registros: nat)
    ensures Calcular(d, registros).totalEvaluaciones == Evaluaciones(TodasLasTablas(d))
    ensures Calcular(d, registros).combinacionesConTraducciones == |MediasPorPar(TodasLasTablas(d))|
    ensures Calcular(d, registros).combinacionesConTraducciones == 0 <==> Total(d) == 0
    ensures Calcular(d, registros).puntuacionGlobal
         == if |MediasPorPar(TodasLasTablas(d))| > 0 then Media(MediasPorPar(TodasLasTablas(d))) else 0.0
  {
    PasoOrigenesPares(AcumuladoInicial(), d, TodosLosIdiomas);
    TablasOrigenesEntradas(d, TodosLosIdiomas);
    MediasVacias(TodasLasTablas(d));
  }

  // ---------------------------------------------------------------------------------------
  // The best and worst are attained: each is its starting value or some entry's average.

  lemma {:induction false} PasoFilaAlcanzado(a: Acumulado, o: Idioma, fila: Fila, ls: seq<Idioma>)
    requires Completo(a.idiomas)
    ensures var mejor := PasoFila(a, o, fila, ls).idiomas[o].mejorPuntuacion;
      mejor == a.idiomas[o].mejorPuntuacion
      || exists t, i :: t in fila && 0 <= i < |fila[t]| && mejor == fila[t][i].1.puntuacionPromedio
    ensures var peor := PasoFila(a, o, fila, ls).idiomas[o].peorPuntuacion;
      peor == a.idiomas[o].peorPuntuacion
      || exists t, i :: t in fila && 0 <= i < |fila[t]| && peor == fila[t][i].1.puntuacionPromedio
  {
    if ls != [] {
      var previos := ls[..|ls| - 1];
      var t := ls[|ls| - 1];
      var tabla := if t in fila then fila[t] else [];
      var a1 := PasoFila(a, o, fila, previos);
      PasoFilaAlcanzado(a, o, fila, previos);
      PasoParIdioma(a1, o, t, tabla, o);
      MejorDeAlcanzado(a1.idiomas[o].mejorPuntuacion, tabla);
      PeorDeAlcanzado(a1.idiomas[o].peorPuntuacion, tabla);
    }
  }

  lemma {:induction false} PasoOrigenesAlcanzado(a: Acumulado, d: Diccionario, ls: seq<Idioma>, l: Idioma)
    requires Completo(a.idiomas)
    ensures var mejor := PasoOrigenes(a, d, ls).idiomas[l].mejorPuntuacion;
      mejor == a.idiomas[l].mejorPuntuacion
      || exists t, i :: t in TablasDe(d, l) && 0 <= i < |d[l][t]| && mejor == d[l][t][i].1.puntuacionPromedio
    ensures var peor := PasoOrigenes(a, d, ls).idiomas[l].peorPuntuacion;
      peor == a.idiomas[l].peorPuntuacion
      || exists t, i :: t in TablasDe(d, l) && 0 <= i < |d[l][t]| && peor == d[l][t][i].1.puntuacionPromedio
  {
    if ls != [] {
      var previos := ls[..|ls| - 1];
      var o := ls[|ls| - 1];
      PasoOrigenesAlcanzado(a, d, previos, l);
      if o in d {
        var a1 := PasoOrigenes(a, d, previos);
        if o == l {
          PasoFilaAlcanzado(a1, o, d[o], TodosLosIdiomas);
        } else {
          PasoFilaOtro(a1, o, d[o], TodosLosIdiomas, l);
        }
      }
    }
  }

  /** Per language: the best is 0 or the average of some entry of its row, and the worst is
      10 or the average of some entry of its row. */
  lemma CalcularAlcanzado(d: Diccionario, registros: nat, o: Idioma)
    ensures var mejor := Calcular(d, registros).estadisticasIdiomas[o].mejorPuntuacion;
      mejor == 0.0
      || exists t, i :: t in TablasDe(d, o) && 0 <= i < |d[o][t]| && mejor == d[o][t][i].1.puntuacionPromedio
    ensures var peor := Calcular(d, registros).estadisticasIdiomas[o].peorPuntuacion;
      peor == 10.0
      || exists t, i :: t in TablasDe(d, o) && 0 <= i < |d[o][t]| && peor == d[o][t][i].1.puntuacionPromedio
  {
    PasoOrigenesAlcanzado(AcumuladoInicial(), d, TodosLosIdiomas, o);
  }
}
