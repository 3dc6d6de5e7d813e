/** The merge engine: folding a foreign dictionary into the local one, entry by entry. */
module Fusion {

  import opened Wrappers
  import opened Idiomas
  import opened Texto
  import opened Traducciones
  import opened Tablas
  import opened Diccionarios

  /** What merging one foreign entry did: "agregada", "actualizada", or an error the merge
      loop caught and counted. */
  datatype Resultado = Agregada | Actualizada | Error

  datatype Conteo = Conteo(agregadas: nat, actualizadas: nat, errores: nat)

  function Procesadas(c: Conteo): nat {
    c.agregadas + c.actualizadas + c.errores
  }

  function Contar(c: Conteo, r: Resultado): (c': Conteo)
    ensures c'.agregadas == c.agregadas + (if r == Agregada then 1 else 0)
    ensures c'.actualizadas == c.actualizadas + (if r == Actualizada then 1 else 0)
    ensures c'.errores == c.errores + (if r == Error then 1 else 0)
    ensures Procesadas(c') == Procesadas(c) + 1
  {
    match r
    case Agregada => c.(agregadas := c.agregadas + 1)
    case Actualizada => c.(actualizadas := c.actualizadas + 1)
    case Error => c.(errores := c.errores + 1)
  }

  predicate TablaCoherente(t: Tabla) {
    forall i :: 0 <= i < |t| ==> Coherente(t[i].1)
  }

  /** Every entry of the dictionary keeps the history/average invariant. */
  predicate TodasCoherentes(d: Diccionario) {
    forall o, t :: o in d && t in d[o] ==> TablaCoherente(d[o][t])
  }

  /** Merging one foreign entry. An absent key takes the foreign entry verbatim; a present key
      gets the foreign text and the concatenated history (see `Combinar`). No other key of
      any pair changes. */
  function FusionarTraduccion(d: Diccionario, o: Idioma, t: Idioma, textoOrigen: string,
                              nueva: Traduccion, ahora: Instante): (r: (Diccionario, Resultado))
    ensures r.1 == Agregada <==> !Existe(d, o, t, textoOrigen)
    ensures !Existe(d, o, t, textoOrigen) ==> Entrada(r.0, o, t, textoOrigen) == Some(nueva)
    ensures Existe(d, o, t, textoOrigen) ==>
      var existente := Entrada(d, o, t, textoOrigen).value;
      && Entrada(r.0, o, t, textoOrigen) == Some(Combinar(existente, nueva, ahora))
      && (r.1 == Error <==> FallaCombinar(existente, nueva))
    ensures forall o', t', x :: (o', t', Minusculas(x)) != (o, t, Minusculas(textoOrigen)) ==>
      Entrada(r.0, o', t', x) == Entrada(d, o', t', x)
    ensures Total(r.0) == Total(d) + (if r.1 == Agregada then 1 else 0)
  {
    var k := Minusculas(textoOrigen);
    var existe := Existe(d, o, t, textoOrigen);
    var v := if existe then Combinar(Entrada(d, o, t, textoOrigen).value, nueva, ahora) else nueva;
    var r := Insertar(d, o, t, k, v);
    TotalInsertar(d, o, t, k, v);
    assert forall o', t', x :: (o', t', Minusculas(x)) != (o, t, k) ==> Entrada(r, o', t', x) == Entrada(d, o', t', x) by {
      forall o', t', x | (o', t', Minusculas(x)) != (o, t, k)
        ensures Entrada(r, o', t', x) == Entrada(d, o', t', x)
      {
        InsertarEntrada(d, o, t, textoOrigen, v, o', t', x);
      }
    }
    InsertarEntrada(d, o, t, textoOrigen, v, o, t, textoOrigen);
    if !existe then (r, Agregada)
    else if FallaCombinar(Entrada(d, o, t, textoOrigen).value, nueva) then (r, Error)
    else (r, Actualizada)
  }

  /** Merging a coherent entry into a coherent dictionary keeps every entry coherent and
      never fails. */
  lemma FusionarTraduccionCoherente(d: Diccionario, o: Idioma, t: Idioma, textoOrigen: string,
                                    nueva: Traduccion, ahora: Instante)
    requires TodasCoherentes(d) && Coherente(nueva)
    ensures TodasCoherentes(FusionarTraduccion(d, o, t, textoOrigen, nueva, ahora).0)
    ensures FusionarTraduccion(d, o, t, textoOrigen, nueva, ahora).1 != Error
  {
    var k := Minusculas(textoOrigen);
    var existe := Existe(d, o, t, textoOrigen);
    var v := if existe then Combinar(Entrada(d, o, t, textoOrigen).value, nueva, ahora) else nueva;
    if existe {
      var ex := Entrada(d, o, t, textoOrigen).value;
      EntradaCoherente(d, o, t, textoOrigen);
      assert !FallaCombinar(ex, nueva);
    }
    InsertarCoherente(d, o, t, k, v);
  }

  /** What a lookup finds in a coherent dictionary is coherent. */
  lemma EntradaCoherente(d: Diccionario, o: Idioma, t: Idioma, texto: string)
    requires TodasCoherentes(d) && Existe(d, o, t, texto)
    ensures Coherente(Entrada(d, o, t, texto).value)
  {
    var i :| 0 <= i < |d[o][t]| && d[o][t][i] == (Minusculas(texto), Entrada(d, o, t, texto).value);
  }

  lemma InsertarCoherente(d: Diccionario, o: Idioma, t: Idioma, k: string, v: Traduccion)
    requires TodasCoherentes(d) && Coherente(v)
    ensures TodasCoherentes(Insertar(d, o, t, k, v))
  {
    PonerCoherente(TablaDe(d, o, t), k, v);
  }

  lemma PonerCoherente(t: Tabla, k: string, v: Traduccion)
    requires TablaCoherente(t) && Coherente(v)
    ensures TablaCoherente(Poner(t, k, v))
  {
    var r := Poner(t, k, v);
    forall i | 0 <= i < |r| ensures Coherente(r[i].1) {
      if k in Claves(t) {
        if i != Posicion(t, k) { assert r[i] == t[i]; }
      } else {
        if i < |t| { assert r[i] == t[i]; }
      }
    }
  }

  // ---------------------------------------------------------------------------------------
  // The whole-dictionary merge, as the fold the three nested loops perform: sources, then
  // their targets, then the pair's entries in table order.

  datatype Estado = Estado(dic: Diccionario, conteo: Conteo)

  /** Every merge step is counted exactly once, and the dictionary grows by one entry per
      step counted as added. */
  predicate Cuadra(antes: Estado, despues: Estado, pasos: nat) {
    && Procesadas(despues.conteo) == Procesadas(antes.conteo) + pasos
    && Total(despues.dic) + antes.conteo.agregadas == Total(antes.dic) + despues.conteo.agregadas
  }

  function FusionarTabla(e: Estado, o: Idioma, t: Idioma, items: Tabla, ahora: Instante): (r: Estado)
    ensures Cuadra(e, r, |items|)
  {
    if items == [] then e
    else
      var e1 := FusionarTabla(e, o, t, items[..|items| - 1], ahora);
      var (k, nueva) := items[|items| - 1];
      var (d2, res) := FusionarTraduccion(e1.dic, o, t, k, nueva, ahora);
      Estado(d2, Contar(e1.conteo, res))
  }

  /** One step of the entries loop: the merge of the first k + 1 entries is the merge of the
      first k followed by the merge of entry k. */
  lemma FusionarTablaPaso(e: Estado, o: Idioma, t: Idioma, items: Tabla, k: nat, ahora: Instante)
    requires k < |items|
    ensures var e1 := FusionarTabla(e, o, t, items[..k], ahora);
      var r := FusionarTraduccion(e1.dic, o, t, items[k].0, items[k].1, ahora);
      FusionarTabla(e, o, t, items[..k + 1], ahora) == Estado(r.0, Contar(e1.conteo, r.1))
  {
    assert items[..k + 1][..k] == items[..k];
  }

  function FusionarFila(e: Estado, o: Idioma, fila: Fila, ls: seq<Idioma>, ahora: Instante): (r: Estado)
    ensures Cuadra(e, r, SumaFila(fila, ls))
  {
    if ls == [] then e
    else
      var e1 := FusionarFila(e, o, fila, ls[..|ls| - 1], ahora);
      var t := ls[|ls| - 1];
      if t in fila then FusionarTabla(e1, o, t, fila[t], ahora) else e1
  }

  function FusionarOrigenes(e: Estado, f: Diccionario, ls: seq<Idioma>, ahora: Instante): (r: Estado)
    ensures Cuadra(e, r, SumaOrigenes(f, ls))
  {
    if ls == [] then e
    else
      var e1 := FusionarOrigenes(e, f, ls[..|ls| - 1], ahora);
      var o := ls[|ls| - 1];
      if o in f then FusionarFila(e1, o, f[o], TodosLosIdiomas, ahora) else e1
  }

  /** `fusionar_diccionario_completo` on the dictionary alone: every foreign entry is counted
      once as added, updated or failed, and the entry count grows by exactly the added ones. */
  function FusionarDiccionario(d: Diccionario, f: Diccionario, ahora: Instante): (r: Estado)
    ensures r.conteo.agregadas + r.conteo.actualizadas + r.conteo.errores == Total(f)
    ensures Total(r.dic) == Total(d) + r.conteo.agregadas
  {
    FusionarOrigenes(Estado(d, Conteo(0, 0, 0)), f, TodosLosIdiomas, ahora)
  }

  // ---------------------------------------------------------------------------------------
  // Merging coherent dictionaries keeps every entry coherent and reports no error.

  lemma {:induction false} FusionarTablaCoherente(e: Estado, o: Idioma, t: Idioma, items: Tabla, ahora: Instante)
    requires TodasCoherentes(e.dic) && TablaCoherente(items)
    ensures TodasCoherentes(FusionarTabla(e, o, t, items, ahora).dic)
    ensures FusionarTabla(e, o, t, items, ahora).conteo.errores == e.conteo.errores
  {
    if items != [] {
      var previos := items[..|items| - 1];
      FusionarTablaCoherente(e, o, t, previos, ahora);
      var e1 := FusionarTabla(e, o, t, previos, ahora);
      FusionarTraduccionCoherente(e1.dic, o, t, items[|items| - 1].0, items[|items| - 1].1, ahora);
    }
  }

  lemma {:induction false} FusionarFilaCoherente(e: Estado, o: Idioma, fila: Fila, ls: seq<Idioma>, ahora: Instante)
    requires TodasCoherentes(e.dic) && forall t :: t in fila ==> TablaCoherente(fila[t])
    ensures TodasCoherentes(FusionarFila(e, o, fila, ls, ahora).dic)
    ensures FusionarFila(e, o, fila, ls, ahora).conteo.errores == e.conteo.errores
  {
    if ls != [] {
      FusionarFilaCoherente(e, o, fila, ls[..|ls| - 1], ahora);
      var e1 := FusionarFila(e, o, fila, ls[..|ls| - 1], ahora);
      var t := ls[|ls| - 1];
      if t in fila {
        FusionarTablaCoherente(e1, o, t, fila[t], ahora);
      }
    }
  }

  lemma {:induction false} FusionarOrigenesCoherente(e: Estado, f: Diccionario, ls: seq<Idioma>, ahora: Instante)
    requires TodasCoherentes(e.dic) && TodasCoherentes(f)
    ensures TodasCoherentes(FusionarOrigenes(e, f, ls, ahora).dic)
    ensures FusionarOrigenes(e, f, ls, ahora).conteo.errores == e.conteo.errores
  {
    if ls != [] {
      FusionarOrigenesCoherente(e, f, ls[..|ls| - 1], ahora);
      var e1 := FusionarOrigenes(e, f, ls[..|ls| - 1], ahora);
      var o := ls[|ls| - 1];
      if o in f {
        FusionarFilaCoherente(e1, o, f[o], TodosLosIdiomas, ahora);
      }
    }
  }

  /** Both branches of the merge keep count = |history| and average = mean(history): merging
      two coherent dictionaries yields a coherent one, with no error counted. */
  lemma FusionarDiccionarioCoherente(d: Diccionario, f: Diccionario, ahora: Instante)
    requires TodasCoherentes(d) && TodasCoherentes(f)
    ensures TodasCoherentes(FusionarDiccionario(d, f, ahora).dic)
    ensures FusionarDiccionario(d, f, ahora).conteo.errores == 0
  {
    FusionarOrigenesCoherente(Estado(d, Conteo(0, 0, 0)), f, TodosLosIdiomas, ahora);
  }

  // ---------------------------------------------------------------------------------------
  // What the whole-dictionary merge does to each lookup: a key no foreign entry lower-cases
  // to reads as before, a key exactly one foreign entry lower-cases to reads as that entry
  // merged into the local one, and a local entry keeps its history as a prefix.

  /** The entry a merge step stores for its key, given what the key held before. */
  function Fusionada(existente: Option<Traduccion>, nueva: Traduccion, ahora: Instante): Traduccion {
    match existente
    case None => nueva
    case Some(e) => Combinar(e, nueva, ahora)
  }

  /** No entry of `items` lower-cases like `x`. */
  predicate NoToca(items: Tabla, x: string) {
    forall i :: 0 <= i < |items| ==> Minusculas(items[i].0) != Minusculas(x)
  }

  /** Entry `j` of `items` is the only one that lower-cases like `x`. */
  predicate Unico(items: Tabla, x: string, j: nat) {
    && j < |items|
    && Minusculas(items[j].0) == Minusculas(x)
    && forall i :: 0 <= i < |items| && i != j ==> Minusculas(items[i].0) != Minusculas(x)
  }

  lemma PasoEntrada(d: Diccionario, o: Idioma, t: Idioma, k: string, nueva: Traduccion,
                    ahora: Instante, x: string)
    requires Minusculas(k) == Minusculas(x)
    ensures Entrada(FusionarTraduccion(d, o, t, k, nueva, ahora).0, o, t, x)
         == Some(Fusionada(Entrada(d, o, t, x), nueva, ahora))
  {
    var r := FusionarTraduccion(d, o, t, k, nueva, ahora);
    EntradaIgnoraMayusculas(d, o, t, k, x);
    EntradaIgnoraMayusculas(r.0, o, t, k, x);
  }

  lemma PasoMarco(d: Diccionario, o: Idioma, t: Idioma, k: string, nueva: Traduccion,
                  ahora: Instante, o': Idioma, t': Idioma, x: string)
    requires (o', t', Minusculas(x)) != (o, t, Minusculas(k))
    ensures Entrada(FusionarTraduccion(d, o, t, k, nueva, ahora).0, o', t', x) == Entrada(d, o', t', x)
  {
  }

  /** A merge step keeps every existing entry, and its history as a prefix. */
  lemma PasoConserva(d: Diccionario, o: Idioma, t: Idioma, k: string, nueva: Traduccion,
                     ahora: Instante, o': Idioma, t': Idioma, x: string)
    requires Existe(d, o', t', x)
    ensures var r := FusionarTraduccion(d, o, t, k, nueva, ahora).0;
      && Existe(r, o', t', x)
      && Entrada(d, o', t', x).value.historialPuntuaciones <= Entrada(r, o', t', x).value.historialPuntuaciones
  {
    if (o', t', Minusculas(x)) == (o, t, Minusculas(k)) {
      PasoEntrada(d, o, t, k, nueva, ahora, x);
    } else {
      PasoMarco(d, o, t, k, nueva, ahora, o', t', x);
    }
  }

  lemma {:induction false} FusionarTablaMarco(e: Estado, o: Idioma, t: Idioma, items: Tabla, ahora: Instante,
                                              o': Idioma, t': Idioma, x: string)
    requires (o', t') != (o, t) || NoToca(items, x)
    ensures Entrada(FusionarTabla(e, o, t, items, ahora).dic, o', t', x) == Entrada(e.dic, o', t', x)
  {
    if items != [] {
      var previos := items[..|items| - 1];
      var e1 := FusionarTabla(e, o, t, previos, ahora);
      FusionarTablaMarco(e, o, t, previos, ahora, o', t', x);
      PasoMarco(e1.dic, o, t, items[|items| - 1].0, items[|items| - 1].1, ahora, o', t', x);
    }
  }

  lemma {:induction false} FusionarTablaEntrada(e: Estado, o: Idioma, t: Idioma, items: Tabla, ahora: Instante,
                                                x: string, j: nat)
    requires Unico(items, x, j)
    ensures Entrada(FusionarTabla(e, o, t, items, ahora).dic, o, t, x)
         == Some(Fusionada(Entrada(e.dic, o, t, x), items[j].1, ahora))
  {
    var n := |items|;
    var previos := items[..n - 1];
    if j == n - 1 {
      UltimoEntrada(e, o, t, items, ahora, x);
    } else {
      assert Unico(previos, x, j) by {
        forall i | 0 <= i < |previos| ensures previos[i] == items[i] { }
      }
      FusionarTablaEntrada(e, o, t, previos, ahora, x, j);
      UltimoNoToca(e, o, t, items, ahora, x);
      assert previos[j] == items[j];
    }
  }

  /** When the last entry does not lower-case like `x`, its step leaves `x` alone. */
  lemma UltimoNoToca(e: Estado, o: Idioma, t: Idioma, items: Tabla, ahora: Instante, x: string)
    requires |items| > 0 && Minusculas(items[|items| - 1].0) != Minusculas(x)
    ensures Entrada(FusionarTabla(e, o, t, items, ahora).dic, o, t, x)
         == Entrada(FusionarTabla(e, o, t, items[..|items| - 1], ahora).dic, o, t, x)
  {
    var n := |items|;
    var e1 := FusionarTabla(e, o, t, items[..n - 1], ahora);
    PasoMarco(e1.dic, o, t, items[n - 1].0, items[n - 1].1, ahora, o, t, x);
  }

  /** The case where the last entry of the table is the one that lower-cases like `x`. */
  lemma UltimoEntrada(e: Estado, o: Idioma, t: Idioma, items: Tabla, ahora: Instante, x: string)
    requires |items| > 0 && Unico(items, x, |items| - 1)
    ensures Entrada(FusionarTabla(e, o, t, items, ahora).dic, o, t, x)
         == Some(Fusionada(Entrada(e.dic, o, t, x), items[|items| - 1].1, ahora))
  {
    var n := |items|;
    var previos := items[..n - 1];
    assert NoToca(previos, x) by {
      forall i | 0 <= i < |previos| ensures Minusculas(previos[i].0) != Minusculas(x) {
        assert previos[i] == items[i];
      }
    }
    FusionarTablaMarco(e, o, t, previos, ahora, o, t, x);
    var e1 := FusionarTabla(e, o, t, previos, ahora);
    PasoEntrada(e1.dic, o, t, items[n - 1].0, items[n - 1].1, ahora, x);
  }

  lemma {:induction false} FusionarTablaConserva(e: Estado, o: Idioma, t: Idioma, items: Tabla, ahora: Instante,
                                                 o': Idioma, t': Idioma, x: string)
    requires Existe(e.dic, o', t', x)
    ensures var r := FusionarTabla(e, o, t, items, ahora).dic;
      && Existe(r, o', t', x)
      && Entrada(e.dic, o', t', x).value.historialPuntuaciones <= Entrada(r, o', t', x).value.historialPuntuaciones
  {
    if items != [] {
      var previos := items[..|items| - 1];
      var e1 := FusionarTabla(e, o, t, previos, ahora);
      FusionarTablaConserva(e, o, t, previos, ahora, o', t', x);
      PasoConserva(e1.dic, o, t, items[|items| - 1].0, items[|items| - 1].1, ahora, o', t', x);
      PrefijoTransitivo(Entrada(e.dic, o', t', x).value.historialPuntuaciones,
                        Entrada(e1.dic, o', t', x).value.historialPuntuaciones,
                        Entrada(FusionarTabla(e, o, t, items, ahora).dic, o', t', x).value.historialPuntuaciones);
    }
  }

  lemma PrefijoTransitivo(a: seq<real>, b: seq<real>, c: seq<real>)
    requires a <= b && b <= c
    ensures a <= c
  {
    assert b[..|a|] == c[..|a|];
  }

  lemma {:induction false} FusionarFilaMarco(e: Estado, o: Idioma, fila: Fila, ls: seq<Idioma>, ahora: Instante,
                                             o': Idioma, t': Idioma, x: string)
    requires o' != o || t' !in ls || t' !in fila || NoToca(fila[t'], x)
    ensures Entrada(FusionarFila(e, o, fila, ls, ahora).dic, o', t', x) == Entrada(e.dic, o', t', x)
  {
    if ls != [] {
      var previos := ls[..|ls| - 1];
      var t := ls[|ls| - 1];
      assert t' in ls <==> t' in previos || t' == t;
      FusionarFilaMarco(e, o, fila, previos, ahora, o', t', x);
      if t in fila {
        FusionarTablaMarco(FusionarFila(e, o, fila, previos, ahora), o, t, fila[t], ahora, o', t', x);
      }
    }
  }

  lemma {:induction false} FusionarFilaEntrada(e: Estado, o: Idioma, fila: Fila, ls: seq<Idioma>, ahora: Instante,
                                               t: Idioma, x: string, j: nat)
    requires SinRepetidos(ls) && t in ls && t in fila && Unico(fila[t], x, j)
    ensures Entrada(FusionarFila(e, o, fila, ls, ahora).dic, o, t, x)
         == Some(Fusionada(Entrada(e.dic, o, t, x), fila[t][j].1, ahora))
  {
    var previos := ls[..|ls| - 1];
    var ultimo := ls[|ls| - 1];
    var e1 := FusionarFila(e, o, fila, previos, ahora);
    SinRepetidosPrefijo(ls);
    if ultimo == t {
      FusionarFilaMarco(e, o, fila, previos, ahora, o, t, x);
      FusionarTablaEntrada(e1, o, t, fila[t], ahora, x, j);
    } else {
      assert t in previos;
      FusionarFilaEntrada(e, o, fila, previos, ahora, t, x, j);
      if ultimo in fila {
        FusionarTablaMarco(e1, o, ultimo, fila[ultimo], ahora, o, t, x);
      }
    }
  }

  lemma {:induction false} FusionarFilaConserva(e: Estado, o: Idioma, fila: Fila, ls: seq<Idioma>, ahora: Instante,
                                                o': Idioma, t': Idioma, x: string)
    requires Existe(e.dic, o', t', x)
    ensures var r := FusionarFila(e, o, fila, ls, ahora).dic;
      && Existe(r, o', t', x)
      && Entrada(e.dic, o', t', x).value.historialPuntuaciones <= Entrada(r, o', t', x).value.historialPuntuaciones
  {
    if ls != [] {
      var previos := ls[..|ls| - 1];
      var t := ls[|ls| - 1];
      var e1 := FusionarFila(e, o, fila, previos, ahora);
      FusionarFilaConserva(e, o, fila, previos, ahora, o', t', x);
      if t in fila {
        FusionarTablaConserva(e1, o, t, fila[t], ahora, o', t', x);
        PrefijoTransitivo(Entrada(e.dic, o', t', x).value.historialPuntuaciones,
                          Entrada(e1.dic, o', t', x).value.historialPuntuaciones,
                          Entrada(FusionarFila(e, o, fila, ls, ahora).dic, o', t', x).value.historialPuntuaciones);
      }
    }
  }

  lemma {:induction false} FusionarOrigenesMarco(e: Estado, f: Diccionario, ls: seq<Idioma>, ahora: Instante,
                                                 o': Idioma, t': Idioma, x: string)
    requires o' !in ls || o' !in f || t' !in f[o'] || NoToca(f[o'][t'], x)
    ensures Entrada(FusionarOrigenes(e, f, ls, ahora).dic, o', t', x) == Entrada(e.dic, o', t', x)
  {
    if ls != [] {
      var previos := ls[..|ls| - 1];
      var o := ls[|ls| - 1];
      assert o' in ls <==> o' in previos || o' == o;
      FusionarOrigenesMarco(e, f, previos, ahora, o', t', x);
      if o in f {
        FusionarFilaMarco(FusionarOrigenes(e, f, previos, ahora), o, f[o], TodosLosIdiomas, ahora, o', t', x);
      }
    }
  }

  lemma {:induction false} FusionarOrigenesEntrada(e: Estado, f: Diccionario, ls: seq<Idioma>, ahora: Instante,
                                                   o: Idioma, t: Idioma, x: string, j: nat)
    requires SinRepetidos(ls) && o in ls && o in f && t in f[o] && Unico(f[o][t], x, j)
    ensures Entrada(FusionarOrigenes(e, f, ls, ahora).dic, o, t, x)
         == Some(Fusionada(Entrada(e.dic, o, t, x), f[o][t][j].1, ahora))
  {
    var previos := ls[..|ls| - 1];
    var ultimo := ls[|ls| - 1];
    var e1 := FusionarOrigenes(e, f, previos, ahora);
    SinRepetidosPrefijo(ls);
    if ultimo == o {
      FusionarOrigenesMarco(e, f, previos, ahora, o, t, x);
      EnumeracionCompleta(t);
      FusionarFilaEntrada(e1, o, f[o], TodosLosIdiomas, ahora, t, x, j);
    } else {
      assert o in previos;
      FusionarOrigenesEntrada(e, f, previos, ahora, o, t, x, j);
      if ultimo in f {
        FusionarFilaMarco(e1, ultimo, f[ultimo], TodosLosIdiomas, ahora, o, t, x);
      }
    }
  }

  lemma {:induction false} FusionarOrigenesConserva(e: Estado, f: Diccionario, ls: seq<Idioma>, ahora: Instante,
                                                    o': Idioma, t': Idioma, x: string)
    requires Existe(e.dic, o', t', x)
    ensures var r := FusionarOrigenes(e, f, ls, ahora).dic;
      && Existe(r, o', t', x)
      && Entrada(e.dic, o', t', x).value.historialPuntuaciones <= Entrada(r, o', t', x).value.historialPuntuaciones
  {
    if ls != [] {
      var previos := ls[..|ls| - 1];
      var o := ls[|ls| - 1];
      var e1 := FusionarOrigenes(e, f, previos, ahora);
      FusionarOrigenesConserva(e, f, previos, ahora, o', t', x);
      if o in f {
        FusionarFilaConserva(e1, o, f[o], TodosLosIdiomas, ahora, o', t', x);
        PrefijoTransitivo(Entrada(e.dic, o', t', x).value.historialPuntuaciones,
                          Entrada(e1.dic, o', t', x).value.historialPuntuaciones,
                          Entrada(FusionarOrigenes(e, f, ls, ahora).dic, o', t', x).value.historialPuntuaciones);
      }
    }
  }

  /** A local entry that no foreign key lower-cases to is left exactly as it was. */
  lemma FusionarDiccionarioMarco(d: Diccionario, f: Diccionario, ahora: Instante, o: Idioma, t: Idioma, x: string)
    requires o !in f || t !in f[o] || NoToca(f[o][t], x)
    ensures Entrada(FusionarDiccionario(d, f, ahora).dic, o, t, x) == Entrada(d, o, t, x)
  {
    EnumeracionCompleta(o);
    FusionarOrigenesMarco(Estado(d, Conteo(0, 0, 0)), f, TodosLosIdiomas, ahora, o, t, x);
  }

  /** A key that exactly one foreign entry lower-cases to ends up holding that entry merged
      into the local one: the foreign entry itself when the key was absent, `Combinar` of the
      two when it was present. */
  lemma FusionarDiccionarioEntrada(d: Diccionario, f: Diccionario, ahora: Instante,
                                   o: Idioma, t: Idioma, x: string, j: nat)
    requires o in f && t in f[o] && Unico(f[o][t], x, j)
    ensures Entrada(FusionarDiccionario(d, f, ahora).dic, o, t, x)
         == Some(Fusionada(Entrada(d, o, t, x), f[o][t][j].1, ahora))
  {
    EnumeracionCompleta(o);
    FusionarOrigenesEntrada(Estado(d, Conteo(0, 0, 0)), f, TodosLosIdiomas, ahora, o, t, x, j);
  }

  /** No local entry is lost, and each keeps its history as a prefix of its merged history
      (the local scores come first). */
  lemma FusionarDiccionarioConserva(d: Diccionario, f: Diccionario, ahora: Instante, o: Idioma, t: Idioma, x: string)
    requires Existe(d, o, t, x)
    ensures var r := FusionarDiccionario(d, f, ahora).dic;
      && Existe(r, o, t, x)
      && Entrada(d, o, t, x).value.historialPuntuaciones <= Entrada(r, o, t, x).value.historialPuntuaciones
  {
    FusionarOrigenesConserva(Estado(d, Conteo(0, 0, 0)), f, TodosLosIdiomas, ahora, o, t, x);
  }

  // ---------------------------------------------------------------------------------------
  // Two consequences for dictionaries whose keys are lower-cased and unique, the form the
  // translator itself keeps.

  predicate ClavesNormalizadas(items: Tabla) {
    && ClavesUnicas(items)
    && forall i :: 0 <= i < |items| ==> Minusculas(items[i].0) == items[i].0
  }

  predicate Normalizado(d: Diccionario) {
    forall o, t :: o in d && t in d[o] ==> ClavesNormalizadas(d[o][t])
  }

  /** In a normalised table, a key some entry lower-cases like belongs to that entry only. */
  lemma NormalizadaUnico(items: Tabla, x: string, j: nat)
    requires ClavesNormalizadas(items) && j < |items| && Minusculas(items[j].0) == Minusculas(x)
    ensures Unico(items, x, j)
  {
  }

  /** In a normalised dictionary the lookup of a stored key finds its own entry. */
  lemma EntradaNormalizada(d: Diccionario, o: Idioma, t: Idioma, i: nat)
    requires Normalizado(d) && o in d && t in d[o] && i < |d[o][t]|
    ensures Entrada(d, o, t, d[o][t][i].0) == Some(d[o][t][i].1)
  {
    var items := d[o][t];
    var r := Entrada(d, o, t, items[i].0);
    assert items[i].0 in Claves(items);
    var p :| 0 <= p < |items| && items[p] == (items[i].0, r.value);
    assert p == i;
  }

  /** Merging a normalised dictionary into itself doubles every history: each entry becomes
      `Combinar` of itself with itself, its scores followed by the same scores again. */
  lemma AutoFusionDuplica(d: Diccionario, ahora: Instante, o: Idioma, t: Idioma, i: nat)
    requires Normalizado(d) && o in d && t in d[o] && i < |d[o][t]|
    ensures var e := d[o][t][i];
      && Entrada(FusionarDiccionario(d, d, ahora).dic, o, t, e.0) == Some(Combinar(e.1, e.1, ahora))
      && Combinar(e.1, e.1, ahora).historialPuntuaciones == e.1.historialPuntuaciones + e.1.historialPuntuaciones
  {
    NormalizadaUnico(d[o][t], d[o][t][i].0, i);
    EntradaNormalizada(d, o, t, i);
    FusionarDiccionarioEntrada(d, d, ahora, o, t, d[o][t][i].0, i);
  }

  /** No phrase of a pair lower-cases alike in both foreign dictionaries. */
  predicate Disjuntos(f1: Diccionario, f2: Diccionario) {
    forall o, t :: o in f1 && t in f1[o] && o in f2 && t in f2[o] ==>
      forall i, j :: 0 <= i < |f1[o][t]| && 0 <= j < |f2[o][t]| ==>
        Minusculas(f1[o][t][i].0) != Minusculas(f2[o][t][j].0)
  }

  /** One foreign dictionary's effect on a lookup, when the other leaves it alone. */
  lemma UnaSola(d: Diccionario, f1: Diccionario, f2: Diccionario, ahora: Instante,
                o: Idioma, t: Idioma, x: string, j: nat)
    requires Normalizado(f1) && o in f1 && t in f1[o] && j < |f1[o][t]|
    requires Minusculas(f1[o][t][j].0) == Minusculas(x)
    requires o !in f2 || t !in f2[o] || NoToca(f2[o][t], x)
    ensures Entrada(FusionarDiccionario(FusionarDiccionario(d, f1, ahora).dic, f2, ahora).dic, o, t, x)
         == Some(Fusionada(Entrada(d, o, t, x), f1[o][t][j].1, ahora))
    ensures Entrada(FusionarDiccionario(FusionarDiccionario(d, f2, ahora).dic, f1, ahora).dic, o, t, x)
         == Some(Fusionada(Entrada(d, o, t, x), f1[o][t][j].1, ahora))
  {
    NormalizadaUnico(f1[o][t], x, j);
    var d1 := FusionarDiccionario(d, f1, ahora).dic;
    FusionarDiccionarioEntrada(d, f1, ahora, o, t, x, j);
    FusionarDiccionarioMarco(d1, f2, ahora, o, t, x);
    var d2 := FusionarDiccionario(d, f2, ahora).dic;
    FusionarDiccionarioMarco(d, f2, ahora, o, t, x);
    FusionarDiccionarioEntrada(d2, f1, ahora, o, t, x, j);
  }

  /** Merging two disjoint normalised dictionaries, one after the other, gives every lookup
      the same result in either order. */
  lemma FusionDisjuntaConmuta(d: Diccionario, f1: Diccionario, f2: Diccionario, ahora: Instante,
                              o: Idioma, t: Idioma, x: string)
    requires Normalizado(f1) && Normalizado(f2) && Disjuntos(f1, f2)
    ensures Entrada(FusionarDiccionario(FusionarDiccionario(d, f1, ahora).dic, f2, ahora).dic, o, t, x)
         == Entrada(FusionarDiccionario(FusionarDiccionario(d, f2, ahora).dic, f1, ahora).dic, o, t, x)
  {
    var toca1 := o in f1 && t in f1[o] && !NoToca(f1[o][t], x);
    var toca2 := o in f2 && t in f2[o] && !NoToca(f2[o][t], x);
    if toca1 {
      var j :| 0 <= j < |f1[o][t]| && Minusculas(f1[o][t][j].0) == Minusculas(x);
      UnaSola(d, f1, f2, ahora, o, t, x, j);
    } else if toca2 {
      var j :| 0 <= j < |f2[o][t]| && Minusculas(f2[o][t][j].0) == Minusculas(x);
      UnaSola(d, f2, f1, ahora, o, t, x, j);
    } else {
      FusionarDiccionarioMarco(d, f1, ahora, o, t, x);
      FusionarDiccionarioMarco(FusionarDiccionario(d, f1, ahora).dic, f2, ahora, o, t, x);
      FusionarDiccionarioMarco(d, f2, ahora, o, t, x);
      FusionarDiccionarioMarco(FusionarDiccionario(d, f2, ahora).dic, f1, ahora, o, t, x);
    }
  }
}
