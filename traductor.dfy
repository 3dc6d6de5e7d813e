/** The learner aggregate: the dictionary and the action log it owns, and the operations
    that update them in place. */
module Traductor {

  import opened Wrappers
  import opened Idiomas
  import opened Texto
  import opened Puntuacion
  import opened Traducciones
  import opened Tablas
  import opened Diccionarios
  import opened Historial
  import opened Estadisticas
  import Fusion

  /** What an evaluation reports: a score outside 1..10, no entry for the phrase, or the
      average before and after. */
  datatype ResultadoEvaluacion =
    | PuntuacionInvalida
    | NoExiste
    | Evaluada(anterior: real, nueva: real)

  /** The statistics a whole-dictionary merge returns. */
  datatype EstadisticasFusion = EstadisticasFusion(
    totalAntes: nat,
    agregadas: nat,
    actualizadas: nat,
    errores: nat,
    totalDespues: nat)

  /** The row the skeleton gives source language `o`. */
  predicate FilaEsqueleto(f: Fila, o: Idioma) {
    forall t :: (t in f <==> t != o) && (t in f ==> f[t] == [])
  }

  /** The inner loop of `inicializar_diccionario`: an empty table for every target language
      other than `origen`, added in enumeration order. */
  method FilaVacia(origen: Idioma) returns (fila: Fila)
    ensures FilaEsqueleto(fila, origen)
  {
    fila := map[];
    for j := 0 to |TodosLosIdiomas|
      invariant forall t :: t in fila <==> t in TodosLosIdiomas[..j] && t != origen
      invariant forall t :: t in fila ==> fila[t] == []
    {
      var destino := TodosLosIdiomas[j];
      if origen != destino {
        fila := fila[destino := []];
      }
      assert TodosLosIdiomas[..j + 1] == TodosLosIdiomas[..j] + [destino];
    }
    forall t ensures t in TodosLosIdiomas[..|TodosLosIdiomas|] {
      EnumeracionCompleta(t);
    }
  }

  class TraductorAprendizaje {

    var diccionario: Diccionario
    var historialTraducciones: seq<Registro>

    /** Every pair table has unique keys, as a dictionary's keys are. */
    ghost predicate Valid()
      reads this
    {
      Diccionarios.BienFormado(diccionario)
    }

    /** A learner starts from the empty skeleton and an empty log (the built-in seed
        phrases are not part of this model). */
    constructor ()
      ensures Valid()
      ensures EsEsqueleto(diccionario) && historialTraducciones == []
    {
      diccionario := map[];
      historialTraducciones := [];
      new;
      InicializarDiccionario();
    }

    /** `inicializar_diccionario`: give every language a row with an empty table for every
        other language. Every language is overwritten, so the result is the skeleton
        whatever the dictionary held. */
    method InicializarDiccionario()
      modifies this
      ensures Valid()
      ensures EsEsqueleto(diccionario)
      ensures historialTraducciones == old(historialTraducciones)
    {
      for i := 0 to |TodosLosIdiomas|
        invariant historialTraducciones == old(historialTraducciones)
        invariant forall k :: 0 <= k < i ==>
          TodosLosIdiomas[k] in diccionario && FilaEsqueleto(diccionario[TodosLosIdiomas[k]], TodosLosIdiomas[k])
      {
        var origen := TodosLosIdiomas[i];
        var fila := FilaVacia(origen);
        diccionario := diccionario[origen := fila];
      }
      forall o ensures o in diccionario && FilaEsqueleto(diccionario[o], o) {
        EnumeracionCompleta(o);
        var k :| 0 <= k < |TodosLosIdiomas| && TodosLosIdiomas[k] == o;
      }
    }

    /** `agregar_traduccion`: an insertion with the default seed score 5. */
    method AgregarTraduccion(origen: Idioma, destino: Idioma, textoOrigen: string,
                             textoTraduccion: string, ahora: Instante)
      requires Valid()
      modifies this
      ensures Valid()
      ensures diccionario == Insertar(old(diccionario), origen, destino, Minusculas(textoOrigen),
                                      ConPuntuacion(textoTraduccion, 5.0, ahora))
      ensures historialTraducciones == old(historialTraducciones)
                + [Registro(ahora, Agregar(textoTraduccion), origen, destino, textoOrigen)]
    {
      AgregarTraduccionConPuntuacion(origen, destino, textoOrigen, textoTraduccion, 5.0, ahora);
    }

    /** `agregar_traduccion_con_puntuacion`: store, under the lower-cased phrase, a fresh entry
        whose history is the single seed score, overwriting any entry already there; no other
        entry changes; one insertion record is logged. */
    method AgregarTraduccionConPuntuacion(origen: Idioma, destino: Idioma, textoOrigen: string,
                                          textoTraduccion: string, puntuacion: real, ahora: Instante)
      requires Valid()
      modifies this
      ensures Valid()
      ensures diccionario == Insertar(old(diccionario), origen, destino, Minusculas(textoOrigen),
                                      ConPuntuacion(textoTraduccion, puntuacion, ahora))
      ensures Entrada(diccionario, origen, destino, textoOrigen) == Some(ConPuntuacion(textoTraduccion, puntuacion, ahora))
      ensures forall o, t, x :: (o, t, Minusculas(x)) != (origen, destino, Minusculas(textoOrigen)) ==>
        Entrada(diccionario, o, t, x) == Entrada(old(diccionario), o, t, x)
      ensures Total(diccionario) == Total(old(diccionario)) + (if Existe(old(diccionario), origen, destino, textoOrigen) then 0 else 1)
      ensures historialTraducciones == old(historialTraducciones)
                + [Registro(ahora, Agregar(textoTraduccion), origen, destino, textoOrigen)]
    {
      var clave := Minusculas(textoOrigen);
      var nueva := ConPuntuacion(textoTraduccion, puntuacion, ahora);
      ghost var antes := diccionario;
      InsertarBienFormado(diccionario, origen, destino, clave, nueva);
      TotalInsertar(diccionario, origen, destino, clave, nueva);
      diccionario := Insertar(diccionario, origen, destino, clave, nueva);
      InsertarEntrada(antes, origen, destino, textoOrigen, nueva, origen, destino, textoOrigen);
      forall o, t, x | (o, t, Minusculas(x)) != (origen, destino, clave)
        ensures Entrada(diccionario, o, t, x) == Entrada(antes, o, t, x)
      {
        InsertarEntrada(antes, origen, destino, textoOrigen, nueva, o, t, x);
      }
      historialTraducciones := historialTraducciones
        + [Registro(ahora, Agregar(textoTraduccion), origen, destino, textoOrigen)];
    }

    /** `traducir`: a case-insensitive lookup. A hit returns the stored text and logs one
        lookup record with the current average; a miss returns nothing and changes nothing. */
    method Traducir(origen: Idioma, destino: Idioma, texto: string, ahora: Instante)
      returns (r: Option<string>)
      requires Valid()
      modifies this
      ensures Valid()
      ensures diccionario == old(diccionario)
      ensures r.Some? <==> Existe(diccionario, origen, destino, texto)
      ensures r.Some? ==>
        var e := Entrada(diccionario, origen, destino, texto).value;
        && r.value == e.texto
        && historialTraducciones == old(historialTraducciones)
             + [Registro(ahora, Accion.Traducir(e.texto, e.puntuacionPromedio), origen, destino, texto)]
      ensures r.None? ==> historialTraducciones == old(historialTraducciones)
    {
      var encontrada := Entrada(diccionario, origen, destino, texto);
      if encontrada.Some? {
        var e := encontrada.value;
        historialTraducciones := historialTraducciones
          + [Registro(ahora, Accion.Traducir(e.texto, e.puntuacionPromedio), origen, destino, texto)];
        r := Some(e.texto);
      } else {
        r := None;
      }
    }

    /** `evaluar_traduccion`: reject a score outside `Minima`..`Maxima` or a phrase without entry, changing
        nothing; otherwise record the score on the entry (see `ActualizarPuntuacion`), change no
        other entry, and log one evaluation record with the previous average. */
    method EvaluarTraduccion(origen: Idioma, destino: Idioma, texto: string, puntuacion: real,
                             ahora: Instante)
      returns (r: ResultadoEvaluacion)
      requires Valid()
      modifies this
      ensures Valid()
      ensures puntuacion < Minima || puntuacion > Maxima ==>
        r == PuntuacionInvalida
        && diccionario == old(diccionario) && historialTraducciones == old(historialTraducciones)
      ensures Minima <= puntuacion <= Maxima && !Existe(old(diccionario), origen, destino, texto) ==>
        r == NoExiste
        && diccionario == old(diccionario) && historialTraducciones == old(historialTraducciones)
      ensures Minima <= puntuacion <= Maxima && Existe(old(diccionario), origen, destino, texto) ==>
        var e := Entrada(old(diccionario), origen, destino, texto).value;
        var e' := ActualizarPuntuacion(e, puntuacion, ahora);
        && diccionario == Insertar(old(diccionario), origen, destino, Minusculas(texto), e')
        && Entrada(diccionario, origen, destino, texto) == Some(e')
        && Total(diccionario) == Total(old(diccionario))
        && historialTraducciones == old(historialTraducciones)
             + [Registro(ahora, Evaluar(puntuacion, e.puntuacionPromedio), origen, destino, texto)]
        && r == Evaluada(e.puntuacionPromedio, e'.puntuacionPromedio)
      ensures forall o, t, x :: (o, t, Minusculas(x)) != (origen, destino, Minusculas(texto)) ==>
        Entrada(diccionario, o, t, x) == Entrada(old(diccionario), o, t, x)
    {
      if puntuacion < Minima || puntuacion > Maxima {
        return PuntuacionInvalida;
      }
      var encontrada := Entrada(diccionario, origen, destino, texto);
      if encontrada.None? {
        return NoExiste;
      }
      var e := encontrada.value;
      var anterior := e.puntuacionPromedio;
      var e' := ActualizarPuntuacion(e, puntuacion, ahora);
      var clave := Minusculas(texto);
      ghost var antes := diccionario;
      InsertarBienFormado(diccionario, origen, destino, clave, e');
      TotalInsertar(diccionario, origen, destino, clave, e');
      diccionario := Insertar(diccionario, origen, destino, clave, e');
      InsertarEntrada(antes, origen, destino, texto, e', origen, destino, texto);
      forall o, t, x | (o, t, Minusculas(x)) != (origen, destino, clave)
        ensures Entrada(diccionario, o, t, x) == Entrada(antes, o, t, x)
      {
        InsertarEntrada(antes, origen, destino, texto, e', o, t, x);
      }
      historialTraducciones := historialTraducciones
        + [Registro(ahora, Evaluar(puntuacion, anterior), origen, destino, texto)];
      r := Evaluada(anterior, e'.puntuacionPromedio);
    }

    /** `fusionar_traduccion` applied to this dictionary. */
    method FusionarTraduccion(origen: Idioma, destino: Idioma, textoOrigen: string,
                              nueva: Traduccion, ahora: Instante)
      returns (r: Fusion.Resultado)
      requires Valid()
      modifies this
      ensures Valid()
      ensures (diccionario, r) == Fusion.FusionarTraduccion(old(diccionario), origen, destino, textoOrigen, nueva, ahora)
      ensures historialTraducciones == old(historialTraducciones)
    {
      var clave := Minusculas(textoOrigen);
      var existe := Existe(diccionario, origen, destino, textoOrigen);
      var v := nueva;
      if existe {
        var existente := Entrada(diccionario, origen, destino, textoOrigen).value;
        v := Combinar(existente, nueva, ahora);
        r := if FallaCombinar(existente, nueva) then Fusion.Error else Fusion.Actualizada;
      } else {
        r := Fusion.Agregada;
      }
      InsertarBienFormado(diccionario, origen, destino, clave, v);
      diccionario := Insertar(diccionario, origen, destino, clave, v);
    }

    /** `fusionar_diccionario_completo`: merge every foreign entry (sources, then targets, then
        the entries of each pair in table order), counting each as added, updated or failed;
        then, when the foreign log is not empty, append it and re-sort the log by timestamp. */
    method FusionarDiccionarioCompleto(nuevo: Diccionario, nuevoHistorial: seq<Registro>, ahora: Instante)
      returns (s: EstadisticasFusion)
      requires Valid()
      modifies this
      ensures Valid()
      ensures var e := Fusion.FusionarDiccionario(old(diccionario), nuevo, ahora);
        && diccionario == e.dic
        && s == EstadisticasFusion(Total(old(diccionario)), e.conteo.agregadas, e.conteo.actualizadas,
                                   e.conteo.errores, Total(e.dic))
      ensures s.agregadas + s.actualizadas + s.errores == Total(nuevo)
      ensures s.totalDespues == s.totalAntes + s.agregadas
      ensures historialTraducciones == FusionarHistorial(old(historialTraducciones), nuevoHistorial)
    {
      var antes := ObtenerTotalTraducciones();
      ghost var inicio := Fusion.Estado(diccionario, Fusion.Conteo(0, 0, 0));
      var conteo := Fusion.Conteo(0, 0, 0);
      for i := 0 to |TodosLosIdiomas|
        invariant Valid()
        invariant historialTraducciones == old(historialTraducciones)
        invariant Fusion.Estado(diccionario, conteo) == Fusion.FusionarOrigenes(inicio, nuevo, TodosLosIdiomas[..i], ahora)
      {
        var origen := TodosLosIdiomas[i];
        assert TodosLosIdiomas[..i + 1][..i] == TodosLosIdiomas[..i];
        if origen in nuevo {
          conteo := FusionarFila(origen, nuevo[origen], conteo, ahora);
        }
      }
      var agregadas, actualizadas, errores := conteo.agregadas, conteo.actualizadas, conteo.errores;
      assert TodosLosIdiomas[..|TodosLosIdiomas|] == TodosLosIdiomas;
      if nuevoHistorial != [] {
        historialTraducciones := OrdenarPorFecha(historialTraducciones + nuevoHistorial);
      }
      var despues := ObtenerTotalTraducciones();
      s := EstadisticasFusion(antes, agregadas, actualizadas, errores, despues);
    }

    /** The targets loop of the merge for one foreign source row. */
    method FusionarFila(origen: Idioma, fila: Fila, conteo: Fusion.Conteo, ahora: Instante)
      returns (conteo': Fusion.Conteo)
      requires Valid()
      modifies this
      ensures Valid()
      ensures Fusion.Estado(diccionario, conteo')
           == Fusion.FusionarFila(Fusion.Estado(old(diccionario), conteo), origen, fila, TodosLosIdiomas, ahora)
      ensures historialTraducciones == old(historialTraducciones)
    {
      ghost var e1 := Fusion.Estado(diccionario, conteo);
      conteo' := conteo;
      for j := 0 to |TodosLosIdiomas|
        invariant Valid()
        invariant historialTraducciones == old(historialTraducciones)
        invariant Fusion.Estado(diccionario, conteo') == Fusion.FusionarFila(e1, origen, fila, TodosLosIdiomas[..j], ahora)
      {
        var destino := TodosLosIdiomas[j];
        assert TodosLosIdiomas[..j + 1][..j] == TodosLosIdiomas[..j];
        if destino in fila {
          conteo' := FusionarTabla(origen, destino, fila[destino], conteo', ahora);
        }
      }
      assert TodosLosIdiomas[..|TodosLosIdiomas|] == TodosLosIdiomas;
    }

    /** The entries loop of the merge for one foreign pair table, in table order. */
    method FusionarTabla(origen: Idioma, destino: Idioma, tabla: Tabla, conteo: Fusion.Conteo, ahora: Instante)
      returns (conteo': Fusion.Conteo)
      requires Valid()
      modifies this
      ensures Valid()
      ensures Fusion.Estado(diccionario, conteo')
           == Fusion.FusionarTabla(Fusion.Estado(old(diccionario), conteo), origen, destino, tabla, ahora)
      ensures historialTraducciones == old(historialTraducciones)
    {
      ghost var e2 := Fusion.Estado(diccionario, conteo);
      conteo' := conteo;
      for k := 0 to |tabla|
        invariant Valid()
        invariant historialTraducciones == old(historialTraducciones)
        invariant Fusion.Estado(diccionario, conteo') == Fusion.FusionarTabla(e2, origen, destino, tabla[..k], ahora)
      {
        conteo' := FusionarEntrada(origen, destino, tabla[k].0, tabla[k].1, conteo', ahora);
        Fusion.FusionarTablaPaso(e2, origen, destino, tabla, k, ahora);
      }
      assert tabla[..|tabla|] == tabla;
    }

    /** The body of the entries loop: merge one foreign entry and bump the counter its outcome
        names. */
    method FusionarEntrada(origen: Idioma, destino: Idioma, textoOrigen: string, nueva: Traduccion,
                           conteo: Fusion.Conteo, ahora: Instante)
      returns (conteo': Fusion.Conteo)
      requires Valid()
      modifies this
      ensures Valid()
      ensures var r := Fusion.FusionarTraduccion(old(diccionario), origen, destino, textoOrigen, nueva, ahora);
        diccionario == r.0 && conteo' == Fusion.Contar(conteo, r.1)
      ensures historialTraducciones == old(historialTraducciones)
    {
      var resultado := FusionarTraduccion(origen, destino, textoOrigen, nueva, ahora);
      match resultado {
        case Agregada => conteo' := conteo.(agregadas := conteo.agregadas + 1);
        case Actualizada => conteo' := conteo.(actualizadas := conteo.actualizadas + 1);
        case Error => conteo' := conteo.(errores := conteo.errores + 1);
      }
      assert conteo' == Fusion.Contar(conteo, resultado);
    }

    /** `obtener_total_traducciones`: the number of entries over all pairs. */
    method ObtenerTotalTraducciones() returns (total: nat)
      ensures total == Total(diccionario)
    {
      total := 0;
      for i := 0 to |TodosLosIdiomas|
        invariant total == SumaOrigenes(diccionario, TodosLosIdiomas[..i])
      {
        var origen := TodosLosIdiomas[i];
        assert TodosLosIdiomas[..i + 1][..i] == TodosLosIdiomas[..i];
        if origen in diccionario {
          var fila := diccionario[origen];
          ghost var base := total;
          for j := 0 to |TodosLosIdiomas|
            invariant total == base + SumaFila(fila, TodosLosIdiomas[..j])
          {
            var destino := TodosLosIdiomas[j];
            assert TodosLosIdiomas[..j + 1][..j] == TodosLosIdiomas[..j];
            if destino in fila {
              total := total + |fila[destino]|;
            }
          }
          assert TodosLosIdiomas[..|TodosLosIdiomas|] == TodosLosIdiomas;
        }
      }
      assert TodosLosIdiomas[..|TodosLosIdiomas|] == TodosLosIdiomas;
    }

    /** `obtener_estadisticas`: the report `Calcular` specifies, built by three nested
        accumulator loops. */
    method ObtenerEstadisticas() returns (s: EstadisticasGlobales)
      ensures s == Calcular(diccionario, |historialTraducciones|)
    {
      var idiomas: PorIdioma := map[];
      for i := 0 to |TodosLosIdiomas|
        invariant idiomas == map l | l in TodosLosIdiomas[..i] :: Inicial
      {
        assert TodosLosIdiomas[..i + 1] == TodosLosIdiomas[..i] + [TodosLosIdiomas[i]];
        idiomas := idiomas[TodosLosIdiomas[i] := Inicial];
      }
      assert TodosLosIdiomas[..|TodosLosIdiomas|] == TodosLosIdiomas;
      var a := Acumulado(0, 0, 0.0, 0, idiomas);
      assert a == AcumuladoInicial();
      for i := 0 to |TodosLosIdiomas|
        invariant a == PasoOrigenes(AcumuladoInicial(), diccionario, TodosLosIdiomas[..i])
      {
        var origen := TodosLosIdiomas[i];
        assert TodosLosIdiomas[..i + 1][..i] == TodosLosIdiomas[..i];
        if origen in diccionario {
          a := AcumularFila(a, origen, diccionario[origen]);
        }
      }
      assert TodosLosIdiomas[..|TodosLosIdiomas|] == TodosLosIdiomas;
      var global := if a.combinaciones > 0 then a.sumaGlobal / a.combinaciones as real else 0.0;
      s := EstadisticasGlobales(a.totalTraducciones, a.totalEvaluaciones, global, a.combinaciones,
                                a.idiomas, |historialTraducciones|);
    }

    /** `limpiar_diccionario`: drop every entry and the whole log and rebuild the skeleton;
        afterwards the dictionary holds no entry. */
    method LimpiarDiccionario()
      modifies this
      ensures Valid()
      ensures EsEsqueleto(diccionario) && historialTraducciones == []
      ensures Total(diccionario) == 0
    {
      diccionario := map[];
      historialTraducciones := [];
      InicializarDiccionario();
      TotalEsqueleto(diccionario);
    }

    /** Loading in replace mode: adopt the loaded dictionary and log as they are. */
    method ReemplazarDiccionario(nuevo: Diccionario, nuevoHistorial: seq<Registro>)
      requires Diccionarios.BienFormado(nuevo)
      modifies this
      ensures Valid()
      ensures diccionario == nuevo && historialTraducciones == nuevoHistorial
    {
      diccionario := nuevo;
      historialTraducciones := nuevoHistorial;
    }
  }
}
