/** One directional phrase translation with its scoring state (the entry record). */
module Traducciones {

  import opened Wrappers
  import opened Puntuacion

  /** Timestamps are abstract instants supplied by the caller. */
  type Instante = nat

  datatype Traduccion = Traduccion(
    texto: string,
    puntuacionPromedio: real,
    totalEvaluaciones: nat,
    historialPuntuaciones: seq<real>,
    fechaCreacion: Instante,
    fechaUltimaModificacion: Instante)

  /** The intended invariant of an entry: the count is the length of the history and the
      average is the mean of the whole history. */
  predicate Coherente(t: Traduccion) {
    && t.totalEvaluaciones == |t.historialPuntuaciones|
    && |t.historialPuntuaciones| > 0
    && t.puntuacionPromedio == Media(t.historialPuntuaciones)
  }

  /** A freshly created entry: one default score of 5. */
  function Nueva(texto: string, ahora: Instante): (r: Traduccion)
    ensures Coherente(r)
    ensures r.texto == texto && r.historialPuntuaciones == [5.0]
    ensures r.fechaCreacion == ahora && r.fechaUltimaModificacion == ahora
  {
    Traduccion(texto, 5.0, 1, [5.0], ahora, ahora)
  }

  /** The entry an insertion stores: a fresh entry whose history is replaced by the single
      seed score, and whose average is that score. */
  function ConPuntuacion(texto: string, puntuacion: real, ahora: Instante): (r: Traduccion)
    ensures Coherente(r)
    ensures r.texto == texto && r.historialPuntuaciones == [puntuacion]
    ensures r.puntuacionPromedio == puntuacion && r.totalEvaluaciones == 1
    ensures r.fechaCreacion == ahora && r.fechaUltimaModificacion == ahora
  {
    var t := Nueva(texto, ahora);
    t.(historialPuntuaciones := [puntuacion], puntuacionPromedio := puntuacion)
  }

  /** Recording one evaluation: append the score, add one to the count and recompute the
      average as the sum of the history over the count. */
  function ActualizarPuntuacion(t: Traduccion, puntuacion: real, ahora: Instante): (r: Traduccion)
    ensures r.historialPuntuaciones == t.historialPuntuaciones + [puntuacion]
    ensures r.totalEvaluaciones == t.totalEvaluaciones + 1
    ensures r.puntuacionPromedio == Suma(r.historialPuntuaciones) / (r.totalEvaluaciones as real)
    ensures r.texto == t.texto && r.fechaCreacion == t.fechaCreacion
    ensures r.fechaUltimaModificacion == ahora
    ensures Coherente(t) ==> Coherente(r)
    ensures Coherente(t) ==>
      r.puntuacionPromedio
      == (t.puntuacionPromedio * (t.totalEvaluaciones as real) + puntuacion) / ((t.totalEvaluaciones + 1) as real)
  {
    var h := t.historialPuntuaciones + [puntuacion];
    var n := t.totalEvaluaciones + 1;
    var r := t.(historialPuntuaciones := h, totalEvaluaciones := n,
                puntuacionPromedio := Suma(h) / (n as real), fechaUltimaModificacion := ahora);
    assert Suma(h) == Suma(t.historialPuntuaciones) + puntuacion by {
      assert h[..|h| - 1] == t.historialPuntuaciones;
    }
    r
  }

  /** Combining an existing entry with a foreign one fails (division by zero) exactly when
      both histories are empty. */
  predicate FallaCombinar(existente: Traduccion, nueva: Traduccion) {
    |existente.historialPuntuaciones| + |nueva.historialPuntuaciones| == 0
  }

  /** The conflict branch of a merge: the foreign text wins, the histories are concatenated
      local first, and the count and average are recomputed from the concatenation. When the
      concatenation is empty the division fails after the text, history and count were already
      written, and the average and modification date keep their old values. */
  function Combinar(existente: Traduccion, nueva: Traduccion, ahora: Instante): (r: Traduccion)
    ensures r.texto == nueva.texto
    ensures r.historialPuntuaciones == existente.historialPuntuaciones + nueva.historialPuntuaciones
    ensures r.totalEvaluaciones == |r.historialPuntuaciones|
    ensures r.fechaCreacion == existente.fechaCreacion
    ensures !FallaCombinar(existente, nueva) ==> Coherente(r) && r.fechaUltimaModificacion == ahora
    ensures FallaCombinar(existente, nueva) ==>
      r.puntuacionPromedio == existente.puntuacionPromedio
      && r.fechaUltimaModificacion == existente.fechaUltimaModificacion
  {
    var h := existente.historialPuntuaciones + nueva.historialPuntuaciones;
    var parcial := existente.(texto := nueva.texto, historialPuntuaciones := h, totalEvaluaciones := |h|);
    if |h| == 0 then parcial
    else parcial.(puntuacionPromedio := Suma(h) / (|h| as real), fechaUltimaModificacion := ahora)
  }

  /** When both sides are coherent the merged average is the mean of the two averages
      weighted by their evaluation counts: no evaluation evidence is lost. */
  lemma CombinarPromedioPonderado(existente: Traduccion, nueva: Traduccion, ahora: Instante)
    requires Coherente(existente) && Coherente(nueva)
    ensures Combinar(existente, nueva, ahora).puntuacionPromedio
      == (existente.puntuacionPromedio * (existente.totalEvaluaciones as real)
          + nueva.puntuacionPromedio * (nueva.totalEvaluaciones as real))
         / ((existente.totalEvaluaciones + nueva.totalEvaluaciones) as real)
    ensures Combinar(existente, nueva, ahora).totalEvaluaciones
      == existente.totalEvaluaciones + nueva.totalEvaluaciones
  {
    MediaConcatenada(existente.historialPuntuaciones, nueva.historialPuntuaciones);
  }

  /** A valid evaluation keeps the average of a coherent entry whose scores are all valid
      within the valid range. */
  lemma ActualizarPuntuacionEnRango(t: Traduccion, puntuacion: real, ahora: Instante)
    requires Coherente(t) && EnRango(t.historialPuntuaciones, Minima, Maxima)
    requires Minima <= puntuacion <= Maxima
    ensures Minima <= ActualizarPuntuacion(t, puntuacion, ahora).puntuacionPromedio <= Maxima
  {
    var r := ActualizarPuntuacion(t, puntuacion, ahora);
    MediaAcotada(r.historialPuntuaciones, Minima, Maxima);
  }

  // ---------------------------------------------------------------------------------------
  // Field mapping to and from the persisted record (timestamps stay abstract instants).

  datatype Valor =
    | Texto(s: string)
    | Real(r: real)
    | Entero(n: int)
    | Lista(xs: seq<real>)
    | Fecha(t: Instante)

  const Campos: set<string> := {"texto", "puntuacion_promedio", "total_evaluaciones",
    "historial_puntuaciones", "fecha_creacion", "fecha_ultima_modificacion"}

  function ADict(t: Traduccion): (d: map<string, Valor>)
    ensures d.Keys == Campos
    ensures d["texto"] == Texto(t.texto) && d["historial_puntuaciones"] == Lista(t.historialPuntuaciones)
  {
    map["texto" := Texto(t.texto),
        "puntuacion_promedio" := Real(t.puntuacionPromedio),
        "total_evaluaciones" := Entero(t.totalEvaluaciones),
        "historial_puntuaciones" := Lista(t.historialPuntuaciones),
        "fecha_creacion" := Fecha(t.fechaCreacion),
        "fecha_ultima_modificacion" := Fecha(t.fechaUltimaModificacion)]
  }

  /** A record can be read back when every field is present with a value of its kind; the
      average may be stored as an integer or as a real number. */
  predicate BienFormado(d: map<string, Valor>) {
    && Campos <= d.Keys
    && d["texto"].Texto?
    && (d["puntuacion_promedio"].Real? || d["puntuacion_promedio"].Entero?)
    && d["total_evaluaciones"].Entero? && d["total_evaluaciones"].n >= 0
    && d["historial_puntuaciones"].Lista?
    && d["fecha_creacion"].Fecha? && d["fecha_ultima_modificacion"].Fecha?
  }

  function DesdeDict(d: map<string, Valor>): (r: Option<Traduccion>)
    ensures r.Some? <==> BienFormado(d)
    ensures r.Some? ==>
      r.value.texto == d["texto"].s && r.value.historialPuntuaciones == d["historial_puntuaciones"].xs
  {
    if !BienFormado(d) then None
    else
      var p := d["puntuacion_promedio"];
      Some(Traduccion(
        d["texto"].s,
        if p.Real? then p.r else p.n as real,
        d["total_evaluaciones"].n,
        d["historial_puntuaciones"].xs,
        d["fecha_creacion"].t,
        d["fecha_ultima_modificacion"].t))
  }

  /** Writing an entry out and reading it back gives the same entry. */
  lemma DictIdaYVuelta(t: Traduccion)
    ensures DesdeDict(ADict(t)) == Some(t)
  {
  }

  /** Reading a record with exactly the six fields and a real average, and writing it out
      again, gives the same record. */
  lemma DictVueltaEIda(d: map<string, Valor>)
    requires BienFormado(d) && d.Keys == Campos && d["puntuacion_promedio"].Real?
    ensures ADict(DesdeDict(d).value) == d
  {
    var e := ADict(DesdeDict(d).value);
    forall k | k in Campos
      ensures e[k] == d[k]
    {
    }
  }

  /** The worked example: seed score 5, then one evaluation of 9. */
  lemma EjemploEvaluacion(ahora: Instante)
    ensures var t := ActualizarPuntuacion(ConPuntuacion("hello", 5.0, ahora), 9.0, ahora);
      t.puntuacionPromedio == 7.0 && t.totalEvaluaciones == 2 && t.historialPuntuaciones == [5.0, 9.0]
  {
  }
}
