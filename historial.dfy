/** The action log: one record per insertion, successful lookup and evaluation. */
module Historial {

  import opened Idiomas
  import opened Traducciones
  import OrdenEstable

  datatype Accion =
    | Agregar(textoTraduccion: string)
    | Traducir(textoTraduccion: string, puntuacion: real)
    | Evaluar(puntuacion: real, puntuacionAnterior: real)

  /** `textoOrigen` is the phrase as the caller typed it, not its lower-cased key. */
  datatype Registro = Registro(
    fecha: Instante,
    accion: Accion,
    origen: Idioma,
    destino: Idioma,
    textoOrigen: string)

  function Fecha(r: Registro): real {
    r.fecha as real
  }

  predicate OrdenadoPorFecha(h: seq<Registro>) {
    forall i, j :: 0 <= i < j < |h| ==> h[i].fecha <= h[j].fecha
  }

  /** `historial.sort(key=fecha)`: stable, so records with the same timestamp keep their order. */
  function OrdenarPorFecha(h: seq<Registro>): (r: seq<Registro>)
    ensures multiset(r) == multiset(h)
    ensures OrdenadoPorFecha(r)
  {
    var r := OrdenEstable.Ordenar(h, Fecha);
    assert forall i, j :: 0 <= i < j < |r| ==> Fecha(r[i]) <= Fecha(r[j]);
    r
  }

  /** The log step of a merge: when the foreign log is not empty it is appended and the whole
      log re-sorted by timestamp; an empty foreign log leaves the local log as it was (not even
      re-sorted). */
  function FusionarHistorial(local: seq<Registro>, ajeno: seq<Registro>): (r: seq<Registro>)
    ensures ajeno == [] ==> r == local
    ensures ajeno != [] ==> multiset(r) == multiset(local + ajeno) && OrdenadoPorFecha(r)
  {
    if ajeno == [] then local else OrdenarPorFecha(local + ajeno)
  }

  /** Records that share a timestamp keep their pre-merge relative order: the local ones,
      in local order, before the foreign ones, in foreign order. */
  lemma FusionarHistorialEstable(local: seq<Registro>, ajeno: seq<Registro>, fecha: Instante)
    requires ajeno != []
    ensures OrdenEstable.ConRango(FusionarHistorial(local, ajeno), Fecha, fecha as real)
         == OrdenEstable.ConRango(local, Fecha, fecha as real) + OrdenEstable.ConRango(ajeno, Fecha, fecha as real)
  {
    OrdenEstable.OrdenarEstable(local + ajeno, Fecha, fecha as real);
    OrdenEstable.ConRangoConcatenado(local, ajeno, Fecha, fecha as real);
  }
}
