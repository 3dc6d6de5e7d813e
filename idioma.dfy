/** The closed set of languages the dictionary knows, and their display values. */
module Idiomas {

  import opened Wrappers

  datatype Idioma = Ingles | Espanol | Frances | Portugues

  /** The enumeration order of the languages, as iterating the enum yields them. */
  const TodosLosIdiomas: seq<Idioma> := [Ingles, Espanol, Frances, Portugues]

  predicate SinRepetidos(ls: seq<Idioma>) {
    forall i, j :: 0 <= i < j < |ls| ==> ls[i] != ls[j]
  }

  /** Iterating the enum visits every language exactly once. */
  lemma EnumeracionCompleta(l: Idioma)
    ensures l in TodosLosIdiomas
    ensures SinRepetidos(TodosLosIdiomas)
  {
  }

  /** The display value of each language (used as a key in the persisted forms), character
      for character as the enum declares it: the accented letters of "inglés", "español",
      "francés" and "portugués" appear there as the two characters U+221A U+00A9 (for "é")
      and U+221A U+00B1 (for "ñ"). */
  function Valor(l: Idioma): (s: string)
    ensures |s| > 0
  {
    match l
    case Ingles => "ingl\U{221A}\U{00A9}s"
    case Espanol => "espa\U{221A}\U{00B1}ol"
    case Frances => "franc\U{221A}\U{00A9}s"
    case Portugues => "portugu\U{221A}\U{00A9}s"
  }

  /** Looking a language up by its display value, as the loaders do by scanning the enum. */
  function DesdeValor(s: string): (r: Option<Idioma>)
    ensures r.Some? ==> Valor(r.value) == s
    ensures r.None? ==> forall l :: Valor(l) != s
  {
    if s == Valor(Ingles) then Some(Ingles)
    else if s == Valor(Espanol) then Some(Espanol)
    else if s == Valor(Frances) then Some(Frances)
    else if s == Valor(Portugues) then Some(Portugues)
    else None
  }

  /** The display values are distinct, so they identify the language. */
  lemma ValorIdaYVuelta(l: Idioma)
    ensures DesdeValor(Valor(l)) == Some(l)
  {
  }
}
