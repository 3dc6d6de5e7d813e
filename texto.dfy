/** Lower-casing of phrase keys: every lookup and every write normalises the key with it. */
module Texto {

  /** Lower-case of one character: the ASCII capitals and the Latin-1 capitals
      (U+00C0 to U+00DE except the multiplication sign) move 32 code points up. */
  function MinusculaChar(c: char): (d: char)
    ensures EsMinusculaChar(d)
    ensures EsMinusculaChar(c) ==> d == c
  {
    if EsMayusculaChar(c) then (c as int + 32) as char else c
  }

  predicate EsMayusculaChar(c: char) {
    'A' <= c <= 'Z' || ('À' <= c <= 'Þ' && c != '×')
  }

  predicate EsMinusculaChar(c: char) {
    !EsMayusculaChar(c)
  }

  predicate EsMinuscula(s: string) {
    forall i :: 0 <= i < |s| ==> EsMinusculaChar(s[i])
  }

  /** `str.lower()`, character by character. */
  function Minusculas(s: string): (r: string)
    ensures |r| == |s|
    ensures forall i :: 0 <= i < |s| ==> r[i] == MinusculaChar(s[i])
  {
    if s == [] then [] else [MinusculaChar(s[0])] + Minusculas(s[1..])
  }

  /** The result of lower-casing is lower case. */
  lemma MinusculasEsMinuscula(s: string)
    ensures EsMinuscula(Minusculas(s))
  {
  }

  /** Lower-casing leaves a lower-case text alone. */
  lemma {:induction false} MinusculasFijaMinuscula(s: string)
    requires EsMinuscula(s)
    ensures Minusculas(s) == s
  {
    if s != [] {
      MinusculasFijaMinuscula(s[1..]);
    }
  }

  /** Lower-casing twice is lower-casing once, so a key written normalised is found again
      whatever the case of the text it is looked up with. */
  lemma MinusculasIdempotente(s: string)
    ensures Minusculas(Minusculas(s)) == Minusculas(s)
  {
    MinusculasEsMinuscula(s);
    MinusculasFijaMinuscula(Minusculas(s));
  }
}
