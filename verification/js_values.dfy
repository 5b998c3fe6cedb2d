/** The loosely typed cell values the spreadsheet backend hands to the frontend. */
module JsValues {

  /** A JavaScript value as far as `isPicked` can tell values apart: booleans and strings
      are kept exactly; every other value is known only by its truthiness. */
  datatype JsValue =
    | Bool(b: bool)
    | Str(s: string)
    | OtherTruthy  // a non-zero number, an object, an array, ...
    | OtherFalsy   // null, undefined, 0, NaN

  /** JavaScript's `Boolean(v)`: the empty string is the only falsy string. */
  predicate Truthy(v: JsValue) {
    match v
    case Bool(b) => b
    case Str(s) => s != ""
    case OtherTruthy => true
    case OtherFalsy => false
  }

  /** The spreadsheet spells booleans either as booleans or as "true"/"TRUE"/"false"/"FALSE". */
  predicate SpellsTrue(v: JsValue) {
    v == Bool(true) || v == Str("true") || v == Str("TRUE")
  }

  predicate SpellsFalse(v: JsValue) {
    v == Bool(false) || v == Str("false") || v == Str("FALSE")
  }

  /** `isPicked`: the three-way coercion of a sheet cell to the picked flag. */
  function IsPicked(v: JsValue): (r: bool)
    ensures SpellsTrue(v) ==> r
    ensures SpellsFalse(v) ==> !r
    ensures !SpellsTrue(v) && !SpellsFalse(v) ==> r == Truthy(v)
  {
    if SpellsTrue(v) then true
    else if SpellsFalse(v) then false
    else Truthy(v)
  }

  /** The coercion only departs from plain truthiness on the two spellings of "false",
      which are non-empty and therefore truthy strings. */
  lemma IsPickedVersusTruthy(v: JsValue)
    ensures IsPicked(v) != Truthy(v) <==> v == Str("false") || v == Str("FALSE")
  {
  }

  /** Strings other than the four spellings are picked exactly when they are non-empty. */
  lemma IsPickedOnStrings(s: string)
    requires s !in {"true", "TRUE", "false", "FALSE"}
    ensures IsPicked(Str(s)) <==> s != ""
  {
  }
}
