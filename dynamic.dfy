/**
 * Untyped values as a YAML/JSON decoder produces them for a Go `any`: nil, booleans,
 * integers, strings, lists (`[]any`) and maps with string keys (`map[string]any`).
 * A map is its list of entries, in an order the model leaves open.
 */
module Dynamic {
  import opened Text

  datatype Dyn =
    | DNil
    | DBool(b: bool)
    | DInt(i: int)
    | DString(s: string)
    | DList(items: seq<Dyn>)
    | DMap(entries: seq<(string, Dyn)>)

  /** The `%v` rendering of a value in an error message, for the scalar cases. */
  function Show(d: Dyn): string
  {
    match d
    case DNil => "<nil>"
    case DBool(b) => if b then "true" else "false"
    case DInt(i) => if i < 0 then "-" + NatToString(-i) else NatToString(i)
    case DString(s) => s
    case DList(_) => "[...]"
    case DMap(_) => "map[...]"
  }

  /** The `%q` rendering of a string (characters needing an escape are not escaped). */
  function Quote(s: string): string
  {
    "\"" + s + "\""
  }
}
