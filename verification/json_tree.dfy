/** JSON documents as trees; their text form is left to the library. */
module JsonTree {
  import opened Base

  datatype Json =
    | Null
    | Bool(b: bool)
    | Num(n: real)
    | Text(s: string)
    | List(items: seq<Json>)
    | Object(fields: map<string, Json>)

  type Doc = map<string, Json>

  /** `dict.get(key)`. */
  function Get(d: Doc, key: string): Json {
    if key in d then d[key] else Null
  }

  predicate NonEmptyText(j: Json) {
    j.Text? && j.s != []
  }

  /** The library: how a tree is written, read and shown. `loads` is None on text that is not JSON. */
  datatype Codec = Codec(dumps: Json -> string, loads: string -> Option<Json>, show: Json -> string)

  /** What is written can be read, and is never empty. */
  ghost predicate Faithful(c: Codec) {
    forall j :: c.loads(c.dumps(j)) == Some(j) && c.dumps(j) != []
  }

  /** `str(x)`. */
  function Str(c: Codec, j: Json): string {
    if j.Text? then j.s else c.show(j)
  }
}
