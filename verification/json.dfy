/** Decoded JSON documents, as JSONSerialization hands them to the app. */
module Json {
  import opened Wrappers

  /**
   * A JSON value. Objects are maps (a Swift `[String: Any]` has unique keys and no
   * order); a number carries the text that Swift's string interpolation renders for it.
   */
  datatype Value =
    | Null
    | Bool(boolean: bool)
    | Number(text: string)
    | Str(str: string)
    | Array(items: seq<Value>)
    | Object(fields: map<string, Value>)

  /** Objects and arrays are containers; everything else is a scalar. */
  predicate IsContainer(v: Value)
  {
    v.Array? || v.Object?
  }

  /** One step into a container: an object member by name or an array element by index. */
  datatype Selector = Key(name: string) | Index(position: nat)

  /** The value reached from `v` by following `path`, if every step exists. */
  function At(v: Value, path: seq<Selector>): (r: Option<Value>)
    ensures path == [] ==> r == Some(v)
    ensures r.Some? && path != [] ==> IsContainer(v)
    decreases |path|
  {
    if path == [] then Some(v)
    else match path[0]
      case Key(k) =>
        if v.Object? && k in v.fields then At(v.fields[k], path[1..]) else None
      case Index(i) =>
        if v.Array? && i < |v.items| then At(v.items[i], path[1..]) else None
  }
}
