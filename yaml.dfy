/** The YAML value tree (`serde_yaml::Value`) the converter builds before it
    serialises: every mapping key the source writes is a string, so a
    mapping is an insertion-ordered map from strings to values. */
module Yaml {
  import opened Wrappers
  import opened IndexMaps

  /** `Float` keeps the literal that `str::parse::<f64>` accepted. */
  datatype Value =
    | Null
    | Bool(b: bool)
    | Int(i: int)
    | Float(literal: string)
    | Str(s: string)
    | Seq(items: seq<Value>)
    | Map(entries: seq<Entry<Value>>)

  type Mapping = seq<Entry<Value>>

  /** The value reached by following `path` through nested mappings. */
  function GetPath(m: Mapping, path: seq<string>): Option<Value>
    decreases |path|
  {
    if path == [] then None
    else
      match Get(m, path[0])
      case None => None
      case Some(v) =>
        if |path| == 1 then Some(v)
        else if v.Map? then GetPath(v.entries, path[1..])
        else None
  }
}
