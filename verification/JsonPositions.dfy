/** Positions inside a JSON document. */
module JsonPositions {
  import opened JsonValues

  datatype Step = Key(key: string) | Index(index: nat)

  type Path = seq<Step>

  function Child(v: Json, s: Step): Option<Json> {
    match s
    case Key(k) => if v.Obj? then Find(v.fields, k) else None
    case Index(i) => if v.Arr? && i < |v.items| then Some(v.items[i]) else None
  }

  function At(v: Json, path: Path): Option<Json>
    decreases path
  {
    if path == [] then Some(v)
    else
      var child := Child(v, path[0]);
      if child.None? then None else At(child.value, path[1..])
  }
}
