/** JSON values as Python's `json` module produces and consumes them (finite numbers only). */
module Json {

  datatype Json =
    | Null
    | Bool(b: bool)
    | Num(n: int)
    | Frac(x: real)     // a number written with a fraction or an exponent: a Python float
    | Str(s: string)
    | Arr(items: seq<Json>)
    | Obj(fields: map<string, Json>)

  /** The name Python gives the type of a decoded value in its error messages. */
  function TypeName(v: Json): string {
    match v
    case Null => "NoneType"
    case Bool(_) => "bool"
    case Num(_) => "int"
    case Frac(_) => "float"
    case Str(_) => "str"
    case Arr(_) => "list"
    case Obj(_) => "dict"
  }

  /** The content of a checkpoint file as the scripts see it when they try to load it. */
  datatype CheckpointFile =
    | Missing             // the path does not exist
    | Undecodable         // `json.load` raised
    | Loaded(content: Json)
}
