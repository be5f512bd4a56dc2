/** How Python treats JSON values: str(value), truth, and dict.get. */
module PyValues {
  import opened Text
  import opened Json

  /** str(value); `repr` stands for the text Python gives a list or a dictionary. */
  function PyStr(repr: Json -> string, v: Json): string {
    match v
    case Null => "None"
    case Bool(b) => if b then "True" else "False"
    case Num(n) => IntText(n)
    case Str(s) => s
    case Arr(_) => repr(v)
    case Obj(_) => repr(v)
  }

  predicate Truthy(v: Json) {
    match v
    case Null => false
    case Bool(b) => b
    case Num(n) => n != 0
    case Str(s) => s != []
    case Arr(items) => items != []
    case Obj(fields) => fields != map[]
  }

  /** fields.get(key): None when the key is absent, and JSON null is None too. */
  function Get(fields: map<string, Json>, key: string): Json {
    if key in fields then fields[key] else Null
  }

  /** fields.get(first) or fields.get(second). */
  function GetOr(fields: map<string, Json>, first: string, second: string): Json {
    if Truthy(Get(fields, first)) then Get(fields, first) else Get(fields, second)
  }
}
