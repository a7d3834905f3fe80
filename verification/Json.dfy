/** JSON values as the two halves of the program hold them: `serde_json::Value` on the host and
    the parsed store snapshot in the web view. */
module Json {
  import opened Wrappers
  import Text

  /** `serde_json` keeps `30` and `30.0` apart; `AsU64` sees only the first. */
  datatype Number = Int(i: int) | Float(r: real) {
    function AsReal(): real {
      match this case Int(i) => i as real case Float(r) => r
    }

    predicate Whole() {
      match this case Int(_) => true case Float(r) => r.Floor as real == r
    }
  }

  datatype Value =
    | Null
    | Bool(b: bool)
    | Num(n: Number)
    | Str(s: string)
    | Arr(items: seq<Value>)
    | Obj(fields: map<string, Value>)
  {
    predicate Container() { Arr? || Obj? }

    /** `Value::get(&str)`: only an object has named children. */
    function Get(key: string): Option<Value> {
      if Obj? && key in fields then Some(fields[key]) else None
    }

    function AsStr(): Option<string> {
      if Str? then Some(s) else None
    }

    function AsBool(): Option<bool> {
      if Bool? then Some(b) else None
    }

    function AsU64(): Option<nat> {
      if Num? && n.Int? && 0 <= n.i < Text.U64_BOUND then Some(n.i) else None
    }

    function AsF64(): Option<real> {
      if Num? then Some(n.AsReal()) else None
    }
  }

  /** One step from a value to one of its children. */
  datatype Step = Key(name: string) | Index(i: nat)

  type Path = seq<Step>

  /** The child a step names, when the value has it. */
  function Child(v: Value, step: Step): Option<Value> {
    match step
    case Key(name) => v.Get(name)
    case Index(i) => if v.Arr? && i < |v.items| then Some(v.items[i]) else None
  }
}
