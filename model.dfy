/** The player record every component stores and passes around. */
module Model {

  datatype Option<+T> = None | Some(value: T)

  /** A connection's player record `{roomId?, serverId, clientId?, id}`: `roomId` is set by `join`,
      `clientId` by the `id` event, `serverId` is the process identity and `id` the socket id. */
  datatype Player = Player(roomId: Option<string>, serverId: string, clientId: Option<int>, id: string)
}

/** Values a client sends with an event: the handlers receive untyped JavaScript values and
    validate them with `typeof` and truthiness tests. Numbers are restricted to integers. */
module JsValue {
  import opened Model

  datatype Value =
    | Undefined
    | Null
    | Bool(b: bool)
    | Num(n: int)
    | Str(s: string)
    | Arr(items: seq<Value>)
    | Obj(fields: map<string, Value>)

  /** The `typeof` operator; note that `typeof null` is "object". */
  function TypeOf(v: Value): (t: string)
    ensures t == "object" <==> v.Null? || v.Arr? || v.Obj?
    ensures t == "string" <==> v.Str?
    ensures t == "number" <==> v.Num?
  {
    match v
    case Undefined => "undefined"
    case Null => "object"
    case Bool(_) => "boolean"
    case Num(_) => "number"
    case Str(_) => "string"
    case Arr(_) => "object"
    case Obj(_) => "object"
  }

  /** JavaScript truthiness: `undefined`, `null`, `false`, `0` and `""` are falsy. */
  predicate Truthy(v: Value)
    ensures Truthy(v) <==> v !in {Undefined, Null, Bool(false), Num(0), Str("")}
  {
    match v
    case Undefined => false
    case Null => false
    case Bool(b) => b
    case Num(n) => n != 0
    case Str(s) => s != ""
    case Arr(_) => true
    case Obj(_) => true
  }

  /** Property access `v.key` for a key that no built-in prototype defines (such as `data` or `to`):
      `None` when the access throws a TypeError (on `undefined` and `null`), `undefined` when the
      property is missing. */
  function Member(v: Value, key: string): (r: Option<Value>)
    ensures r.None? <==> v.Undefined? || v.Null?
    ensures v.Obj? && key in v.fields ==> r == Some(v.fields[key])
    ensures v.Obj? && key !in v.fields ==> r == Some(Undefined)
  {
    match v
    case Undefined => None
    case Null => None
    case Obj(fields) => Some(if key in fields then fields[key] else Undefined)
    case _ => Some(Undefined)
  }
}
