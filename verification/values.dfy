/**
 * JSON-like values as the service passes them around: database rows,
 * request bodies and the records built from them, and the mutable Python
 * dict that request handlers update in place.
 */
module Values {

  datatype Value =
    | VNone
    | VBool(b: bool)
    | VInt(i: int)
    | VReal(r: real)
    | VStr(s: string)
    | VList(items: seq<Value>)
    | VDict(fields: map<string, Value>)

  /** A Python `dict` with string keys, shared by reference and changed in place. */
  class Dict {
    var items: map<string, Value>

    constructor(items: map<string, Value>)
      ensures this.items == items
    {
      this.items := items;
    }

    /** `d.pop(key, None)`: removes `key` if present. */
    method Pop(key: string)
      modifies this
      ensures items == old(items) - {key}
    {
      items := items - {key};
    }

    /** `d[key] = value`. */
    method Set(key: string, value: Value)
      modifies this
      ensures items == old(items)[key := value]
    {
      items := items[key := value];
    }
  }
}
