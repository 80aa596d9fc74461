/** Small vocabulary shared by the other modules. */
module Common {

  datatype Option<+T> = None | Some(value: T)

  /** A JSON value as the server handles it. `Undefined` is JavaScript's absent value: a patch that
      carries it erases. An array is a node like an object is: its elements are kept under the
      decimal text of their index, which is the property key JavaScript uses for them. */
  datatype Json =
    | Undefined
    | Null
    | Bool(b: bool)
    | Number(n: real)
    | Text(s: string)
    | Node(isArray: bool, props: map<string, Json>)

  const EMPTY_OBJECT := Node(false, map[])

  /** `if (value)` in JavaScript. */
  predicate Truthy(value: Json) {
    match value
    case Undefined => false
    case Null => false
    case Bool(b) => b
    case Number(n) => n != 0.0
    case Text(s) => s != ""
    case Node(_, _) => true
  }
}
