/** The JavaScript values a logging call can be given, and the code the logger calls without
    defining it: the two structured-value serialisers, the `String()` conversion of objects and
    the terminal colouring library. */
module Values {
  import opened Wrappers

  /** An own property of an object: its key and its value. */
  datatype Property = Property(key: string, value: Value)

  /** A JavaScript value, by the kinds the logger tells apart. */
  datatype Value =
    | Str(s: string)                // a string primitive
    | Null
    | Undefined
    | Error(props: seq<Property>)   // an Error: its own properties in `getOwnPropertyNames` order
    | Function
    | Object(props: seq<Property>)  // any other object: an array, a plain object, ...
    | Primitive(text: string)       // a number, boolean or bigint, carried as its `String()` form
    | Symbol(description: string)

  /** The three colours the logger asks for. */
  datatype Colour = Red | Gray | Yellow

  /** The collaborators: `inspect` is Node's `util.inspect`, `safeStringify` is
      `fast-safe-stringify`, `objectText` is `String(x)` of an object or function, and
      `paint` is the colouring library applied to a string. */
  datatype Collaborators = Collaborators(
    inspect: Value -> string,
    safeStringify: Value -> string,
    objectText: Value -> string,
    paint: (Colour, string) -> string)

  /** `String(v)`, as a template literal or `Array.prototype.join` converts a value;
      `None` when the conversion throws, which it does for a Symbol alone. */
  function ToText(c: Collaborators, v: Value): (r: Option<string>)
    ensures r.None? <==> v.Symbol?
    ensures v.Str? ==> r == Some(v.s)
    ensures v.Null? ==> r == Some("null")
    ensures v.Undefined? ==> r == Some("undefined")
  {
    match v
    case Str(s) => Some(s)
    case Null => Some("null")
    case Undefined => Some("undefined")
    case Primitive(t) => Some(t)
    case Symbol(_) => None
    case _ => Some(c.objectText(v))
  }
}
