/** The slice of the Python object world the core looks at: classes with
    their members, functions with their argument lists, and the values that
    flow into handler arguments. */
module Objects {
  import opened Base

  /** Python object identity (`id(o)`). */
  type ObjId = nat

  /** The `context_property` objects of the execution context: `alias(...)`
      and the built-in `entity`, `request` and `uri` properties. */
  datatype ContextProperty =
    | Alias(aliases: seq<string>, default: Option<PyValue>)
    | EntityProperty
    | RequestProperty
    | UriProperty

  /** Python values that can reach a handler argument. */
  datatype PyValue =
    | PyNone
    | PyStr(s: string)
    | PyList(items: seq<string>)
    | PyInstance(host: ObjId)               // the host class's instance
    | PyProperty(prop: ContextProperty)     // an unevaluated context_property
    | PyPropertyValue(prop: ContextProperty) // what an opaque property yields
    | PyObject(id: ObjId)                   // any other object

  /** A class (its `vars()` values in definition order), a plain function
      (its positional argument names and the defaults of the last ones), or
      any other object. */
  datatype PyObj =
    | Class(id: ObjId, members: seq<PyObj>)
    | Function(id: ObjId, args: seq<string>, defaults: seq<PyValue>)
    | Other(id: ObjId)

  /** `isinstance(o, (type, FunctionType))` */
  predicate IsClassOrFunction(o: PyObj) {
    o.Class? || o.Function?
  }

  /** Python truthiness of an argument value; a context_property object is
      always falsy because its class defines `__bool__` to return False. */
  predicate Truthy(v: PyValue) {
    match v
    case PyNone => false
    case PyStr(s) => s != ""
    case PyList(items) => items != []
    case PyProperty(_) => false
    case _ => true
  }
}
