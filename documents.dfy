/** Field values of the announcement documents, as the router sees them:
    JSON request bodies decoded to Python values, and BSON documents read back
    from the collection. Only the distinctions the router's code depends on are
    kept: strings (dates are ISO-8601 strings), null, the store's generated
    ObjectId, and every other value, described by its `str()` text and its
    Python truthiness.
 */
module Documents {

  datatype Value =
    | Str(s: string)
    | Null
    | ObjectId(hex: string)
    | Other(text: string, truthy: bool)

  /** A document, or a request body: field name to value. */
  type Doc = map<string, Value>

  /** Python truthiness: the empty string and `None` are false, an ObjectId is
      an ordinary object and so true; other values carry their own. */
  predicate Truthy(v: Value) {
    match v
    case Str(s) => s != ""
    case Null => false
    case ObjectId(_) => true
    case Other(_, t) => t
  }

  /** Python's `str(v)`. */
  function Text(v: Value): string {
    match v
    case Str(s) => s
    case Null => "None"
    case ObjectId(h) => h
    case Other(t, _) => t
  }

  /** Python's `d.get(key, default)`. */
  function Get(d: Doc, key: string, default: Value): Value {
    if key in d then d[key] else default
  }
}
