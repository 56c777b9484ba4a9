/** The values the normaliser accepts and the trees it produces. PHP decides
    the kind of a value at run time with `is_scalar`, `instanceof` and
    friends; here each kind is a constructor, listed in the order in which the
    normaliser's strategies claim them. */
module Values {
  import opened Wrappers
  import opened PhpArray

  /** A PHP float, reduced to what the normaliser distinguishes. */
  datatype FloatVal = Finite(x: real) | PosInf | NegInf | NaN

  /** A `\Exception` as seen through its getters: `get_class`, `getMessage`,
      `getCode`, `getFile`, `getLine`, `getTraceAsString`, `getPrevious`. */
  datatype Exception = Exception(
    cls: string,
    message: string,
    code: int,
    file: string,
    line: int,
    trace: string,
    previous: Option<Exception>)

  datatype Value =
    | Null
    | Bool(b: bool)
    | Int(i: int)
    | Float(f: FloatVal)
    | Str(s: string)
      /** A PHP array: its entries in iteration order. */
    | Arr(entries: seq<(Key, Value)>)
      /** Any object implementing `\Traversable`, whatever else it is: the
          pairs its iteration yields (keys may repeat). */
    | TraversableObj(cls: string, entries: seq<(Key, Value)>)
      /** An instance of `\DateTime` (or a subclass) that is not traversable;
          `format` is its `DateTime::format` method. */
    | Date(cls: string, format: string -> string)
      /** An instance of `\Exception`. */
    | Exc(e: Exception)
      /** Any other object (including `\Error` and `\DateTimeImmutable`), with
          the property array that `(new \ArrayObject($obj))->getArrayCopy()`
          returns for it. */
    | Obj(cls: string, props: seq<(Key, Value)>)
      /** An open resource; `id` is its string cast, e.g. "Resource id #5". */
    | Resource(id: string)
      /** Anything no strategy claims (in practice a closed resource), with the
          name `gettype` gives it. */
    | Other(typeName: string)

  /** A normalised tree. `NList` is a PHP list (keys 0, 1, ...), `NAssoc` a
      keyed array; `Raw` is a value handed back without normalisation. */
  datatype Norm =
    | NNull
    | NBool(b: bool)
    | NInt(i: int)
    | NFloat(x: real)
    | NStr(s: string)
    | NList(items: seq<Norm>)
    | NAssoc(entries: seq<(Key, Norm)>)
    | Raw(v: Value)

  /** PHP's `gettype`. */
  function TypeName(v: Value): string {
    match v
    case Null => "NULL"
    case Bool(_) => "boolean"
    case Int(_) => "integer"
    case Float(_) => "double"
    case Str(_) => "string"
    case Arr(_) => "array"
    case TraversableObj(_, _) => "object"
    case Date(_, _) => "object"
    case Exc(_) => "object"
    case Obj(_, _) => "object"
    case Resource(_) => "resource"
    case Other(t) => t
  }
}
