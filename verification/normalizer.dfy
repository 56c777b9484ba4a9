/** The normaliser: `Normalizer::normalize` and the strategies it tries in
    turn, plus the constructor that fixes the configuration. */
module Normalizer {
  import opened Wrappers
  import opened PhpArray
  import opened Values
  import opened Decimal

  /** The date pattern used when the constructor is given none. */
  const SimpleDate: string := "Y-m-d H:i:s"

  /** The key under which a truncated array records that it was cut. */
  const DotsKey: Key := StrKey("...")

  /** The configuration, fixed at construction. */
  datatype Config = Config(maxObjectDepth: int, maxArrayItems: int, dateFormat: string)

  /** PHP truthiness of the `$dateFormat` argument (`null` or a string). */
  predicate Truthy(s: Option<string>) {
    s.Some? && s.value != "" && s.value != "0"
  }

  /** `new Normalizer($maxObjectDepth, $maxArrayItems, $dateFormat)`. */
  function New(maxObjectDepth: int, maxArrayItems: int, dateFormat: Option<string>): (c: Config)
    ensures c.maxObjectDepth == maxObjectDepth && c.maxArrayItems == maxArrayItems
    ensures Truthy(dateFormat) ==> c.dateFormat == dateFormat.value
    ensures !Truthy(dateFormat) ==> c.dateFormat == "Y-m-d H:i:s"
    ensures Truthy(Some(c.dateFormat))
  {
    Config(maxObjectDepth, maxArrayItems, if Truthy(dateFormat) then dateFormat.value else SimpleDate)
  }

  /** `new Normalizer()`, all arguments defaulted. */
  function Default(): (c: Config)
    ensures c.maxObjectDepth == 2 && c.maxArrayItems == 20 && c.dateFormat == "Y-m-d H:i:s"
  {
    New(2, 20, None)
  }

  /** The value recorded under `"..."` when an array is cut: the text
      between "Over " and " items, aborting normalization" reads back as
      the limit itself. */
  function Sentinel(maxArrayItems: int): (s: string)
    ensures |s| > 35
    ensures s[..5] == "Over " && s[|s| - 30..] == " items, aborting normalization"
    ensures ParseInt(s[5..|s| - 30]) == Some(maxArrayItems)
  {
    var s := "Over " + IntToString(maxArrayItems) + " items, aborting normalization";
    assert s[5..|s| - 30] == IntToString(maxArrayItems);
    IntRoundTrip(maxArrayItems);
    s
  }

  /** `normalizeFloat`. After an infinity has been replaced by the string
      "INF", the sign test `$data < 0` compares that string with 0 and is
      false, so negative infinity also yields "INF". */
  function NormalizeFloat(f: FloatVal): Norm {
    match f
    case Finite(x) => NFloat(x)
    case PosInf => NStr("INF")
    case NegInf => NStr("INF")
    case NaN => NStr("NaN")
  }

  /** `normalizeScalar`: `None` plays the role of the PHP `[]`, which
      tells `normalize` that the value is not a scalar. */
  function NormalizeScalar(v: Value): Option<Norm> {
    match v
    case Null => Some(NNull)
    case Bool(b) => Some(NBool(b))
    case Int(i) => Some(NInt(i))
    case Float(f) => Some(NormalizeFloat(f))
    case Str(s) => Some(NStr(s))
    case _ => None
  }

  /** `normalize($data, $depth)`: the scalar filter, then the strategies in
      the order of its decision table, the first non-null answer winning, then the
      `[unknown(...)]` marker. */
  function Normalize(cfg: Config, v: Value, depth: int): Norm
    decreases v, 1
  {
    match NormalizeScalar(v)
    case Some(n) => n
    case None =>
      var t := NormalizeTraversable(cfg, v, depth);
      if t.Some? then t.value else
      var d := NormalizeDate(cfg, v);
      if d.Some? then d.value else
      var o := NormalizeObject(cfg, v, depth);
      if o.Some? then o.value else
      var r := NormalizeResource(v);
      if r.Some? then r.value else
      NStr("[unknown(" + TypeName(v) + ")]")
  }

  /** `normalizeTraversable`: claims arrays and traversable objects. */
  function NormalizeTraversable(cfg: Config, v: Value, depth: int): Option<Norm>
    decreases v, 0
  {
    match v
    case Arr(es) => Some(NAssoc(NormalizeEntries(cfg, es, depth, 0, [])))
    case TraversableObj(_, es) => Some(NAssoc(NormalizeEntries(cfg, es, depth, 0, [])))
    case _ => None
  }

  /** The `foreach` of `normalizeTraversableElement`, from entry `i` on, with
      `acc` the array built so far. The PHP `$count` is `i + 1`. Values
      are normalised at the caller's depth. */
  function NormalizeEntries(cfg: Config, es: seq<(Key, Value)>, depth: int, i: nat, acc: seq<(Key, Norm)>)
    : seq<(Key, Norm)>
    requires i <= |es|
    decreases es, |es| - i
  {
    if i == |es| then acc
    else if i + 1 >= cfg.maxArrayItems then Put(acc, DotsKey, NStr(Sentinel(cfg.maxArrayItems)))
    else
      var (key, value) := es[i];
      assert value < es[i];
      NormalizeEntries(cfg, es, depth, i + 1, Put(acc, key, Normalize(cfg, value, depth)))
  }

  /** `normalizeDate`. */
  function NormalizeDate(cfg: Config, v: Value): Option<Norm> {
    match v
    case Date(_, format) => Some(NStr(format(cfg.dateFormat)))
    case _ => None
  }

  /** The `[object] (<class>)` marker. */
  function ObjectMarker(cls: string): string {
    "[object] (" + cls + ")"
  }

  /** `normalizeObject`. Exceptions go to `normalizeException` whatever the
      depth. Other objects become `[marker, fields]`: below the depth limit
      the property array is normalised one level deeper (through the
      traversable strategy, as `normalize` of an array goes); at or past the
      limit the object itself is handed back untouched. */
  function NormalizeObject(cfg: Config, v: Value, depth: int): Option<Norm>
    decreases v, 0
  {
    match v
    case Exc(e) => Some(NormalizeException(e))
    case Obj(cls, props) =>
      var fields :=
        if depth < cfg.maxObjectDepth then NAssoc(NormalizeEntries(cfg, props, depth + 1, 0, []))
        else Raw(v);
      Some(NList([NStr(ObjectMarker(cls)), fields]))
    case _ => None
  }

  /** The five keys every normalised exception starts with. */
  function ExceptionHead(e: Exception): seq<(Key, Norm)> {
    [ (StrKey("class"), NStr(e.cls)),
      (StrKey("message"), NStr(e.message)),
      (StrKey("code"), NInt(e.code)),
      (StrKey("file"), NStr(e.file + ":" + IntToString(e.line))),
      (StrKey("trace"), NList([NStr(e.trace)])) ]
  }

  /** `normalizeException`: follows `getPrevious` to the end of the chain. */
  function NormalizeException(e: Exception): Norm
    decreases e
  {
    match e.previous
    case None => NAssoc(ExceptionHead(e))
    case Some(p) => NAssoc(ExceptionHead(e) + [(StrKey("previous"), NormalizeException(p))])
  }

  /** The first `n` characters of `s`, as `substr($s, 0, $n)`. */
  function Prefix(s: string, n: nat): string {
    if |s| <= n then s else s[..n]
  }

  /** `normalizeResource`. */
  function NormalizeResource(v: Value): Option<Norm> {
    match v
    case Resource(id) => Some(NStr("[resource] " + Prefix(id, 40)))
    case _ => None
  }
}
