/** What `normalize` returns for each kind of value: scalars pass through,
    every other kind is claimed by exactly one strategy. */
module Dispatch {
  import opened PhpArray
  import opened Values
  import opened Normalizer

  /** The values `normalize` hands back as they are. */
  predicate PassesThrough(v: Value) {
    v.Null? || v.Bool? || v.Int? || v.Str? || (v.Float? && v.f.Finite?)
  }

  /** `n` is the same PHP scalar as `v`. */
  ghost predicate SameScalar(v: Value, n: Norm) {
    match v
    case Null => n == NNull
    case Bool(b) => n == NBool(b)
    case Int(i) => n == NInt(i)
    case Float(f) => f.Finite? && n == NFloat(f.x)
    case Str(s) => n == NStr(s)
    case _ => false
  }

  /** Null, booleans, integers, strings and finite floats come back unchanged,
      at any depth. */
  lemma ScalarsUnchanged(cfg: Config, v: Value, depth: int)
    requires PassesThrough(v)
    ensures SameScalar(v, Normalize(cfg, v, depth))
  {
  }

  /** NaN becomes "NaN"; either infinity becomes "INF". */
  lemma NonFiniteFloats(cfg: Config, depth: int)
    ensures Normalize(cfg, Float(NaN), depth) == NStr("NaN")
    ensures Normalize(cfg, Float(PosInf), depth) == NStr("INF")
    ensures Normalize(cfg, Float(NegInf), depth) == NStr("INF")
  {
  }

  /** Negative infinity loses its sign: it normalises exactly as positive
      infinity does, although the float strategy has a branch meant to
      prefix '-'. */
  lemma NegativeInfinityLosesSign(cfg: Config, depth: int)
    ensures Normalize(cfg, Float(NegInf), depth) == Normalize(cfg, Float(PosInf), depth)
    ensures Normalize(cfg, Float(NegInf), depth) != NStr("-INF")
  {
  }

  /** How many strategies claim `v` (the scalar filter counted as one). */
  function Claims(cfg: Config, v: Value, depth: int): nat {
    (if NormalizeScalar(v).Some? then 1 else 0)
    + (if NormalizeTraversable(cfg, v, depth).Some? then 1 else 0)
    + (if NormalizeDate(cfg, v).Some? then 1 else 0)
    + (if NormalizeObject(cfg, v, depth).Some? then 1 else 0)
    + (if NormalizeResource(v).Some? then 1 else 0)
  }

  /** Each kind is claimed by one strategy at most, and only the fall-through
      kind by none; so the first claim is the only one. */
  lemma OneClaimEach(cfg: Config, v: Value, depth: int)
    ensures Claims(cfg, v, depth) <= 1
    ensures Claims(cfg, v, depth) == 0 <==> v.Other?
  {
  }

  /** The non-traversable, non-object kinds: a date is formatted with the
      configured pattern, a resource becomes its marker, anything left over
      becomes `[unknown(<gettype>)]`; an exception is expanded whatever the
      depth. */
  lemma TerminalKinds(cfg: Config, v: Value, depth: int)
    ensures v.Date? ==> Normalize(cfg, v, depth) == NStr(v.format(cfg.dateFormat))
    ensures v.Resource? ==> Normalize(cfg, v, depth) == NStr("[resource] " + Prefix(v.id, 40))
    ensures v.Other? ==> Normalize(cfg, v, depth) == NStr("[unknown(" + v.typeName + ")]")
    ensures v.Exc? ==> Normalize(cfg, v, depth) == NormalizeException(v.e)
  {
  }

  /** A plain object becomes `[marker, fields]`, the fields being the
      normalised property array one level deeper while `depth` is below the
      limit, and the untouched object from the limit on. */
  lemma ObjectShape(cfg: Config, cls: string, props: seq<(Key, Value)>, depth: int)
    ensures Normalize(cfg, Obj(cls, props), depth)
         == NList([ NStr("[object] (" + cls + ")"),
                    if depth < cfg.maxObjectDepth then Normalize(cfg, Arr(props), depth + 1)
                    else Raw(Obj(cls, props)) ])
  {
  }

  /** The resource marker: the fixed prefix and at most 40 characters of the
      handle's text, so at most 51 characters; a text of 40 characters or
      fewer is kept whole. */
  lemma ResourceMarker(id: string)
    ensures var r := NormalizeResource(Resource(id));
            && r.Some? && r.value.NStr?
            && |r.value.s| <= 51
            && r.value.s[..11] == "[resource] "
            && (|id| <= 40 ==> r.value.s[11..] == id)
            && (|id| > 40 ==> r.value.s[11..] == id[..40])
  {
  }

  /** The result of `normalize` is never a raw value: raw values only occur
      as the fields of an object. */
  lemma NeverRawAtTop(cfg: Config, v: Value, depth: int)
    ensures !Normalize(cfg, v, depth).Raw?
  {
  }
}
