/** The object-depth cap, stated twice: on the tree `normalize` returns
    (`Capped`: how many object levels have normalised fields before the
    fields are handed back raw), and on the calls `normalize` makes on its
    own behalf (`DeepestCall`: one per kept array entry at the same depth, one
    on an object's property array at `depth + 1`). */
module Depth {
  import opened PhpArray
  import opened Values
  import opened Normalizer
  import opened Traversal

  function Max(a: int, b: int): int {
    if a < b then b else a
  }

  /** The deepest `normalize` call in the run of `normalize(v, depth)`,
      that call included. */
  ghost function DeepestCall(cfg: Config, v: Value, depth: int): int
    decreases v, 1
  {
    match v
    case Arr(es) => DeepestIn(cfg, es, depth, 0)
    case TraversableObj(_, es) => DeepestIn(cfg, es, depth, 0)
    case Obj(_, props) =>
      if depth < cfg.maxObjectDepth then Max(depth, DeepestIn(cfg, props, depth + 1, 0)) else depth
    case _ => depth
  }

  /** The deepest call made for the kept entries from `i` on of an array
      normalised at `depth`, or `depth` when there are none. */
  ghost function DeepestIn(cfg: Config, es: seq<(Key, Value)>, depth: int, i: nat): int
    decreases es, |es| - i
  {
    if i >= Kept(cfg.maxArrayItems, |es|) then depth
    else
      var (_, value) := es[i];
      assert value < es[i];
      Max(DeepestCall(cfg, value, depth), DeepestIn(cfg, es, depth, i + 1))
  }

  /** No call goes deeper than the larger of the starting depth and
      `maxObjectDepth`. */
  lemma {:induction false} CallDepthBounded(cfg: Config, v: Value, depth: int)
    ensures depth <= DeepestCall(cfg, v, depth) <= Max(depth, cfg.maxObjectDepth)
    decreases v, 1
  {
    match v
    case Arr(es) => EntriesDepthBounded(cfg, es, depth, 0);
    case TraversableObj(_, es) => EntriesDepthBounded(cfg, es, depth, 0);
    case Obj(_, props) =>
      if depth < cfg.maxObjectDepth {
        EntriesDepthBounded(cfg, props, depth + 1, 0);
      }
    case _ =>
  }

  lemma {:induction false} EntriesDepthBounded(cfg: Config, es: seq<(Key, Value)>, depth: int, i: nat)
    ensures depth <= DeepestIn(cfg, es, depth, i) <= Max(depth, cfg.maxObjectDepth)
    decreases es, |es| - i
  {
    if i < Kept(cfg.maxArrayItems, |es|) {
      var (_, value) := es[i];
      assert value < es[i];
      CallDepthBounded(cfg, value, depth);
      EntriesDepthBounded(cfg, es, depth, i + 1);
    }
  }

  /** The pair `[marker, fields]` that an object normalises to. */
  predicate IsObjectPair(items: seq<Norm>) {
    |items| == 2 && items[0].NStr? && (items[1].NAssoc? || items[1].Raw?)
  }

  /** `n` has at most `b` object levels with normalised fields: an object's
      fields are a normalised array, one level further down, while `b` is
      positive and are the raw object exactly when `b` is 0; arrays and lists
      pass `b` on to their elements unchanged. */
  ghost predicate Capped(n: Norm, b: int)
    decreases n, 1
  {
    match n
    case NList(items) =>
      if IsObjectPair(items) then
        var fields := items[1];
        assert fields < n;
        if fields.Raw? then b == 0
        else b >= 1 && CappedEntries(fields.entries, b - 1, 0)
      else CappedItems(items, b, 0)
    case NAssoc(es) => CappedEntries(es, b, 0)
    case Raw(_) => false
    case _ => true
  }

  ghost predicate CappedItems(items: seq<Norm>, b: int, i: nat)
    decreases items, |items| - i
  {
    i >= |items| || (Capped(items[i], b) && CappedItems(items, b, i + 1))
  }

  ghost predicate CappedEntries(es: seq<(Key, Norm)>, b: int, i: nat)
    decreases es, |es| - i
  {
    if i >= |es| then true
    else
      var (_, x) := es[i];
      assert x < es[i];
      Capped(x, b) && CappedEntries(es, b, i + 1)
  }

  lemma {:induction false} CappedEntriesAll(es: seq<(Key, Norm)>, b: int, i: nat)
    ensures CappedEntries(es, b, i) <==> forall j :: i <= j < |es| ==> Capped(es[j].1, b)
    decreases |es| - i
  {
    if i < |es| {
      CappedEntriesAll(es, b, i + 1);
    }
  }

  /** Un-normalised values occur in `n` only as the fields of an object
      pair, never as `n` itself nor as any other element. */
  ghost predicate RawOnlyAsFields(n: Norm)
    decreases n, 1
  {
    match n
    case NList(items) =>
      if IsObjectPair(items) then
        var fields := items[1];
        assert fields < n;
        fields.Raw? || RawOnlyInEntries(fields.entries, 0)
      else RawOnlyInItems(items, 0)
    case NAssoc(es) => RawOnlyInEntries(es, 0)
    case Raw(_) => false
    case _ => true
  }

  ghost predicate RawOnlyInItems(items: seq<Norm>, i: nat)
    decreases items, |items| - i
  {
    i >= |items| || (RawOnlyAsFields(items[i]) && RawOnlyInItems(items, i + 1))
  }

  ghost predicate RawOnlyInEntries(es: seq<(Key, Norm)>, i: nat)
    decreases es, |es| - i
  {
    if i >= |es| then true
    else
      var (_, x) := es[i];
      assert x < es[i];
      RawOnlyAsFields(x) && RawOnlyInEntries(es, i + 1)
  }

  /** A capped tree holds raw values only as object fields, whatever the cap. */
  lemma {:induction false} CappedRawOnlyAsFields(n: Norm, b: int)
    requires Capped(n, b)
    ensures RawOnlyAsFields(n)
    decreases n, 1
  {
    match n
    case NList(items) =>
      if IsObjectPair(items) {
        var fields := items[1];
        assert fields < n;
        if !fields.Raw? {
          CappedEntriesRawOnly(fields.entries, b - 1, 0);
        }
      } else {
        CappedItemsRawOnly(items, b, 0);
      }
    case NAssoc(es) => CappedEntriesRawOnly(es, b, 0);
    case _ =>
  }

  lemma {:induction false} CappedItemsRawOnly(items: seq<Norm>, b: int, i: nat)
    requires CappedItems(items, b, i)
    ensures RawOnlyInItems(items, i)
    decreases items, |items| - i
  {
    if i < |items| {
      CappedRawOnlyAsFields(items[i], b);
      CappedItemsRawOnly(items, b, i + 1);
    }
  }

  lemma {:induction false} CappedEntriesRawOnly(es: seq<(Key, Norm)>, b: int, i: nat)
    requires CappedEntries(es, b, i)
    ensures RawOnlyInEntries(es, i)
    decreases es, |es| - i
  {
    if i < |es| {
      var (_, x) := es[i];
      assert x < es[i];
      CappedRawOnlyAsFields(x, b);
      CappedEntriesRawOnly(es, b, i + 1);
    }
  }

  /** An assignment of a capped value keeps an array capped. */
  lemma PutCapped(a: seq<(Key, Norm)>, k: Key, x: Norm, b: int)
    requires CappedEntries(a, b, 0) && Capped(x, b)
    ensures CappedEntries(Put(a, k, x), b, 0)
  {
    CappedEntriesAll(a, b, 0);
    CappedEntriesAll(Put(a, k, x), b, 0);
  }

  /** Exceptions hold no objects, whatever the chain. */
  lemma {:induction false} ExcCapped(e: Exception, b: int)
    requires b >= 0
    ensures Capped(NormalizeException(e), b)
    decreases e
  {
    var head := ExceptionHead(e);
    assert Capped(head[4].1, b) by {
      assert !IsObjectPair(head[4].1.items);
    }
    match e.previous
    case None =>
      CappedEntriesAll(head, b, 0);
    case Some(p) =>
      ExcCapped(p, b);
      var es := head + [(StrKey("previous"), NormalizeException(p))];
      CappedEntriesAll(es, b, 0);
  }

  /** The result of `normalize(v, depth)` is capped at the levels left
      before `maxObjectDepth`: objects met while fewer than
      `maxObjectDepth - depth` object levels have been descended have their
      fields normalised, the next ones are handed back raw. */
  lemma {:induction false} NormalizeCapped(cfg: Config, v: Value, depth: int)
    ensures Capped(Normalize(cfg, v, depth), Max(0, cfg.maxObjectDepth - depth))
    decreases v, 1
  {
    var b := Max(0, cfg.maxObjectDepth - depth);
    match v
    case Arr(es) => EntriesCapped(cfg, es, depth, 0, []);
    case TraversableObj(_, es) => EntriesCapped(cfg, es, depth, 0, []);
    case Exc(e) => ExcCapped(e, b);
    case Obj(cls, props) =>
      if depth < cfg.maxObjectDepth {
        EntriesCapped(cfg, props, depth + 1, 0, []);
      }
    case _ =>
  }

  /** Whatever the value and the depth, `normalize` leaves a value
      un-normalised only as the fields of an object. */
  lemma RawOnlyInFields(cfg: Config, v: Value, depth: int)
    ensures RawOnlyAsFields(Normalize(cfg, v, depth))
  {
    NormalizeCapped(cfg, v, depth);
    CappedRawOnlyAsFields(Normalize(cfg, v, depth), Max(0, cfg.maxObjectDepth - depth));
  }

  /** The walk over an array keeps the array capped at the caller's level. */
  lemma {:induction false} EntriesCapped(cfg: Config, es: seq<(Key, Value)>, depth: int, i: nat, acc: seq<(Key, Norm)>)
    requires i <= |es|
    requires CappedEntries(acc, Max(0, cfg.maxObjectDepth - depth), 0)
    ensures CappedEntries(NormalizeEntries(cfg, es, depth, i, acc), Max(0, cfg.maxObjectDepth - depth), 0)
    decreases es, |es| - i
  {
    var b := Max(0, cfg.maxObjectDepth - depth);
    if i < |es| {
      if i + 1 >= cfg.maxArrayItems {
        PutCapped(acc, DotsKey, NStr(Sentinel(cfg.maxArrayItems)), b);
      } else {
        var (key, value) := es[i];
        assert value < es[i];
        NormalizeCapped(cfg, value, depth);
        PutCapped(acc, key, Normalize(cfg, value, depth), b);
        EntriesCapped(cfg, es, depth, i + 1, Put(acc, key, Normalize(cfg, value, depth)));
      }
    }
  }

  /** From the top-level call: objects have normalised fields through
      `maxObjectDepth` levels and raw fields beyond, and no call receives a
      depth above `maxObjectDepth` (above 0 when the limit is negative). */
  lemma FromRoot(cfg: Config, v: Value)
    ensures Capped(Normalize(cfg, v, 0), Max(0, cfg.maxObjectDepth))
    ensures DeepestCall(cfg, v, 0) <= Max(0, cfg.maxObjectDepth)
  {
    NormalizeCapped(cfg, v, 0);
    CallDepthBounded(cfg, v, 0);
  }
}
