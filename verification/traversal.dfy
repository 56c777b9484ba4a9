/** What `normalizeTraversableElement` builds, stated in closed form: the
    first `Kept` entries, each normalised at the caller's depth and assigned
    in order, then the `"..."` sentinel when entries were left over. */
module Traversal {
  import opened Wrappers
  import opened PhpArray
  import opened Values
  import opened Normalizer

  /** How many entries of an `n`-entry array are normalised: the loop stops
      as soon as its counter, which starts at 1, reaches `maxArrayItems`. */
  function Kept(maxArrayItems: int, n: nat): (k: nat)
    ensures k <= n
  {
    if maxArrayItems <= 1 then 0
    else if n < maxArrayItems - 1 then n
    else maxArrayItems - 1
  }

  /** True when the loop breaks before the end and appends the sentinel. */
  predicate Truncated(maxArrayItems: int, n: nat) {
    Kept(maxArrayItems, n) < n
  }

  /** The sentinel is due exactly when there are at least `maxArrayItems`
      entries (at least one when the limit is not positive). */
  lemma TruncatedExactly(maxArrayItems: int, n: nat)
    ensures maxArrayItems >= 1 ==> (Truncated(maxArrayItems, n) <==> n >= maxArrayItems)
    ensures maxArrayItems < 1 ==> (Truncated(maxArrayItems, n) <==> n >= 1)
  {
  }

  /** Each entry with its value normalised at `depth`, key unchanged. */
  function NormalizeEach(cfg: Config, es: seq<(Key, Value)>, depth: int): (r: seq<(Key, Norm)>)
    ensures |r| == |es|
    ensures forall j :: 0 <= j < |es| ==> r[j].0 == es[j].0
  {
    seq(|es|, j requires 0 <= j < |es| => (es[j].0, Normalize(cfg, es[j].1, depth)))
  }

  /** The sentinel entry `'...' => 'Over N items, aborting normalization'`. */
  function SentinelEntry(maxArrayItems: int): (Key, Norm) {
    (DotsKey, NStr(Sentinel(maxArrayItems)))
  }

  /** Closes the array: assigns the sentinel when entries were dropped. */
  function Close(cfg: Config, n: nat, body: seq<(Key, Norm)>): seq<(Key, Norm)> {
    if Truncated(cfg.maxArrayItems, n) then Put(body, DotsKey, SentinelEntry(cfg.maxArrayItems).1) else body
  }

  /** The reference result for an array with entries `es`. */
  function ReferenceEntries(cfg: Config, es: seq<(Key, Value)>, depth: int): seq<(Key, Norm)> {
    var k := Kept(cfg.maxArrayItems, |es|);
    Close(cfg, |es|, PutAll([], NormalizeEach(cfg, es[..k], depth)))
  }

  lemma {:induction false} PutAllSnoc<V>(a: Assoc<V>, pairs: Assoc<V>, x: (Key, V))
    ensures PutAll(a, pairs + [x]) == Put(PutAll(a, pairs), x.0, x.1)
    decreases |pairs|
  {
    if |pairs| == 0 {
      assert pairs + [x] == [x];
    } else {
      assert (pairs + [x])[1..] == pairs[1..] + [x];
      PutAllSnoc(Put(a, pairs[0].0, pairs[0].1), pairs[1..], x);
    }
  }

  /** From entry `i` on, the recursive walk finishes what the reference
      result still has to do. */
  lemma {:induction false} WalkFinishes(cfg: Config, es: seq<(Key, Value)>, depth: int, i: nat, acc: seq<(Key, Norm)>)
    requires i <= Kept(cfg.maxArrayItems, |es|)
    ensures NormalizeEntries(cfg, es, depth, i, acc)
         == Close(cfg, |es|, PutAll(acc, NormalizeEach(cfg, es[i..Kept(cfg.maxArrayItems, |es|)], depth)))
    decreases |es| - i
  {
    var k := Kept(cfg.maxArrayItems, |es|);
    if i == k {
      assert NormalizeEach(cfg, es[i..k], depth) == [];
    } else {
      var tail := NormalizeEach(cfg, es[i..k], depth);
      assert tail[0] == (es[i].0, Normalize(cfg, es[i].1, depth));
      assert tail[1..] == NormalizeEach(cfg, es[i + 1..k], depth);
      WalkFinishes(cfg, es, depth, i + 1, Put(acc, es[i].0, Normalize(cfg, es[i].1, depth)));
    }
  }

  /** `normalize` of an array or traversable object is the reference result:
      the walk keeps exactly `Kept` entries, at the same depth. */
  lemma TraversableMatchesReference(cfg: Config, v: Value, depth: int)
    requires v.Arr? || v.TraversableObj?
    ensures Normalize(cfg, v, depth) == NAssoc(ReferenceEntries(cfg, v.entries, depth))
  {
    WalkFinishes(cfg, v.entries, depth, 0, []);
    assert v.entries[0..Kept(cfg.maxArrayItems, |v.entries|)] == v.entries[..Kept(cfg.maxArrayItems, |v.entries|)];
  }

  /** No key repeats and none is `"..."`. */
  predicate PlainKeys(es: seq<(Key, Value)>) {
    && (forall i, j :: 0 <= i < j < |es| ==> es[i].0 != es[j].0)
    && (forall i :: 0 <= i < |es| ==> es[i].0 != DotsKey)
  }

  /** With plain keys the result is the kept prefix, in input order with its
      own keys, each value normalised at the same depth, followed by the
      sentinel exactly when entries were dropped. */
  lemma PlainShape(cfg: Config, es: seq<(Key, Value)>, depth: int)
    requires PlainKeys(es[..Kept(cfg.maxArrayItems, |es|)])
    ensures var k := Kept(cfg.maxArrayItems, |es|);
            ReferenceEntries(cfg, es, depth)
            == NormalizeEach(cfg, es[..k], depth)
               + (if Truncated(cfg.maxArrayItems, |es|) then [SentinelEntry(cfg.maxArrayItems)] else [])
  {
    var k := Kept(cfg.maxArrayItems, |es|);
    var body := NormalizeEach(cfg, es[..k], depth);
    assert DistinctKeys([] + body) by {
      assert [] + body == body;
    }
    PutAllDistinct([], body);
    assert PutAll([], body) == body;
    assert !HasKey(body, DotsKey);
  }

  /** The cap: never more entries than the input has, and never more than
      `maxArrayItems` of them (one, the sentinel, when the limit is not
      positive). An empty input gives an empty array. */
  lemma EntriesBounded(cfg: Config, es: seq<(Key, Value)>, depth: int)
    ensures |ReferenceEntries(cfg, es, depth)| <= |es|
    ensures |ReferenceEntries(cfg, es, depth)| <= if cfg.maxArrayItems >= 1 then cfg.maxArrayItems else 1
    ensures |es| == 0 ==> ReferenceEntries(cfg, es, depth) == []
  {
  }

  /** When entries were dropped the sentinel is in the result under `"..."`;
      when none were and no kept key is `"..."`, there is no such key. */
  lemma SentinelExactly(cfg: Config, es: seq<(Key, Value)>, depth: int)
    ensures Truncated(cfg.maxArrayItems, |es|)
            ==> Lookup(ReferenceEntries(cfg, es, depth), DotsKey) == Some(NStr(Sentinel(cfg.maxArrayItems)))
    ensures !Truncated(cfg.maxArrayItems, |es|) && PlainKeys(es)
            ==> Lookup(ReferenceEntries(cfg, es, depth), DotsKey) == None
  {
    if !Truncated(cfg.maxArrayItems, |es|) && PlainKeys(es) {
      PlainShape(cfg, es, depth);
      var r := ReferenceEntries(cfg, es, depth);
      assert !HasKey(r, DotsKey);
    }
  }

  /** One more kept entry is one more assignment. */
  lemma KeepOne(cfg: Config, es: seq<(Key, Value)>, depth: int, i: nat)
    requires i < |es|
    ensures PutAll([], NormalizeEach(cfg, es[..i + 1], depth))
         == Put(PutAll([], NormalizeEach(cfg, es[..i], depth)), es[i].0, Normalize(cfg, es[i].1, depth))
  {
    PutAllSnoc([], NormalizeEach(cfg, es[..i], depth), (es[i].0, Normalize(cfg, es[i].1, depth)));
    assert NormalizeEach(cfg, es[..i + 1], depth)
        == NormalizeEach(cfg, es[..i], depth) + [(es[i].0, Normalize(cfg, es[i].1, depth))];
  }

  /** Leaving the loop, by `break` at entry `i` or by running out of entries,
      yields the reference result. */
  lemma LoopExit(cfg: Config, es: seq<(Key, Value)>, depth: int, i: nat, broke: bool)
    requires i <= Kept(cfg.maxArrayItems, |es|)
    requires broke ==> i < |es| && i + 1 >= cfg.maxArrayItems
    requires !broke ==> i == |es|
    ensures (var body := PutAll([], NormalizeEach(cfg, es[..i], depth));
             if broke then Put(body, DotsKey, NStr(Sentinel(cfg.maxArrayItems))) else body)
         == ReferenceEntries(cfg, es, depth)
  {
    assert i == Kept(cfg.maxArrayItems, |es|);
  }

  /** The `foreach` of `normalizeTraversableElement` as written, with its
      `$count`; its `break` is the early `return`. */
  method NormalizeTraversableElement(cfg: Config, es: seq<(Key, Value)>, depth: int)
    returns (normalized: seq<(Key, Norm)>)
    ensures normalized == ReferenceEntries(cfg, es, depth)
  {
    var maxArrayItems := cfg.maxArrayItems;
    var count := 1;
    normalized := [];
    var i := 0;
    while i < |es|
      invariant 0 <= i <= Kept(maxArrayItems, |es|)
      invariant count == i + 1
      invariant normalized == PutAll([], NormalizeEach(cfg, es[..i], depth))
    {
      if count >= maxArrayItems {
        normalized := Put(normalized, DotsKey, NStr(Sentinel(maxArrayItems)));
        LoopExit(cfg, es, depth, i, true);
        return;
      }
      count := count + 1;
      KeepOne(cfg, es, depth, i);
      normalized := Put(normalized, es[i].0, Normalize(cfg, es[i].1, depth));
      i := i + 1;
    }
    LoopExit(cfg, es, depth, i, false);
  }
}
