/** PHP arrays as ordered association lists. Writing `$a[$k] = $v` replaces
    the value in place when `$k` is already a key and appends otherwise;
    iteration follows insertion order. */
module PhpArray {
  import opened Wrappers

  /** A PHP array key, assumed canonical: a decimal-integer string key is
      represented as `IntKey`, as PHP itself stores it. */
  datatype Key = IntKey(i: int) | StrKey(s: string)

  type Assoc<V> = seq<(Key, V)>

  predicate HasKey<V>(a: Assoc<V>, k: Key) {
    exists i :: 0 <= i < |a| && a[i].0 == k
  }

  predicate DistinctKeys<V>(a: Assoc<V>) {
    forall i, j :: 0 <= i < j < |a| ==> a[i].0 != a[j].0
  }

  /** Position of key `k`, if present. */
  function IndexOf<V>(a: Assoc<V>, k: Key): (r: Option<nat>)
    ensures r.Some? ==> r.value < |a| && a[r.value].0 == k
    ensures r.Some? ==> forall j :: 0 <= j < r.value ==> a[j].0 != k
    ensures r.None? <==> !HasKey(a, k)
  {
    if |a| == 0 then None
    else if a[0].0 == k then Some(0)
    else match IndexOf(a[1..], k)
      case None => (assert forall j :: 1 <= j < |a| ==> a[j] == a[1..][j - 1]; None)
      case Some(i) => Some(i + 1)
  }

  /** `$a[$k]` when `$k` is present. */
  function Lookup<V>(a: Assoc<V>, k: Key): Option<V> {
    match IndexOf(a, k)
    case None => None
    case Some(i) => Some(a[i].1)
  }

  /** The first position holding `k` is the one `IndexOf` finds. */
  lemma {:induction false} IndexOfFirst<V>(a: Assoc<V>, k: Key, i: nat)
    requires i < |a| && a[i].0 == k
    requires forall j :: 0 <= j < i ==> a[j].0 != k
    ensures IndexOf(a, k) == Some(i)
    decreases i
  {
    if i > 0 {
      assert a[1..][i - 1] == a[i];
      assert forall j :: 0 <= j < i - 1 ==> a[1..][j] == a[j + 1];
      IndexOfFirst(a[1..], k, i - 1);
    }
  }

  /** `$a[$k] = $v`. */
  function Put<V>(a: Assoc<V>, k: Key, v: V): (r: Assoc<V>)
    ensures Lookup(r, k) == Some(v)
    ensures forall k' :: k' != k ==> Lookup(r, k') == Lookup(a, k')
    ensures HasKey(a, k) ==> |r| == |a| && forall i :: 0 <= i < |a| ==> r[i].0 == a[i].0
    ensures !HasKey(a, k) ==> r == a + [(k, v)]
  {
    match IndexOf(a, k)
    case Some(i) =>
      var r := a[i := (k, v)];
      IndexOfFirst(r, k, i);
      LookupOtherKey(a, i, k, v);
      r
    case None =>
      var r := a + [(k, v)];
      IndexOfFirst(r, k, |a|);
      LookupAfterAppend(a, k, v);
      r
  }

  lemma LookupAppendOne<V>(a: Assoc<V>, k: Key, v: V, k': Key)
    requires k' != k
    ensures Lookup(a + [(k, v)], k') == Lookup(a, k')
  {
    var r := a + [(k, v)];
    match IndexOf(a, k')
    case None =>
      assert !HasKey(r, k');
    case Some(i) =>
      IndexOfFirst(r, k', i);
  }

  lemma LookupAfterAppend<V>(a: Assoc<V>, k: Key, v: V)
    ensures forall k' :: k' != k ==> Lookup(a + [(k, v)], k') == Lookup(a, k')
  {
    forall k' | k' != k
      ensures Lookup(a + [(k, v)], k') == Lookup(a, k')
    {
      LookupAppendOne(a, k, v, k');
    }
  }

  lemma LookupOtherKey<V>(a: Assoc<V>, i: nat, k: Key, v: V)
    requires i < |a| && a[i].0 == k
    ensures forall k' :: k' != k ==> Lookup(a[i := (k, v)], k') == Lookup(a, k')
  {
    var r := a[i := (k, v)];
    forall k' | k' != k
      ensures Lookup(r, k') == Lookup(a, k')
    {
      match IndexOf(a, k')
      case None =>
        assert !HasKey(r, k');
      case Some(m) =>
        IndexOfFirst(r, k', m);
    }
  }

  /** Assigning each pair in turn, as a `foreach` filling an array does. */
  function PutAll<V>(a: Assoc<V>, pairs: Assoc<V>): (r: Assoc<V>)
    ensures |r| <= |a| + |pairs|
    decreases |pairs|
  {
    if |pairs| == 0 then a else PutAll(Put(a, pairs[0].0, pairs[0].1), pairs[1..])
  }

  /** On fresh, pairwise distinct keys every assignment appends. */
  lemma {:induction false} PutAllDistinct<V>(a: Assoc<V>, pairs: Assoc<V>)
    requires DistinctKeys(a + pairs)
    ensures PutAll(a, pairs) == a + pairs
    decreases |pairs|
  {
    if |pairs| > 0 {
      var k := pairs[0].0;
      assert (a + pairs)[|a|].0 == k;
      assert !HasKey(a, k) by {
        forall i | 0 <= i < |a| ensures a[i].0 != k {
          assert (a + pairs)[i] == a[i];
        }
      }
      var a' := Put(a, k, pairs[0].1);
      assert a' == a + [pairs[0]];
      assert a' + pairs[1..] == a + pairs;
      PutAllDistinct(a', pairs[1..]);
    }
  }
}
