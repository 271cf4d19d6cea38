// Insertion-ordered grouping of positions by key, the shape of a dictionary filled with `setdefault`:
// keys in order of first appearance, each with its positions in increasing order.
module KeyIndex {
  import opened Basics

  function Add<K(==)>(seen: seq<K>, k: K): seq<K> {
    if k in seen then seen else seen + [k]
  }

  /** The distinct keys, in order of first appearance. */
  function FirstSeen<K(==)>(keys: seq<K>): seq<K> {
    if keys == [] then [] else Add(FirstSeen(keys[..|keys| - 1]), keys[|keys| - 1])
  }

  /** The positions of `k`. */
  function Places<K(==)>(keys: seq<K>, k: K): seq<nat> {
    if keys == [] then []
    else
      var n := |keys| - 1;
      if keys[n] == k then Places(keys[..n], k) + [n] else Places(keys[..n], k)
  }

  lemma {:induction false} FirstSeenIsDistinct<K>(keys: seq<K>)
    ensures forall k :: k in FirstSeen(keys) <==> k in keys
    ensures forall i, j | 0 <= i < j < |FirstSeen(keys)| :: FirstSeen(keys)[i] != FirstSeen(keys)[j]
  {
    if keys != [] {
      FirstSeenIsDistinct(keys[..|keys| - 1]);
      assert keys == keys[..|keys| - 1] + [keys[|keys| - 1]];
    }
  }

  /** `k` stands at some position before which `q` does not. */
  predicate Earlier<K(==)>(keys: seq<K>, k: K, q: K) {
    exists p | 0 <= p < |keys| :: keys[p] == k && q !in keys[..p]
  }

  /** The keys are listed in the order in which they first appear. */
  lemma {:induction false} FirstSeenIsInOrder<K>(keys: seq<K>)
    ensures forall i, j | 0 <= i < j < |FirstSeen(keys)| :: Earlier(keys, FirstSeen(keys)[i], FirstSeen(keys)[j])
  {
    if keys != [] {
      var n := |keys| - 1;
      var init, before, after := keys[..n], FirstSeen(keys[..n]), FirstSeen(keys);
      FirstSeenIsInOrder(init);
      FirstSeenIsDistinct(init);
      assert after == Add(before, keys[n]) && (keys[n] in init <==> keys[n] in before);
      hide FirstSeen, Earlier;
      forall i, j | 0 <= i < j < |after|
        ensures Earlier(keys, after[i], after[j])
      {
        if j < |before| {
          EarlierInPrefix(keys, n, before[i], before[j]);
        } else {
          assert before[i] in before && after[j] == keys[n];
          NewIsLater(keys, n, before[i]);
        }
      }
    }
  }

  lemma EarlierInPrefix<K>(keys: seq<K>, n: nat, k: K, q: K)
    requires n <= |keys| && Earlier(keys[..n], k, q)
    ensures Earlier(keys, k, q)
  {
    var p :| 0 <= p < n && keys[..n][p] == k && q !in keys[..n][..p];
    assert keys[..n][..p] == keys[..p];
  }

  lemma NewIsLater<K>(keys: seq<K>, n: nat, k: K)
    requires n < |keys| && k in keys[..n] && keys[n] !in keys[..n]
    ensures Earlier(keys, k, keys[n])
  {
    var p :| 0 <= p < n && keys[..n][p] == k;
    assert forall i | 0 <= i < p :: keys[..p][i] == keys[..n][i];
  }

  /** The positions listed for a key are all of its positions, increasing. */
  lemma {:induction false} PlacesAreExact<K>(keys: seq<K>, k: K)
    ensures forall i: nat :: i in Places(keys, k) <==> i < |keys| && keys[i] == k
    ensures forall a, b | 0 <= a < b < |Places(keys, k)| :: Places(keys, k)[a] < Places(keys, k)[b]
  {
    if keys != [] {
      var n := |keys| - 1;
      PlacesAreExact(keys[..n], k);
      var before, after := Places(keys[..n], k), Places(keys, k);
      hide Places;
      forall i: nat ensures i in after <==> i < |keys| && keys[i] == k {
        assert i in before <==> i < n && keys[..n][i] == k;
      }
      assert forall a | 0 <= a < |before| :: before[a] in before;
    }
  }

  lemma SeenNext<K>(keys: seq<K>, k: K)
    ensures FirstSeen(keys + [k]) == Add(FirstSeen(keys), k)
  {
    assert (keys + [k])[..|keys|] == keys;
  }

  lemma PlacesNext<K>(keys: seq<K>, k: K, q: K)
    ensures Places(keys + [k], q) == if k == q then Places(keys, q) + [|keys|] else Places(keys, q)
  {
    assert (keys + [k])[..|keys|] == keys;
  }

  function Without<K(==)>(keys: seq<K>, drop: seq<K>): seq<K> {
    if keys == [] then []
    else
      var rest, k := Without(keys[..|keys| - 1], drop), keys[|keys| - 1];
      if k in drop then rest else rest + [k]
  }

  lemma WithoutNext<K>(keys: seq<K>, k: K, drop: seq<K>)
    ensures Without(keys + [k], drop) == if k in drop then Without(keys, drop) else Without(keys, drop) + [k]
  {
    assert (keys + [k])[..|keys|] == keys;
  }

  /** Two tables indexed apart: the second contributes only the keys that the first does not have. */
  lemma {:induction false} SeenConcat<K>(left: seq<K>, right: seq<K>)
    ensures FirstSeen(left + right) == FirstSeen(left) + Without(FirstSeen(right), left)
  {
    if right == [] {
      assert left + right == left;
    } else {
      var init, k := right[..|right| - 1], right[|right| - 1];
      SeenConcat(left, init);
      assert Appended(left, init, k) && right == init + [k];
      SeenConcatStep(left, init, k);
    }
  }

  predicate Appended<K(==)>(left: seq<K>, init: seq<K>, k: K) {
    left + (init + [k]) == (left + init) + [k]
  }

  lemma SeenConcatStep<K>(left: seq<K>, init: seq<K>, k: K)
    requires FirstSeen(left + init) == FirstSeen(left) + Without(FirstSeen(init), left) && Appended(left, init, k)
    ensures FirstSeen(left + (init + [k])) == FirstSeen(left) + Without(FirstSeen(init + [k]), left)
  {
    FirstSeenIsDistinct(left + init);
    FirstSeenIsDistinct(init);
    hide FirstSeen, Without;
    SeenNext(left + init, k);
    SeenNext(init, k);
    WithoutNext(FirstSeen(init), k, left);
    var all, rest := FirstSeen(left), Without(FirstSeen(init), left);
    if k in init {
      assert k in left + init;
    } else if k !in left {
      assert (all + rest) + [k] == all + (rest + [k]);
    }
  }

  /** Dropping the keys of the first table, or its first appearances, is the same. */
  lemma {:induction false} WithoutFirstSeen<K>(keys: seq<K>, drop: seq<K>)
    ensures Without(keys, FirstSeen(drop)) == Without(keys, drop)
  {
    if keys != [] {
      WithoutFirstSeen(keys[..|keys| - 1], drop);
      FirstSeenIsDistinct(drop);
    }
  }

  function Lookup<K(==)>(ids: map<K, seq<nat>>, k: K): seq<nat> {
    if k in ids then ids[k] else []
  }

  /** What a dictionary of positions holds after `keys`. */
  ghost predicate Indexed<K(!new)>(keys: seq<K>, order: seq<K>, ids: map<K, seq<nat>>) {
    && order == FirstSeen(keys)
    && (forall k :: k in ids <==> k in order)
    && (forall k :: Lookup(ids, k) == Places(keys, k))
  }

  lemma IndexNext<K(!new)>(keys: seq<K>, order: seq<K>, ids: map<K, seq<nat>>, k: K)
    requires Indexed(keys, order, ids)
    ensures Indexed(keys + [k], Add(order, k), ids[k := Lookup(ids, k) + [|keys|]])
  {
    SeenNext(keys, k);
    var after := ids[k := Lookup(ids, k) + [|keys|]];
    hide FirstSeen, Places;
    forall q ensures Lookup(after, q) == Places(keys + [k], q) {
      PlacesNext(keys, k, q);
      assert Lookup(ids, q) == Places(keys, q);
    }
  }

  /** `for i, key in enumerate(keys): table.setdefault(key, []).append(i)`. */
  method Index<K(==,!new)>(keys: seq<K>) returns (order: seq<K>, ids: map<K, seq<nat>>)
    ensures Indexed(keys, order, ids)
  {
    order, ids := [], map[];
    assert Indexed(keys[..0], order, ids);
    hide Indexed, Add, Lookup;
    for i := 0 to |keys|
      invariant Indexed(keys[..i], order, ids)
    {
      assert keys[..i + 1] == keys[..i] + [keys[i]];
      IndexNext(keys[..i], order, ids, keys[i]);
      order, ids := Add(order, keys[i]), ids[keys[i] := Lookup(ids, keys[i]) + [i]];
    }
    assert keys[..|keys|] == keys;
  }

  function LookupBoth<K(==)>(ids: map<K, (seq<nat>, seq<nat>)>, k: K): (seq<nat>, seq<nat>) {
    if k in ids then ids[k] else ([], [])
  }

  /** What one dictionary of both tables' positions holds. */
  ghost predicate BothIndexed<K(!new)>(left: seq<K>, right: seq<K>, order: seq<K>, ids: map<K, (seq<nat>, seq<nat>)>) {
    && order == FirstSeen(left + right)
    && (forall k :: k in ids <==> k in order)
    && (forall k :: LookupBoth(ids, k) == (Places(left, k), Places(right, k)))
  }

  function AddLeft<K(==)>(ids: map<K, (seq<nat>, seq<nat>)>, k: K, i: nat): map<K, (seq<nat>, seq<nat>)> {
    ids[k := (LookupBoth(ids, k).0 + [i], LookupBoth(ids, k).1)]
  }

  function AddRight<K(==)>(ids: map<K, (seq<nat>, seq<nat>)>, k: K, i: nat): map<K, (seq<nat>, seq<nat>)> {
    ids[k := (LookupBoth(ids, k).0, LookupBoth(ids, k).1 + [i])]
  }

  lemma LeftNext<K(!new)>(left: seq<K>, order: seq<K>, ids: map<K, (seq<nat>, seq<nat>)>, k: K)
    requires BothIndexed(left, [], order, ids)
    ensures BothIndexed(left + [k], [], Add(order, k), AddLeft(ids, k, |left|))
  {
    assert left + [] == left && (left + [k]) + [] == left + [k];
    SeenNext(left, k);
    hide FirstSeen, Places;
    forall q ensures LookupBoth(AddLeft(ids, k, |left|), q) == (Places(left + [k], q), Places([], q)) {
      PlacesNext(left, k, q);
      assert LookupBoth(ids, q) == (Places(left, q), Places([], q))
        && LookupBoth(ids, k) == (Places(left, k), Places([], k));
    }
  }

  lemma RightNext<K(!new)>(left: seq<K>, right: seq<K>, order: seq<K>, ids: map<K, (seq<nat>, seq<nat>)>, k: K)
    requires BothIndexed(left, right, order, ids)
    ensures BothIndexed(left, right + [k], Add(order, k), AddRight(ids, k, |right|))
  {
    assert left + (right + [k]) == (left + right) + [k];
    SeenNext(left + right, k);
    hide FirstSeen, Places;
    forall q ensures LookupBoth(AddRight(ids, k, |right|), q) == (Places(left, q), Places(right + [k], q)) {
      PlacesNext(right, k, q);
      assert LookupBoth(ids, q) == (Places(left, q), Places(right, q))
        && LookupBoth(ids, k) == (Places(left, k), Places(right, k));
    }
  }

  /** One dictionary for both tables: each key holds its positions on the left and on the right. */
  method IndexBoth<K(==,!new)>(left: seq<K>, right: seq<K>) returns (order: seq<K>, ids: map<K, (seq<nat>, seq<nat>)>)
    ensures BothIndexed(left, right, order, ids)
  {
    order, ids := [], map[];
    assert BothIndexed(left[..0], [], order, ids);
    hide BothIndexed, Add, AddLeft, AddRight;
    for i := 0 to |left|
      invariant BothIndexed(left[..i], [], order, ids)
    {
      assert left[..i + 1] == left[..i] + [left[i]];
      LeftNext(left[..i], order, ids, left[i]);
      order, ids := Add(order, left[i]), AddLeft(ids, left[i], i);
    }
    assert left[..|left|] == left && right[..0] == [];
    for i := 0 to |right|
      invariant BothIndexed(left, right[..i], order, ids)
    {
      assert right[..i + 1] == right[..i] + [right[i]];
      RightNext(left, right[..i], order, ids, right[i]);
      order, ids := Add(order, right[i]), AddRight(ids, right[i], i);
    }
    assert right[..|right|] == right;
  }
}
