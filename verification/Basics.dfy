/** Shared vocabulary: optional values, results that stand for raised exceptions, and bytes. */
module Basics {
  datatype Option<+T> = None | Some(value: T)

  /** `Failure` stands for an exception that leaves the modelled function. */
  datatype Result<+T> = Success(value: T) | Failure(error: string)

  newtype byte = x: int | 0 <= x < 256

  function Max(a: int, b: int): int { if a < b then b else a }

  function Min(a: int, b: int): int { if a < b then a else b }

  /** The parts one after the other. */
  function Flatten<T>(parts: seq<seq<T>>): seq<T> {
    if parts == [] then [] else Flatten(parts[..|parts| - 1]) + parts[|parts| - 1]
  }

  lemma {:induction false} FlattenMember<T>(parts: seq<seq<T>>, x: T)
    ensures x in Flatten(parts) <==> exists i | 0 <= i < |parts| :: x in parts[i]
  {
    if parts != [] {
      var init, last := parts[..|parts| - 1], parts[|parts| - 1];
      FlattenMember(init, x);
      assert forall i | 0 <= i < |init| :: init[i] == parts[i];
      assert x in Flatten(parts) <==> x in Flatten(init) || x in last;
    }
  }

  lemma FlattenSnoc<T>(parts: seq<seq<T>>, n: nat)
    requires n < |parts|
    ensures Flatten(parts[..n + 1]) == Flatten(parts[..n]) + parts[n]
  {
    assert parts[..n + 1][..n] == parts[..n];
  }

  lemma {:induction false} FlattenPrefix<T>(parts: seq<seq<T>>, n: nat)
    requires n <= |parts|
    ensures Flatten(parts[..n]) <= Flatten(parts)
  {
    if n < |parts| {
      FlattenPrefix(parts[..|parts| - 1], n);
      assert parts[..|parts| - 1][..n] == parts[..n];
    } else {
      assert parts[..n] == parts;
    }
  }

  lemma TakeTake<T>(s: seq<T>, m: nat, n: nat)
    requires m <= n <= |s|
    ensures s[..n][..m] == s[..m]
  {
  }

  lemma TakeAll<T>(s: seq<T>)
    ensures s[..|s|] == s
  {
  }

  /** How many elements satisfy `p`. */
  function CountIf<T>(s: seq<T>, p: T -> bool): (n: nat)
    ensures n <= |s|
  {
    if s == [] then 0 else CountIf(s[..|s| - 1], p) + if p(s[|s| - 1]) then 1 else 0
  }

  lemma {:induction false} CountIfConcat<T>(s: seq<T>, t: seq<T>, p: T -> bool)
    ensures CountIf(s + t, p) == CountIf(s, p) + CountIf(t, p)
  {
    if t == [] {
      assert s + t == s;
    } else {
      CountIfConcat(s, t[..|t| - 1], p);
      assert (s + t)[..|s + t| - 1] == s + t[..|t| - 1];
    }
  }

  /** The count is the size of the set of positions with the property. */
  lemma {:induction false} CountIfIsSize<T>(s: seq<T>, p: T -> bool, positions: set<int>)
    requires forall k :: k in positions <==> 0 <= k < |s| && p(s[k])
    ensures CountIf(s, p) == |positions|
  {
    if s == [] {
      assert forall k | k in positions :: 0 <= k < |s|;
      assert positions == {};
    } else {
      var init, n := s[..|s| - 1], |s| - 1;
      assert forall k | 0 <= k < n :: init[k] == s[k];
      CountIfIsSize(init, p, positions - {n});
    }
  }

  lemma {:induction false} CountIfAll<T>(s: seq<T>, p: T -> bool)
    ensures CountIf(s, p) == |s| <==> forall i | 0 <= i < |s| :: p(s[i])
  {
    if s != [] {
      CountIfAll(s[..|s| - 1], p);
    }
  }

  lemma {:induction false} CountIfNone<T>(s: seq<T>, p: T -> bool)
    ensures CountIf(s, p) == 0 <==> forall i | 0 <= i < |s| :: !p(s[i])
  {
    if s != [] {
      CountIfNone(s[..|s| - 1], p);
    }
  }
}
