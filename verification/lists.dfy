/** Sequence helpers shared by the registry and the scheduler: Python's
    `list.remove` (first occurrence only) and duplicate-freedom. */
module Lists {

  datatype Option<+T> = None | Some(value: T)

  /** How often `x` occurs in `s`. */
  ghost function Occurrences(s: seq<nat>, x: nat): nat {
    multiset(s)[x]
  }

  /** No element occurs twice. */
  ghost predicate Distinct(s: seq<nat>) {
    forall x :: Occurrences(s, x) <= 1
  }

  /** Position of the first occurrence of `x` in `s`. */
  function IndexOf<T(==)>(s: seq<T>, x: T): (i: nat)
    requires x in s
    ensures i < |s| && s[i] == x && x !in s[..i]
  {
    if s[0] == x then 0
    else
      var j := IndexOf(s[1..], x);
      assert s[1..][..j] == s[1..j + 1];
      assert s[..j + 1] == [s[0]] + s[1..j + 1];
      j + 1
  }

  /** Python's `s.remove(x)`: drops the first occurrence of `x` and keeps the
      order of everything else; a no-op when `x` is absent (the Python call
      would raise instead, see the ownership invariant of the scheduler). */
  function RemoveFirst<T(==)>(s: seq<T>, x: T): (r: seq<T>)
    ensures x !in s ==> r == s
    ensures x in s ==> |r| == |s| - 1
    ensures multiset(r) == multiset(s) - multiset{x}
    ensures forall y :: y in r ==> y in s
    ensures x in s ==> exists i :: 0 <= i < |s| && s[i] == x && x !in s[..i] && r == s[..i] + s[i + 1..]
  {
    if x !in s then s
    else
      var i := IndexOf(s, x);
      assert s == s[..i] + [x] + s[i + 1..];
      s[..i] + s[i + 1..]
  }

  /** Removing the first `x` keeps every other element. */
  lemma RemoveFirstKeepsOthers<T>(s: seq<T>, x: T)
    ensures forall y :: y in s && y != x ==> y in RemoveFirst(s, x)
  {
    forall y | y in s && y != x ensures y in RemoveFirst(s, x) {
      assert y in multiset(s);
    }
  }

  lemma RemoveFirstOfDistinct(s: seq<nat>, x: nat)
    requires Distinct(s)
    ensures Distinct(RemoveFirst(s, x))
    ensures x !in RemoveFirst(s, x)
  {
    var r: seq<nat> := RemoveFirst<nat>(s, x);
    forall y ensures Occurrences(r, y) <= 1 {
      assert Occurrences(s, y) <= 1;
    }
    assert Occurrences(s, x) <= 1;
    assert multiset(r)[x] == 0;
  }

  /** A prefix of a duplicate-free sequence is duplicate-free. */
  lemma DistinctPrefix(s: seq<nat>, k: nat)
    requires Distinct(s) && k <= |s|
    ensures Distinct(s[..k])
  {
    assert s == s[..k] + s[k..];
    assert multiset(s) == multiset(s[..k]) + multiset(s[k..]);
    forall x ensures Occurrences(s[..k], x) <= 1 {
      assert Occurrences(s, x) <= 1;
    }
  }

  /** In a duplicate-free sequence different positions hold different values. */
  lemma DistinctIndices(s: seq<nat>, i: nat, j: nat)
    requires Distinct(s) && i < |s| && j < |s| && i != j
    ensures s[i] != s[j]
  {
    var lo := if i < j then i else j;
    var hi := if i < j then j else i;
    assert s[..hi + 1] == s[..hi] + [s[hi]];
    assert s[lo] in s[..hi];
    DistinctPrefix(s, hi + 1);
    assert Occurrences(s[..hi + 1], s[hi]) <= 1;
    assert multiset(s[..hi + 1]) == multiset(s[..hi]) + multiset{s[hi]};
    assert s[hi] !in multiset(s[..hi]);
  }

  /** Removing an element that only occurs at the very end. */
  lemma RemoveFirstOfLast<T>(s: seq<T>, x: T)
    requires x !in s
    ensures RemoveFirst(s + [x], x) == s
  {
    var r := RemoveFirst(s + [x], x);
    var i :| 0 <= i < |s + [x]| && (s + [x])[i] == x && x !in (s + [x])[..i] && r == (s + [x])[..i] + (s + [x])[i + 1..];
    assert forall k :: 0 <= k < |s| ==> (s + [x])[k] == s[k];
    assert i == |s|;
    assert (s + [x])[..i] == s;
  }

  /** A sequence whose positions all hold different values is duplicate-free. */
  lemma {:induction false} InjectiveDistinct(s: seq<nat>)
    requires forall i, j :: 0 <= i < j < |s| ==> s[i] != s[j]
    ensures Distinct(s)
  {
    if s != [] {
      var n := |s| - 1;
      InjectiveDistinct(s[..n]);
      assert s == s[..n] + [s[n]];
      assert s[n] !in s[..n];
      assert multiset(s) == multiset(s[..n]) + multiset{s[n]};
      forall x ensures Occurrences(s, x) <= 1 {
        assert Occurrences(s[..n], x) <= 1;
      }
    }
  }
}
