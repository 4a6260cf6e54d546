/** Small facts about sequences used across the model. */
module Sequences {

  predicate Distinct<T(==)>(s: seq<T>)
  {
    forall i, j :: 0 <= i < j < |s| ==> s[i] != s[j]
  }

  /** Every entry of `idx` is a position in a sequence of length `n`. */
  predicate InRange(idx: seq<nat>, n: nat)
  {
    forall i :: 0 <= i < |idx| ==> idx[i] < n
  }

  /** The position of the first occurrence of `x`. */
  function IndexOf<T(==)>(s: seq<T>, x: T): (k: nat)
    requires x in s
    ensures k < |s| && s[k] == x && x !in s[..k]
  {
    if s[0] == x then 0
    else
      assert s[1..] + [] == s[1..];
      var k := 1 + IndexOf(s[1..], x);
      assert s[..k] == [s[0]] + s[1..][..k - 1];
      k
  }

  /** The elements of `s` at the positions `idx`, in that order. */
  function Pick<T>(s: seq<T>, idx: seq<nat>): (r: seq<T>)
    requires forall i :: 0 <= i < |idx| ==> idx[i] < |s|
    ensures |r| == |idx| && forall i :: 0 <= i < |idx| ==> r[i] == s[idx[i]]
  {
    seq(|idx|, i requires 0 <= i < |idx| => s[idx[i]])
  }

  /** In a sequence without repeats, an element is picked exactly when its
      position is. */
  lemma PickMembership<T>(s: seq<T>, idx: seq<nat>, k: nat)
    requires Distinct(s) && k < |s|
    requires forall i :: 0 <= i < |idx| ==> idx[i] < |s|
    ensures s[k] in Pick(s, idx) <==> k in idx
  {
    var p := Pick(s, idx);
    if s[k] in p {
      var j :| 0 <= j < |p| && p[j] == s[k];
      assert s[idx[j]] == s[k];
    }
    if k in idx {
      var j :| 0 <= j < |idx| && idx[j] == k;
      assert p[j] == s[k];
    }
  }

  /** Picking distinct positions of a sequence without repeats gives a
      sequence without repeats. */
  lemma PickDistinct<T>(s: seq<T>, idx: seq<nat>)
    requires Distinct(s) && Distinct(idx)
    requires forall i :: 0 <= i < |idx| ==> idx[i] < |s|
    ensures Distinct(Pick(s, idx))
  {
    var p := Pick(s, idx);
    forall i, j | 0 <= i < j < |p| ensures p[i] != p[j] {
      assert idx[i] != idx[j];
    }
  }

  /** Picking one more position appends that element. */
  lemma PickSnoc<T>(s: seq<T>, idx: seq<nat>, k: nat)
    requires forall i :: 0 <= i < |idx| ==> idx[i] < |s|
    requires k < |s|
    ensures Pick(s, idx + [k]) == Pick(s, idx) + [s[k]]
  {
    assert forall i :: 0 <= i < |idx| ==> (idx + [k])[i] == idx[i];
  }

  /** A sequence is its part before `k`, its element at `k` and its part
      after `k`. */
  lemma SplitAt<T>(s: seq<T>, k: nat)
    requires k < |s|
    ensures s == s[..k] + [s[k]] + s[k + 1..]
  {
  }

  /** `List.Remove`: drops the first occurrence, if any. */
  function RemoveFirst<T(==)>(s: seq<T>, x: T): (r: seq<T>)
    ensures x !in s ==> r == s
    ensures x in s ==> |r| == |s| - 1 && multiset(r) == multiset(s) - multiset{x}
  {
    if x !in s then s
    else
      var k := IndexOf(s, x);
      assert s == s[..k] + [x] + s[k + 1..];
      s[..k] + s[k + 1..]
  }

  /** Appending an element and removing it again gives back the list. */
  lemma RemoveFirstAppended<T>(s: seq<T>, x: T)
    requires x !in s
    ensures RemoveFirst(s + [x], x) == s
  {
    var k := IndexOf(s + [x], x);
    assert (s + [x])[k] == x;
    assert (s + [x])[..|s|] == s;
  }

  /** In a sequence without repeats an element occurs nowhere after its
      position. */
  lemma DistinctAfter<T>(s: seq<T>, k: nat)
    requires Distinct(s) && k < |s|
    ensures s[k] !in s[k + 1..]
  {
    forall j | k + 1 <= j < |s| ensures s[j] != s[k] {
      assert k < j;
    }
  }

  /** Removing from a sequence without repeats leaves one without repeats
      and without the removed element. */
  lemma RemoveFirstDistinct<T>(s: seq<T>, x: T)
    requires Distinct(s)
    ensures Distinct(RemoveFirst(s, x)) && x !in RemoveFirst(s, x)
  {
    if x in s {
      var k := IndexOf(s, x);
      DistinctAfter(s, k);
      var a, b := s[..k], s[k + 1..];
      assert RemoveFirst(s, x) == a + b;
      forall i, j | 0 <= i < j < |a + b| ensures (a + b)[i] != (a + b)[j] {
        if j < |a| {
          assert (a + b)[i] == s[i] && (a + b)[j] == s[j];
        } else if i < |a| {
          assert (a + b)[i] == s[i] && (a + b)[j] == s[j + 1];
        } else {
          assert (a + b)[i] == s[i + 1] && (a + b)[j] == s[j + 1];
        }
      }
    }
  }
}
