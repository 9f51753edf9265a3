/**
 * The three ways the handlers query a table — fetch the first row that
 * matches, fetch every row that matches, and serialize every row — stated
 * over sequences in table order, plus the removal of one row.
 */
module Seqs {
  import opened Json

  /**
   * The index of the first element satisfying `p` (`query.filter_by(..).first()`
   * and `query.get(id)`), or None when no element does.
   */
  function FirstIndex<T>(s: seq<T>, p: T -> bool): (r: Option<nat>)
    ensures r.Some? ==> r.value < |s| && p(s[r.value])
    ensures r.Some? ==> forall j :: 0 <= j < r.value ==> !p(s[j])
    ensures r.None? <==> forall j :: 0 <= j < |s| ==> !p(s[j])
  {
    if s == [] then None
    else if p(s[0]) then Some(0)
    else match FirstIndex(s[1..], p)
      case None => None
      case Some(k) => Some(k + 1)
  }

  /** Every element satisfying `p`, in order (`query.filter_by(..).all()`). */
  function Filter<T>(s: seq<T>, p: T -> bool): (r: seq<T>)
    ensures |r| <= |s|
    ensures forall i :: 0 <= i < |r| ==> r[i] in s && p(r[i])
    ensures r == [] <==> forall j :: 0 <= j < |s| ==> !p(s[j])
  {
    if s == [] then []
    else if p(s[0]) then [s[0]] + Filter(s[1..], p)
    else Filter(s[1..], p)
  }

  /** Filter drops nothing that satisfies `p`: `s[j]` reappears at index `m`. */
  lemma {:induction false} FilterComplete<T>(s: seq<T>, p: T -> bool, j: nat) returns (m: nat)
    requires j < |s| && p(s[j])
    ensures m < |Filter(s, p)| && Filter(s, p)[m] == s[j]
  {
    if j == 0 {
      m := 0;
    } else {
      var m' := FilterComplete(s[1..], p, j - 1);
      m := if p(s[0]) then m' + 1 else m';
    }
  }

  /** The positions, counted from `from`, of the elements satisfying `p`, in order. */
  function Positions<T>(s: seq<T>, p: T -> bool, from: nat): (r: seq<nat>)
    ensures |r| == |Filter(s, p)|
  {
    if s == [] then []
    else if p(s[0]) then [from] + Positions(s[1..], p, from + 1)
    else Positions(s[1..], p, from + 1)
  }

  /** Filter's result is `s` read at the positions of the matching elements. */
  lemma {:induction false} PositionsSelect<T>(s: seq<T>, p: T -> bool, from: nat)
    ensures forall k :: 0 <= k < |Positions(s, p, from)| ==>
              from <= Positions(s, p, from)[k] < from + |s| &&
              Filter(s, p)[k] == s[Positions(s, p, from)[k] - from]
  {
    if s != [] {
      PositionsSelect(s[1..], p, from + 1);
      var rest := Positions(s[1..], p, from + 1);
      var tail := Filter(s[1..], p);
      forall k | 0 <= k < |rest|
        ensures tail[k] == s[rest[k] - from]
      {
        assert s[1..][rest[k] - (from + 1)] == s[rest[k] - from];
      }
    }
  }

  /** The positions of the matching elements increase strictly. */
  lemma {:induction false} PositionsIncrease<T>(s: seq<T>, p: T -> bool, from: nat)
    ensures forall k :: 0 <= k < |Positions(s, p, from)| ==> from <= Positions(s, p, from)[k]
    ensures forall k, l :: 0 <= k < l < |Positions(s, p, from)| ==>
              Positions(s, p, from)[k] < Positions(s, p, from)[l]
  {
    if s != [] {
      PositionsIncrease(s[1..], p, from + 1);
    }
  }

  /** Every matching element's position is among the positions. */
  lemma {:induction false} PositionsComplete<T>(s: seq<T>, p: T -> bool, from: nat, j: nat)
    requires j < |s| && p(s[j])
    ensures from + j in Positions(s, p, from)
  {
    if j > 0 {
      assert s[1..][j - 1] == s[j];
      PositionsComplete(s[1..], p, from + 1, j - 1);
    }
  }

  /**
   * Filter keeps order and multiplicity: its result is `s` read at the
   * strictly increasing positions `idx`, which include every position whose
   * element satisfies `p`.
   */
  lemma FilterPositions<T>(s: seq<T>, p: T -> bool) returns (idx: seq<nat>)
    ensures |idx| == |Filter(s, p)|
    ensures forall k :: 0 <= k < |idx| ==> idx[k] < |s| && Filter(s, p)[k] == s[idx[k]]
    ensures forall k, l :: 0 <= k < l < |idx| ==> idx[k] < idx[l]
    ensures forall j :: 0 <= j < |s| && p(s[j]) ==> j in idx
  {
    idx := Positions(s, p, 0);
    PositionsSelect(s, p, 0);
    PositionsIncrease(s, p, 0);
    forall j | 0 <= j < |s| && p(s[j])
      ensures j in idx
    {
      PositionsComplete(s, p, 0, j);
    }
  }

  /** `f` applied to every element, in order. */
  function Map<T, U>(s: seq<T>, f: T -> U): (r: seq<U>)
    ensures |r| == |s|
    ensures forall i :: 0 <= i < |s| ==> r[i] == f(s[i])
  {
    if s == [] then [] else Map(s[..|s| - 1], f) + [f(s[|s| - 1])]
  }

  /** Growing a prefix of the input by one element grows its image by that element's image. */
  lemma MapPrefix<T, U>(s: seq<T>, f: T -> U, i: nat)
    requires i < |s|
    ensures Map(s[..i + 1], f) == Map(s[..i], f) + [f(s[i])]
  {
    assert s[..i + 1][..i] == s[..i];
  }

  /** `s` without its element at index `k`, all others kept in order. */
  function RemoveAt<T>(s: seq<T>, k: nat): (r: seq<T>)
    requires k < |s|
    ensures |r| == |s| - 1
    ensures forall i :: 0 <= i < k ==> r[i] == s[i]
    ensures forall i :: k <= i < |r| ==> r[i] == s[i + 1]
    ensures multiset(r) == multiset(s) - multiset{s[k]}
  {
    assert s == s[..k] + [s[k]] + s[k + 1..];
    s[..k] + s[k + 1..]
  }
}
