/**
 * The list operations the record stores perform on their in-memory lists:
 * an order-preserving filter (a list comprehension with a condition) and the
 * position of the first element that satisfies a test (a `for` loop that
 * stops at the first match).
 */
module Seqs {
  import opened Wrappers

  /** Every position one further on. */
  ghost function Shifted(idx: seq<nat>): (r: seq<nat>)
    ensures |r| == |idx| && forall j :: 0 <= j < |r| ==> r[j] == idx[j] + 1
  {
    seq(|idx|, j requires 0 <= j < |idx| => idx[j] + 1)
  }

  /** The positions of `s` whose element passes `keep`, first to last. */
  ghost function KeptPositions<T>(s: seq<T>, keep: T -> bool): seq<nat>
  {
    if s == [] then []
    else (if keep(s[0]) then [0] else []) + Shifted(KeptPositions(s[1..], keep))
  }

  /** `r` lists the elements of `s` at the positions `idx`, in that order. */
  ghost predicate Picks<T>(s: seq<T>, idx: seq<nat>, r: seq<T>) {
    |r| == |idx| && forall j :: 0 <= j < |idx| ==> idx[j] < |s| && r[j] == s[idx[j]]
  }

  /**
   * `[x for x in s if keep(x)]`: the elements of `s` at the passing
   * positions, in their order in `s`, each as often as it occurs there.
   */
  function Filter<T>(s: seq<T>, keep: T -> bool): (r: seq<T>)
    ensures Picks(s, KeptPositions(s, keep), r)
  {
    if s == [] then []
    else (if keep(s[0]) then [s[0]] else []) + Filter(s[1..], keep)
  }

  /**
   * The kept positions are strictly increasing, so each position is taken
   * at most once and the filter keeps the order of `s`.
   */
  lemma {:induction false} KeptPositionsIncrease<T>(s: seq<T>, keep: T -> bool)
    ensures forall j, k :: 0 <= j < k < |KeptPositions(s, keep)| ==> KeptPositions(s, keep)[j] < KeptPositions(s, keep)[k]
  {
    if s != [] {
      KeptPositionsIncrease(s[1..], keep);
      var head: seq<nat>, tail := if keep(s[0]) then [0] else [], Shifted(KeptPositions(s[1..], keep));
      var idx := head + tail;
      forall j, k | 0 <= j < k < |idx| ensures idx[j] < idx[k] {
        assert idx[k] == tail[k - |head|];
        if |head| <= j {
          assert idx[j] == tail[j - |head|];
        }
      }
    }
  }

  /** A position is kept exactly when its element passes `keep`. */
  lemma {:induction false} KeptPositionsExact<T>(s: seq<T>, keep: T -> bool)
    ensures forall i :: i in KeptPositions(s, keep) <==> 0 <= i < |s| && keep(s[i])
  {
    if s != [] {
      KeptPositionsExact(s[1..], keep);
      var rest := KeptPositions(s[1..], keep);
      var head: seq<nat> := if keep(s[0]) then [0] else [];
      forall i ensures i in head + Shifted(rest) <==> 0 <= i < |s| && keep(s[i]) {
        if i in Shifted(rest) {
          var j :| 0 <= j < |rest| && Shifted(rest)[j] == i;
          assert rest[j] in rest;
          assert rest[j] == i - 1;
          assert s[1..][i - 1] == s[i];
        }
        if 1 <= i < |s| && keep(s[i]) {
          assert s[1..][i - 1] == s[i];
          var j :| 0 <= j < |rest| && rest[j] == i - 1;
          assert Shifted(rest)[j] == i;
        }
      }
    }
  }

  /**
   * The filter is the subsequence of `s` made of exactly the passing
   * positions: order and multiplicity are those of `s`.
   */
  lemma FilterIsSubsequence<T>(s: seq<T>, keep: T -> bool)
    ensures exists idx: seq<nat> ::
      && |idx| == |Filter(s, keep)|
      && (forall j, k :: 0 <= j < k < |idx| ==> idx[j] < idx[k])
      && (forall j :: 0 <= j < |idx| ==> idx[j] < |s| && Filter(s, keep)[j] == s[idx[j]])
      && (forall i :: 0 <= i < |s| ==> (keep(s[i]) <==> i in idx))
  {
    var idx := KeptPositions(s, keep);
    KeptPositionsIncrease(s, keep);
    KeptPositionsExact(s, keep);
    assert Picks(s, idx, Filter(s, keep));
  }

  /** A filter is never longer than its input. */
  lemma FilterLength<T>(s: seq<T>, keep: T -> bool)
    ensures |Filter(s, keep)| <= |s|
  {
    KeptPositionsIncrease(s, keep);
    assert Picks(s, KeptPositions(s, keep), Filter(s, keep));
    IncreasingPositionsBound(KeptPositions(s, keep), |s|);
  }

  /** Positions strictly increasing inside `[0, n)` number at most `n`. */
  lemma {:induction false} IncreasingPositionsBound(idx: seq<nat>, n: nat)
    requires forall j :: 0 <= j < |idx| ==> idx[j] < n
    requires forall j, k :: 0 <= j < k < |idx| ==> idx[j] < idx[k]
    ensures |idx| <= n
  {
    if idx != [] {
      IncreasingPositionsBound(idx[..|idx| - 1], idx[|idx| - 1]);
    }
  }

  /** The filter keeps exactly the passing elements (the membership view of `Filter`). */
  lemma FilterMembers<T>(s: seq<T>, keep: T -> bool)
    ensures forall i :: 0 <= i < |Filter(s, keep)| ==> Filter(s, keep)[i] in s && keep(Filter(s, keep)[i])
    ensures forall i :: 0 <= i < |s| && keep(s[i]) ==> s[i] in Filter(s, keep)
  {
    var r, idx := Filter(s, keep), KeptPositions(s, keep);
    KeptPositionsExact(s, keep);
    forall i | 0 <= i < |r| ensures r[i] in s && keep(r[i]) {
      assert idx[i] in idx;
    }
    forall i | 0 <= i < |s| && keep(s[i]) ensures s[i] in r {
      var j :| 0 <= j < |idx| && idx[j] == i;
      assert r[j] == s[i];
    }
  }

  /** Filtering a concatenation filters each part, keeping their order. */
  lemma {:induction false} FilterAppend<T>(s: seq<T>, t: seq<T>, keep: T -> bool)
    ensures Filter(s + t, keep) == Filter(s, keep) + Filter(t, keep)
  {
    if s != [] {
      assert (s + t)[1..] == s[1..] + t;
      FilterAppend(s[1..], t, keep);
    } else {
      assert s + t == t;
    }
  }

  /** When every element passes, the filter returns the list itself. */
  lemma {:induction false} FilterKeepsAll<T>(s: seq<T>, keep: T -> bool)
    requires forall i :: 0 <= i < |s| ==> keep(s[i])
    ensures Filter(s, keep) == s
  {
    if s != [] {
      FilterKeepsAll(s[1..], keep);
    }
  }

  /** The position of the first element that passes `p`, if any. */
  function FirstIndex<T>(s: seq<T>, p: T -> bool): (r: Option<nat>)
    ensures r.Some? ==> r.value < |s| && p(s[r.value]) && forall j :: 0 <= j < r.value ==> !p(s[j])
    ensures r.None? ==> forall j :: 0 <= j < |s| ==> !p(s[j])
  {
    if s == [] then None
    else if p(s[0]) then Some(0)
    else match FirstIndex(s[1..], p)
      case None => None
      case Some(i) => Some(i + 1)
  }

  /** The element at a position where `p` first holds is what `FirstIndex` finds. */
  lemma FirstIndexAt<T>(s: seq<T>, p: T -> bool, i: nat)
    requires i < |s| && p(s[i])
    requires forall j :: 0 <= j < i ==> !p(s[j])
    ensures FirstIndex(s, p) == Some(i)
  {
  }

  /** When no element passes `p`, `FirstIndex` finds nothing. */
  lemma FirstIndexNone<T>(s: seq<T>, p: T -> bool)
    requires forall j :: 0 <= j < |s| ==> !p(s[j])
    ensures FirstIndex(s, p) == None
  {
  }

  /** `s` without its element at position `i` (`list.pop(i)`). */
  function RemoveAt<T>(s: seq<T>, i: nat): (r: seq<T>)
    requires i < |s|
    ensures |r| == |s| - 1
    ensures forall j :: 0 <= j < i ==> r[j] == s[j]
    ensures forall j :: i <= j < |r| ==> r[j] == s[j + 1]
  {
    s[..i] + s[i + 1..]
  }
}
