/** The three JavaScript array operations the product read path relies on,
    over immutable sequences: `find` (first element passing a test),
    `filter` (elements passing a test, in order) and `slice` with
    non-negative bounds. */
module ArrayOps {
  import opened Optional

  function Min(a: int, b: int): int {
    if a <= b then a else b
  }

  /** Position of the first element passing `test`, scanning from the front
      as `Array.prototype.find` does; `None` when no element passes. */
  function FirstIndex<T>(s: seq<T>, test: T -> bool): (r: Option<nat>)
    ensures r.Some? ==> r.value < |s| && test(s[r.value])
    ensures r.Some? ==> forall j :: 0 <= j < r.value ==> !test(s[j])
    ensures r.None? <==> forall j :: 0 <= j < |s| ==> !test(s[j])
    decreases |s|
  {
    if |s| == 0 then None
    else if test(s[0]) then Some(0)
    else
      match FirstIndex(s[1..], test)
      case None => None
      case Some(i) => Some(i + 1)
  }

  /** `Array.prototype.filter`: the elements of `s` passing `keep`. */
  function Filter<T>(s: seq<T>, keep: T -> bool): (r: seq<T>)
    ensures |r| <= |s|
    ensures forall k :: 0 <= k < |r| ==> r[k] in s && keep(r[k])
    ensures forall i :: 0 <= i < |s| && keep(s[i]) ==> s[i] in r
    ensures (forall i :: 0 <= i < |s| ==> keep(s[i])) ==> r == s
    decreases |s|
  {
    if |s| == 0 then []
    else
      var n := |s| - 1;
      assert s == s[..n] + [s[n]];
      Filter(s[..n], keep) + (if keep(s[n]) then [s[n]] else [])
  }

  /** Positions, in increasing order, of the elements of `s` passing `keep`:
      an index-level description of what `Filter` keeps. */
  function Positions<T>(s: seq<T>, keep: T -> bool): (idx: seq<nat>)
    ensures forall k :: 0 <= k < |idx| ==> idx[k] < |s| && keep(s[idx[k]])
    ensures forall k, m :: 0 <= k < m < |idx| ==> idx[k] < idx[m]
    ensures forall i :: 0 <= i < |s| && keep(s[i]) ==> i in idx
    decreases |s|
  {
    if |s| == 0 then []
    else
      var n := |s| - 1;
      Positions(s[..n], keep) + (if keep(s[n]) then [n] else [])
  }

  /** `Array.prototype.slice(start, end)` for non-negative bounds: both are
      clamped to the length, and an empty range gives the empty array. */
  function Slice<T>(s: seq<T>, start: nat, end: nat): (r: seq<T>)
    ensures start < end && start < |s| ==> |r| == Min(end, |s|) - start
    ensures !(start < end && start < |s|) ==> r == []
    ensures forall k :: 0 <= k < |r| ==> start + k < |s| && r[k] == s[start + k]
  {
    var lo := Min(start, |s|);
    var hi := Min(end, |s|);
    if lo < hi then s[lo..hi] else []
  }

  /** `pos` places the elements of `r` at strictly increasing positions of `s`. */
  ghost predicate EmbeddedAt<T>(r: seq<T>, s: seq<T>, pos: seq<nat>) {
    && |pos| == |r|
    && (forall k :: 0 <= k < |pos| ==> pos[k] < |s| && s[pos[k]] == r[k])
    && (forall k, m :: 0 <= k < m < |pos| ==> pos[k] < pos[m])
  }

  /** `r` is a subsequence of `s`: its elements occur in `s` in the same order. */
  ghost predicate InOrderOf<T>(r: seq<T>, s: seq<T>) {
    exists pos :: EmbeddedAt(r, s, pos)
  }

  /** An embedding into a prefix is an embedding into the whole array. */
  lemma EmbeddedInPrefix<T>(r: seq<T>, s: seq<T>, n: nat, pos: seq<nat>)
    requires n <= |s|
    requires EmbeddedAt(r, s[..n], pos)
    ensures EmbeddedAt(r, s, pos)
    ensures forall k :: 0 <= k < |pos| ==> pos[k] < n
  {
    forall k | 0 <= k < |pos|
      ensures pos[k] < |s| && s[pos[k]] == r[k]
    {
      assert s[..n][pos[k]] == s[pos[k]];
    }
  }

  /** An embedding extends by one element at a later position. */
  lemma EmbeddedAppend<T>(r: seq<T>, s: seq<T>, pos: seq<nat>, i: nat)
    requires EmbeddedAt(r, s, pos)
    requires i < |s|
    requires forall k :: 0 <= k < |pos| ==> pos[k] < i
    ensures EmbeddedAt(r + [s[i]], s, pos + [i])
  {
  }

  /** `Filter` keeps exactly the elements at `Positions`, in that order. */
  lemma {:induction false} FilterAtPositions<T>(s: seq<T>, keep: T -> bool)
    ensures EmbeddedAt(Filter(s, keep), s, Positions(s, keep))
    decreases |s|
  {
    if |s| > 0 {
      var n := |s| - 1;
      var init := s[..n];
      FilterAtPositions(init, keep);
      var r0, p0 := Filter(init, keep), Positions(init, keep);
      EmbeddedInPrefix(r0, s, n, p0);
      if keep(s[n]) {
        EmbeddedAppend(r0, s, p0, n);
        assert Filter(s, keep) == r0 + [s[n]];
        assert Positions(s, keep) == p0 + [n];
      } else {
        assert Filter(s, keep) == r0;
        assert Positions(s, keep) == p0;
      }
    }
  }

  /** Cutting the same window out of a subsequence and out of its positions
      keeps it a subsequence. */
  lemma SliceKeepsOrder<T>(r: seq<T>, s: seq<T>, pos: seq<nat>, start: nat, end: nat)
    requires EmbeddedAt(r, s, pos)
    ensures EmbeddedAt(Slice(r, start, end), s, Slice(pos, start, end))
  {
    var r', pos' := Slice(r, start, end), Slice(pos, start, end);
    assert |r'| == |pos'|;
    forall k | 0 <= k < |pos'|
      ensures pos'[k] < |s| && s[pos'[k]] == r'[k]
    {
      assert pos'[k] == pos[start + k] && r'[k] == r[start + k];
    }
    forall k, m | 0 <= k < m < |pos'|
      ensures pos'[k] < pos'[m]
    {
      assert pos'[k] == pos[start + k] && pos'[m] == pos[start + m];
    }
  }

  /** Two consecutive pages of a slice are the slice of the combined page:
      paging neither skips nor repeats an element. */
  lemma SliceAdjacent<T>(s: seq<T>, start: nat, a: nat, b: nat)
    ensures Slice(s, start, start + a) + Slice(s, start + a, start + a + b)
         == Slice(s, start, start + a + b)
  {
  }
}
