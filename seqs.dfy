/**
 * Python list slicing with possibly negative bounds, and the stable
 * descending sort that `sorted(..., reverse=True)` / `list.sort(reverse=True)`
 * perform.
 */
module Seqs {

  /** A Python slice bound normalised into `[0, n]`. */
  function Bound(x: int, n: nat): (b: nat)
    ensures b <= n
  {
    if x < 0 then (if n as int + x < 0 then 0 else n + x) else if x > n then n else x
  }

  /** `s[:x]` */
  function SliceTo<T>(s: seq<T>, x: int): (r: seq<T>)
    ensures r == s[..Bound(x, |s|)]
    ensures x >= 0 ==> |r| == if x <= |s| then x else |s|
  {
    s[..Bound(x, |s|)]
  }

  /** `s[x:]` */
  function SliceFrom<T>(s: seq<T>, x: int): (r: seq<T>)
    ensures r == s[Bound(x, |s|)..]
    ensures x < 0 ==> |r| == if -x <= |s| then -x else |s|
    ensures x == 0 ==> r == s
  {
    s[Bound(x, |s|)..]
  }

  /** `ge` is a total preorder: the ordering `sort` needs from its key. */
  ghost predicate TotalPreorder<T(!new)>(ge: (T, T) -> bool)
  {
    && (forall a, b :: ge(a, b) || ge(b, a))
    && (forall a, b, c :: ge(a, b) && ge(b, c) ==> ge(a, c))
  }

  ghost predicate SortedDesc<T>(s: seq<T>, ge: (T, T) -> bool)
  {
    forall i, j :: 0 <= i < j < |s| ==> ge(s[i], s[j])
  }

  /** Insert `x` before the first element it is not below; it thus goes after
      nothing it ties with that came from later in the input (stability). */
  function InsertDesc<T>(x: T, s: seq<T>, ge: (T, T) -> bool): seq<T>
  {
    if s == [] then [x] else if ge(x, s[0]) then [x] + s else [s[0]] + InsertDesc(x, s[1..], ge)
  }

  /** Stable descending insertion sort. */
  function SortDesc<T>(s: seq<T>, ge: (T, T) -> bool): seq<T>
  {
    if s == [] then [] else InsertDesc(s[0], SortDesc(s[1..], ge), ge)
  }

  lemma {:induction false} InsertDescPermutation<T>(x: T, s: seq<T>, ge: (T, T) -> bool)
    ensures multiset(InsertDesc(x, s, ge)) == multiset(s) + multiset{x}
  {
    if s != [] && !ge(x, s[0]) {
      InsertDescPermutation(x, s[1..], ge);
      assert s == [s[0]] + s[1..];
    }
  }

  lemma {:induction false} InsertDescSorted<T(!new)>(x: T, s: seq<T>, ge: (T, T) -> bool)
    requires TotalPreorder(ge) && SortedDesc(s, ge)
    ensures SortedDesc(InsertDesc(x, s, ge), ge)
  {
    if s != [] && !ge(x, s[0]) {
      var rest := InsertDesc(x, s[1..], ge);
      InsertDescSorted(x, s[1..], ge);
      InsertDescPermutation(x, s[1..], ge);
      assert ge(s[0], x);
      forall k | 0 <= k < |rest| ensures ge(s[0], rest[k]) {
        assert rest[k] in multiset(rest);
        assert rest[k] in multiset(s[1..]) || rest[k] == x;
        if rest[k] != x {
          var m :| 0 <= m < |s[1..]| && s[1..][m] == rest[k];
          assert s[1 + m] == rest[k];
        }
      }
    }
  }

  /** The sort returns a permutation of its input. */
  lemma {:induction false} SortDescPermutation<T>(s: seq<T>, ge: (T, T) -> bool)
    ensures multiset(SortDesc(s, ge)) == multiset(s)
  {
    if s != [] {
      SortDescPermutation(s[1..], ge);
      InsertDescPermutation(s[0], SortDesc(s[1..], ge), ge);
      assert s == [s[0]] + s[1..];
    }
  }

  /** The sort orders its output non-increasingly under `ge`. */
  lemma {:induction false} SortDescSorted<T(!new)>(s: seq<T>, ge: (T, T) -> bool)
    requires TotalPreorder(ge)
    ensures SortedDesc(SortDesc(s, ge), ge)
  {
    if s != [] {
      SortDescSorted(s[1..], ge);
      InsertDescSorted(s[0], SortDesc(s[1..], ge), ge);
    }
  }

  lemma SortDescLength<T>(s: seq<T>, ge: (T, T) -> bool)
    ensures |SortDesc(s, ge)| == |s|
  {
    SortDescPermutation(s, ge);
    assert |multiset(SortDesc(s, ge))| == |multiset(s)|;
  }

  /** The first `k` elements of a descending sequence are its top: they are
      drawn from it, and nothing left after them ranks above any of them. */
  lemma PrefixIsTop<T>(sorted: seq<T>, k: nat, ge: (T, T) -> bool)
    requires k <= |sorted| && SortedDesc(sorted, ge)
    ensures multiset(sorted[..k]) <= multiset(sorted)
    ensures forall p, j :: p in multiset(sorted) - multiset(sorted[..k]) && 0 <= j < k ==> ge(sorted[..k][j], p)
  {
    var top := sorted[..k];
    var left := sorted[k..];
    assert sorted == top + left;
    assert multiset(sorted) == multiset(top) + multiset(left);
    forall p, j | p in multiset(sorted) - multiset(top) && 0 <= j < k
      ensures ge(top[j], p)
    {
      assert p in multiset(left);
      var m :| 0 <= m < |left| && left[m] == p;
      assert top[j] == sorted[j] && p == sorted[k + m];
    }
  }
}
