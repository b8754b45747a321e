/**
 * Python's `sorted(xs, key=..., reverse=...)`: a stable sort under a total
 * preorder.  The order is passed as a comparison `le`; the result is sorted,
 * a permutation of the input, and keeps elements of equal rank in their
 * original order.  Also string comparison as Python does it.
 */
module Sorting {

  ghost predicate TotalPreorder<T(!new)>(le: (T, T) -> bool) {
    (forall a, b :: le(a, b) || le(b, a))
    && (forall a, b, c :: le(a, b) && le(b, c) ==> le(a, c))
  }

  predicate Sorted<T>(s: seq<T>, le: (T, T) -> bool) {
    forall i, j :: 0 <= i < j < |s| ==> le(s[i], s[j])
  }

  /** Insert `x` before the first element it does not rank after. */
  function Insert<T>(x: T, t: seq<T>, le: (T, T) -> bool): (r: seq<T>)
    ensures multiset(r) == multiset(t) + multiset{x}
    ensures |r| == |t| + 1
  {
    if |t| == 0 then [x]
    else if le(x, t[0]) then [x] + t
    else
      assert t == [t[0]] + t[1..];
      [t[0]] + Insert(x, t[1..], le)
  }

  /** The sort itself: insertion of each element, last one first. */
  function Sort<T>(s: seq<T>, le: (T, T) -> bool): (r: seq<T>)
    ensures multiset(r) == multiset(s)
    ensures |r| == |s|
  {
    if |s| == 0 then []
    else
      assert s == [s[0]] + s[1..];
      Insert(s[0], Sort(s[1..], le), le)
  }

  lemma {:induction false} InsertSorted<T(!new)>(x: T, t: seq<T>, le: (T, T) -> bool)
    requires TotalPreorder(le) && Sorted(t, le)
    ensures Sorted(Insert(x, t, le), le)
  {
    if |t| > 0 && !le(x, t[0]) {
      InsertSorted(x, t[1..], le);
      var r := Insert(x, t, le);
      var tail := Insert(x, t[1..], le);
      assert r == [t[0]] + tail;
      forall k | 0 <= k < |tail| ensures le(t[0], tail[k]) {
        assert tail[k] in multiset(tail);
        assert tail[k] == x || tail[k] in multiset(t[1..]);
        if tail[k] != x {
          var m :| 1 <= m < |t| && t[m] == tail[k] by {
            assert tail[k] in t[1..];
          }
        }
      }
    }
  }

  /** The result of `Sort` is ordered. */
  lemma {:induction false} SortSorted<T(!new)>(s: seq<T>, le: (T, T) -> bool)
    requires TotalPreorder(le)
    ensures Sorted(Sort(s, le), le)
  {
    if |s| > 0 {
      SortSorted(s[1..], le);
      InsertSorted(s[0], Sort(s[1..], le), le);
    }
  }

  // ---------------------------------------------------------------------------
  // Stability

  predicate SameRank<T>(a: T, b: T, le: (T, T) -> bool) {
    le(a, b) && le(b, a)
  }

  /** `[x]` when `x` ranks equal to `k`, otherwise `[]`. */
  function IfSameRank<T>(x: T, k: T, le: (T, T) -> bool): seq<T> {
    if SameRank(x, k, le) then [x] else []
  }

  /** Elements that rank equal to `k`, in order. */
  function EqualRank<T>(s: seq<T>, k: T, le: (T, T) -> bool): (r: seq<T>)
    ensures |r| <= |s|
  {
    if |s| == 0 then [] else IfSameRank(s[0], k, le) + EqualRank(s[1..], k, le)
  }

  lemma EqualRankCons<T>(x: T, t: seq<T>, k: T, le: (T, T) -> bool)
    ensures EqualRank([x] + t, k, le) == IfSameRank(x, k, le) + EqualRank(t, k, le)
  {
    assert ([x] + t)[1..] == t;
  }

  lemma {:induction false} EqualRankInsert<T(!new)>(x: T, t: seq<T>, k: T, le: (T, T) -> bool)
    requires TotalPreorder(le)
    ensures EqualRank(Insert(x, t, le), k, le) == IfSameRank(x, k, le) + EqualRank(t, k, le)
  {
    if |t| == 0 {
      EqualRankCons(x, t, k, le);
    } else if le(x, t[0]) {
      EqualRankCons(x, t, k, le);
    } else {
      var tail := Insert(x, t[1..], le);
      EqualRankInsert(x, t[1..], k, le);
      EqualRankCons(t[0], tail, k, le);
      EqualRankCons(t[0], t[1..], k, le);
      assert [t[0]] + t[1..] == t;
      // t[0] ranks strictly before x, so it cannot rank equal to k when x does
      assert !(SameRank(x, k, le) && SameRank(t[0], k, le));
      assert IfSameRank(t[0], k, le) + IfSameRank(x, k, le) == IfSameRank(x, k, le) + IfSameRank(t[0], k, le);
    }
  }

  /**
   * Stability: the elements of any one rank appear in the sorted result in
   * the order they had in the input.
   */
  lemma {:induction false} SortStable<T(!new)>(s: seq<T>, k: T, le: (T, T) -> bool)
    requires TotalPreorder(le)
    ensures EqualRank(Sort(s, le), k, le) == EqualRank(s, k, le)
  {
    if |s| > 0 {
      SortStable(s[1..], k, le);
      EqualRankInsert(s[0], Sort(s[1..], le), k, le);
    }
  }

  // ---------------------------------------------------------------------------
  // Python string order

  /** `a <= b` on Python strings: lexicographic by code point. */
  predicate StrLe(a: string, b: string)
    decreases |a|
  {
    |a| == 0 || (|b| > 0 && (a[0] < b[0] || (a[0] == b[0] && StrLe(a[1..], b[1..]))))
  }

  lemma {:induction false} StrLeTotal(a: string, b: string)
    ensures StrLe(a, b) || StrLe(b, a)
    decreases |a|
  {
    if |a| > 0 && |b| > 0 && a[0] == b[0] {
      StrLeTotal(a[1..], b[1..]);
    }
  }

  lemma {:induction false} StrLeTrans(a: string, b: string, c: string)
    requires StrLe(a, b) && StrLe(b, c)
    ensures StrLe(a, c)
    decreases |a|
  {
    if |a| > 0 && a[0] == b[0] && b[0] == c[0] {
      StrLeTrans(a[1..], b[1..], c[1..]);
    }
  }

  lemma {:induction false} StrLeAntisymmetric(a: string, b: string)
    requires StrLe(a, b) && StrLe(b, a)
    ensures a == b
    decreases |a|
  {
    if |a| > 0 {
      StrLeAntisymmetric(a[1..], b[1..]);
      assert a == [a[0]] + a[1..] && b == [b[0]] + b[1..];
    }
  }
}
