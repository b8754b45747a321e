/**
 * List operations the program performs with loops or builtins: `range`,
 * the first element satisfying a test (a `for ... break` search), `del
 * xs[i]`, `sum`, `min` / `max`, and the cumulative draw `r -= w; if r <= 0:
 * break` used twice by the scheduler.
 */
module Lists {
  import opened Py

  /** `list(range(lo, hi))`. */
  function Range(lo: int, hi: int): (r: seq<int>)
    ensures |r| == if lo < hi then hi - lo else 0
    ensures forall k :: 0 <= k < |r| ==> r[k] == lo + k
    decreases hi - lo
  {
    if lo >= hi then [] else [lo] + Range(lo + 1, hi)
  }

  lemma RangeMembers(lo: int, hi: int, x: int)
    ensures x in Range(lo, hi) <==> lo <= x < hi
  {
    if lo <= x < hi {
      assert Range(lo, hi)[x - lo] == x;
    }
  }

  /** Index of the first element satisfying `p`, as a `for ... break` search finds it. */
  function First<T>(s: seq<T>, p: T -> bool): (r: Option<nat>)
    ensures r.Some? ==> r.value < |s| && p(s[r.value])
    ensures r.Some? ==> forall k :: 0 <= k < r.value ==> !p(s[k])
    ensures r.None? <==> forall k :: 0 <= k < |s| ==> !p(s[k])
  {
    if |s| == 0 then None
    else if p(s[0]) then Some(0)
    else match First(s[1..], p)
      case None => assert forall k :: 1 <= k < |s| ==> s[k] == s[1..][k - 1]; None
      case Some(i) => Some(i + 1)
  }

  /** The search loop itself. */
  method IndexOf<T>(s: seq<T>, p: T -> bool) returns (r: Option<nat>)
    ensures r == First(s, p)
  {
    var i := 0;
    while i < |s|
      invariant 0 <= i <= |s|
      invariant forall k :: 0 <= k < i ==> !p(s[k])
    {
      if p(s[i]) {
        return Some(i);
      }
      i := i + 1;
    }
    return None;
  }

  /** `del s[i]`. */
  function RemoveAt<T>(s: seq<T>, i: nat): (r: seq<T>)
    requires i < |s|
    ensures |r| == |s| - 1
    ensures multiset(r) + multiset{s[i]} == multiset(s)
    ensures forall k :: 0 <= k < i ==> r[k] == s[k]
    ensures forall k :: i <= k < |r| ==> r[k] == s[k + 1]
  {
    assert s == s[..i] + [s[i]] + s[i + 1..];
    s[..i] + s[i + 1..]
  }

  /** `sum(ws)`. */
  function Sum(ws: seq<real>): real {
    if |ws| == 0 then 0.0 else ws[0] + Sum(ws[1..])
  }

  lemma {:induction false} SumNonNegative(ws: seq<real>)
    requires forall k :: 0 <= k < |ws| ==> ws[k] >= 0.0
    ensures Sum(ws) >= 0.0
  {
    if |ws| > 0 {
      SumNonNegative(ws[1..]);
    }
  }

  lemma {:induction false} SumAppend(ws: seq<real>, w: real)
    ensures Sum(ws + [w]) == Sum(ws) + w
  {
    if |ws| > 0 {
      assert (ws + [w])[1..] == ws[1..] + [w];
      SumAppend(ws[1..], w);
    }
  }

  /** The accumulating loop `total = 0.0; for w in ws: total += w`. */
  method Total(ws: seq<real>) returns (total: real)
    ensures total == Sum(ws)
  {
    total := 0.0;
    var i := 0;
    while i < |ws|
      invariant 0 <= i <= |ws|
      invariant total == Sum(ws[..i])
    {
      assert ws[..i + 1] == ws[..i] + [ws[i]];
      SumAppend(ws[..i], ws[i]);
      total := total + ws[i];
      i := i + 1;
    }
    assert ws[..i] == ws;
  }

  /** `min(s)`. */
  function Min(s: seq<int>): (m: int)
    requires |s| > 0
    ensures m in s && forall k :: 0 <= k < |s| ==> m <= s[k]
  {
    if |s| == 1 then s[0]
    else
      var rest := Min(s[1..]);
      assert forall k :: 1 <= k < |s| ==> s[k] == s[1..][k - 1];
      if s[0] <= rest then s[0] else rest
  }

  /** `max(s)`. */
  function Max(s: seq<int>): (m: int)
    requires |s| > 0
    ensures m in s && forall k :: 0 <= k < |s| ==> s[k] <= m
  {
    if |s| == 1 then s[0]
    else
      var rest := Max(s[1..]);
      assert forall k :: 1 <= k < |s| ==> s[k] == s[1..][k - 1];
      if s[0] >= rest then s[0] else rest
  }

  // ---------------------------------------------------------------------------
  // The weighted draw: subtract weights from r until it drops to zero or below

  /** The index the draw stops at, or None when it runs off the end. */
  function Pick(ws: seq<real>, r: real): (pick: Option<nat>)
    ensures pick.Some? ==> pick.value < |ws|
  {
    if |ws| == 0 then None
    else if r - ws[0] <= 0.0 then Some(0)
    else match Pick(ws[1..], r - ws[0])
      case None => None
      case Some(i) => Some(i + 1)
  }

  /** The total of the weights up to and including index `j`. */
  function Running(ws: seq<real>, j: nat): real
    requires j < |ws|
  {
    Sum(ws[..j + 1])
  }

  lemma RunningCons(ws: seq<real>, j: nat)
    requires 0 < j < |ws|
    ensures Running(ws, j) == ws[0] + Running(ws[1..], j - 1)
  {
    assert ws[..j + 1][1..] == ws[1..][..j];
  }

  /** The draw stops at the first index where the running total reaches `r`. */
  lemma {:induction false} PickIsFirstReach(ws: seq<real>, r: real)
    ensures Pick(ws, r).Some? ==>
      var i := Pick(ws, r).value;
      i < |ws| && r <= Running(ws, i) && forall j :: 0 <= j < i ==> r > Running(ws, j)
    ensures Pick(ws, r).None? ==> forall j :: 0 <= j < |ws| ==> r > Running(ws, j)
  {
    if |ws| > 0 {
      assert ws[..1] == [ws[0]];
      assert Sum(ws[..1]) == ws[0] + Sum(ws[..1][1..]);
      assert ws[..1][1..] == [];
      if r - ws[0] > 0.0 {
        var tail := ws[1..];
        PickIsFirstReach(tail, r - ws[0]);
        forall j | 0 < j < |ws| ensures Running(ws, j) == ws[0] + Running(tail, j - 1) {
          RunningCons(ws, j);
        }
      }
    }
  }

  /** With non-negative weights and `r = u * sum` for `0 <= u < 1`, the draw always stops. */
  lemma {:induction false} PickSucceeds(ws: seq<real>, r: real)
    requires |ws| > 0 && forall k :: 0 <= k < |ws| ==> ws[k] >= 0.0
    requires r <= Sum(ws)
    ensures Pick(ws, r).Some?
  {
    if r - ws[0] > 0.0 {
      if |ws| == 1 {
        assert false;
      } else {
        PickSucceeds(ws[1..], r - ws[0]);
      }
    }
  }

  /** `random.random() * total`, for a uniform draw `u` in [0, 1). */
  function Scale(u: real, total: real): (r: real)
    ensures 0.0 <= u < 1.0 && total >= 0.0 ==> 0.0 <= r <= total
  {
    var rest := 1.0 - u;
    assert total - u * total == rest * total;
    assert rest >= 0.0 && total >= 0.0 ==> rest * total >= 0.0;
    u * total
  }

  /** A draw `r = u * sum(ws)` with `0 <= u < 1` over non-negative weights always stops. */
  lemma DrawStops(ws: seq<real>, u: real)
    requires |ws| > 0 && forall k :: 0 <= k < |ws| ==> ws[k] >= 0.0
    requires 0.0 <= u < 1.0
    ensures Pick(ws, Scale(u, Sum(ws))).Some?
  {
    SumNonNegative(ws);
    PickSucceeds(ws, Scale(u, Sum(ws)));
  }

  /** The loop of the draw. */
  method Draw(ws: seq<real>, r: real) returns (pick: Option<nat>)
    ensures pick == Pick(ws, r)
  {
    var i := 0;
    var rest := r;
    while i < |ws|
      invariant 0 <= i <= |ws|
      invariant Pick(ws, r) == (match Pick(ws[i..], rest) case None => None case Some(k) => Some(k + i))
    {
      assert ws[i..][1..] == ws[i + 1..];
      rest := rest - ws[i];
      if rest <= 0.0 {
        return Some(i);
      }
      i := i + 1;
    }
    return None;
  }

  // ---------------------------------------------------------------------------
  // Listings of names

  /** A directory listing: every name once, exactly the names stored. */
  ghost predicate Listing(order: seq<string>, keys: set<string>) {
    Distinct(order) && (forall n :: n in order <==> n in keys)
  }

  /** The listing with one name dropped. */
  function Without(order: seq<string>, n: string): (r: seq<string>)
    ensures forall x :: x in r <==> x in order && x != n
  {
    if |order| == 0 then []
    else (if order[0] == n then [] else [order[0]]) + Without(order[1..], n)
  }

  predicate Distinct(order: seq<string>) {
    forall i, j :: 0 <= i < j < |order| ==> order[i] != order[j]
  }

  lemma {:induction false} WithoutDistinct(order: seq<string>, n: string)
    requires Distinct(order)
    ensures Distinct(Without(order, n))
  {
    if |order| > 0 {
      WithoutDistinct(order[1..], n);
      var tail := Without(order[1..], n);
      if order[0] != n {
        assert order[0] !in tail;
        assert Without(order, n) == [order[0]] + tail;
      }
    }
  }
}
