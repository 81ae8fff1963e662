/**
 `sorted(xs, key=...)` and `xs.sort(key=...)`, followed by a first-match search.

 `IsStableSort` is what the library promises; `StableSort` is the one list that keeps the promise.
 The search over the sorted list is then described without any sorting at all.
 */
module StableSorting {
  import opened Values

  // ---------------------------------------------------------------- sorting

  function Insert<T>(x: T, xs: seq<T>, key: T -> int): seq<T> {
    if xs == [] || key(x) <= key(xs[0]) then [x] + xs
    else [xs[0]] + Insert(x, xs[1..], key)
  }

  function StableSort<T>(xs: seq<T>, key: T -> int): seq<T> {
    if xs == [] then [] else Insert(xs[0], StableSort(xs[1..], key), key)
  }

  ghost predicate Sorted<T>(xs: seq<T>, key: T -> int) {
    forall i, j | 0 <= i < j < |xs| :: key(xs[i]) <= key(xs[j])
  }

  /** The elements of `xs` whose key is `k`, in the order they have in `xs`. */
  function WithKey<T>(xs: seq<T>, key: T -> int, k: int): seq<T> {
    if xs == [] then []
    else if key(xs[0]) == k then [xs[0]] + WithKey(xs[1..], key, k)
    else WithKey(xs[1..], key, k)
  }

  /** Sorted, and equal keys keep their original order. */
  ghost predicate IsStableSort<T>(xs: seq<T>, out: seq<T>, key: T -> int) {
    && Sorted(out, key)
    && forall k: int :: WithKey(out, key, k) == WithKey(xs, key, k)
  }

  lemma {:induction false} WithKeyMember<T>(xs: seq<T>, key: T -> int, i: nat)
    requires i < |xs|
    ensures WithKey(xs, key, key(xs[i])) != []
  {
    if i > 0 { WithKeyMember(xs[1..], key, i - 1); }
  }

  lemma {:induction false} WithKeyFirst<T>(xs: seq<T>, key: T -> int, k: int)
    requires WithKey(xs, key, k) != []
    ensures exists i :: 0 <= i < |xs| && key(xs[i]) == k
  {
    if key(xs[0]) != k {
      WithKeyFirst(xs[1..], key, k);
      var i :| 0 <= i < |xs[1..]| && key(xs[1..][i]) == k;
      assert key(xs[i + 1]) == k;
    }
  }

  lemma {:induction false} InsertLength<T>(x: T, xs: seq<T>, key: T -> int, lo: int)
    requires lo <= key(x) && forall i | 0 <= i < |xs| :: lo <= key(xs[i])
    ensures |Insert(x, xs, key)| == |xs| + 1
    ensures forall i | 0 <= i < |xs| + 1 :: lo <= key(Insert(x, xs, key)[i])
  {
    if xs != [] { InsertLength(x, xs[1..], key, lo); }
  }

  lemma {:induction false} InsertSorted<T>(x: T, xs: seq<T>, key: T -> int)
    requires Sorted(xs, key)
    ensures Sorted(Insert(x, xs, key), key)
  {
    if xs != [] && key(x) > key(xs[0]) {
      InsertSorted(x, xs[1..], key);
      InsertLength(x, xs[1..], key, key(xs[0]));
    }
  }

  lemma {:induction false} InsertWithKey<T>(x: T, xs: seq<T>, key: T -> int, k: int)
    ensures WithKey(Insert(x, xs, key), key, k) == (if key(x) == k then [x] else []) + WithKey(xs, key, k)
  {
    if xs == [] || key(x) <= key(xs[0]) {
      assert ([x] + xs)[1..] == xs;
    } else {
      InsertWithKey(x, xs[1..], key, k);
      assert Insert(x, xs, key)[1..] == Insert(x, xs[1..], key);
    }
  }

  lemma {:induction false} SortIsStable<T>(xs: seq<T>, key: T -> int)
    ensures IsStableSort(xs, StableSort(xs, key), key)
  {
    if xs != [] {
      var rest := StableSort(xs[1..], key);
      SortIsStable(xs[1..], key);
      InsertSorted(xs[0], rest, key);
      forall k: int ensures WithKey(StableSort(xs, key), key, k) == WithKey(xs, key, k) {
        InsertWithKey(xs[0], rest, key, k);
      }
    }
  }

  /** Two sorted lists with the same elements, key by key and in the same order, are the same list. */
  lemma {:induction false} StableSortUnique<T>(a: seq<T>, b: seq<T>, key: T -> int)
    requires Sorted(a, key) && Sorted(b, key)
    requires forall k: int :: WithKey(a, key, k) == WithKey(b, key, k)
    ensures a == b
  {
    if a == [] {
    } else {
      var ka := key(a[0]);
      WithKeyMember(a, key, 0);
      WithKeyFirst(b, key, ka);
      var kb := key(b[0]);
      WithKeyMember(b, key, 0);
      WithKeyFirst(a, key, kb);
      assert ka == kb;
      assert WithKey(a, key, ka)[0] == a[0] && WithKey(b, key, ka)[0] == b[0];
      forall k: int ensures WithKey(a[1..], key, k) == WithKey(b[1..], key, k) {
        assert WithKey(a, key, k) == WithKey(b, key, k);
        if k == ka {
          assert WithKey(a[1..], key, k) == WithKey(a, key, k)[1..];
          assert WithKey(b[1..], key, k) == WithKey(b, key, k)[1..];
        }
      }
      StableSortUnique(a[1..], b[1..], key);
      assert a == [a[0]] + a[1..] && b == [b[0]] + b[1..];
    }
  }

  /** Whatever algorithm the library uses, its result is `StableSort`. */
  lemma LibrarySortIsStableSort<T>(xs: seq<T>, out: seq<T>, key: T -> int)
    requires IsStableSort(xs, out, key)
    ensures out == StableSort(xs, key)
  {
    SortIsStable(xs, key);
    StableSortUnique(out, StableSort(xs, key), key);
  }

  lemma SortedIsFixed<T>(xs: seq<T>, key: T -> int)
    requires Sorted(xs, key)
    ensures StableSort(xs, key) == xs
  {}

  // ---------------------------------------------------------------- first match

  function FirstMatch<T>(xs: seq<T>, p: T -> bool): Option<T> {
    if xs == [] then None
    else if p(xs[0]) then Some(xs[0])
    else FirstMatch(xs[1..], p)
  }

  /** Sort by key, then take the first element that satisfies `p`. */
  function Winner<T>(xs: seq<T>, key: T -> int, p: T -> bool): Option<T> {
    FirstMatch(StableSort(xs, key), p)
  }

  /** The better of two candidates, `l` coming from earlier in the list than `r`. */
  function Better<T>(l: Option<T>, r: Option<T>, key: T -> int): Option<T> {
    if l.None? then r
    else if r.None? || key(l.value) <= key(r.value) then l
    else r
  }

  lemma {:induction false} FirstMatchInsert<T>(x: T, xs: seq<T>, key: T -> int, p: T -> bool)
    requires Sorted(xs, key)
    ensures FirstMatch(Insert(x, xs, key), p)
         == Better(if p(x) then Some(x) else None, FirstMatch(xs, p), key)
    ensures FirstMatch(xs, p).Some? ==> |xs| > 0 && key(xs[0]) <= key(FirstMatch(xs, p).value)
  {
    if xs != [] {
      var out := Insert(x, xs, key);
      FirstMatchInsert(x, xs[1..], key, p);
      if key(x) <= key(xs[0]) {
        assert out[1..] == xs;
      } else {
        assert out[1..] == Insert(x, xs[1..], key);
      }
    }
  }

  /** The search after the sort, one list element at a time and without sorting. */
  lemma WinnerCons<T>(x: T, xs: seq<T>, key: T -> int, p: T -> bool)
    ensures Winner([x] + xs, key, p) == Better(if p(x) then Some(x) else None, Winner(xs, key, p), key)
  {
    assert ([x] + xs)[1..] == xs;
    SortIsStable(xs, key);
    FirstMatchInsert(x, StableSort(xs, key), key, p);
  }

  lemma {:induction false} WinnerConcat<T>(xs: seq<T>, ys: seq<T>, key: T -> int, p: T -> bool)
    ensures Winner(xs + ys, key, p) == Better(Winner(xs, key, p), Winner(ys, key, p), key)
  {
    if xs == [] {
      assert xs + ys == ys;
    } else {
      WinnerConcat(xs[1..], ys, key, p);
      assert xs + ys == [xs[0]] + (xs[1..] + ys) && xs == [xs[0]] + xs[1..];
      WinnerCons(xs[0], xs[1..] + ys, key, p);
      WinnerCons(xs[0], xs[1..], key, p);
    }
  }

  /** `xs[i]` satisfies `p` and has the lexicographically least (key, index) among those that do. */
  ghost predicate IsLeast<T>(xs: seq<T>, key: T -> int, p: T -> bool, i: nat) {
    && i < |xs| && p(xs[i])
    && forall j | 0 <= j < |xs| && p(xs[j]) ::
         key(xs[i]) < key(xs[j]) || (key(xs[i]) == key(xs[j]) && i <= j)
  }

  /** The winner is the least matching element, and there is none exactly when nothing matches. */
  lemma {:induction false} WinnerIsLeast<T>(xs: seq<T>, key: T -> int, p: T -> bool) returns (w: nat)
    ensures Winner(xs, key, p).None? <==> forall j | 0 <= j < |xs| :: !p(xs[j])
    ensures Winner(xs, key, p).Some? ==> IsLeast(xs, key, p, w) && Winner(xs, key, p) == Some(xs[w])
  {
    w := 0;
    if xs != [] {
      var v := WinnerIsLeast(xs[1..], key, p);
      assert xs == [xs[0]] + xs[1..];
      WinnerCons(xs[0], xs[1..], key, p);
      assert forall j | 0 < j < |xs| :: xs[j] == xs[1..][j - 1];
      if Winner(xs[1..], key, p).Some? && !(p(xs[0]) && key(xs[0]) <= key(xs[1 + v])) {
        w := v + 1;
      }
      if Winner(xs[1..], key, p).None? {
        assert forall j | 0 < j < |xs| :: !p(xs[j]) by {
          forall j | 0 < j < |xs| ensures !p(xs[j]) { assert !p(xs[1..][j - 1]); }
        }
      }
    }
  }

  /** Any index with the least (key, position) is the winner's. */
  lemma LeastIsWinner<T>(xs: seq<T>, key: T -> int, p: T -> bool, i: nat)
    requires IsLeast(xs, key, p, i)
    ensures Winner(xs, key, p) == Some(xs[i])
  {
    var w := WinnerIsLeast(xs, key, p);
  }

  // ---------------------------------------------------------------- lists with the same winner

  /** Reordering elements whose keys are pairwise distinct never changes the winner. */
  lemma ReorderKeepsWinner<T>(xs: seq<T>, ys: seq<T>, key: T -> int, p: T -> bool)
    requires multiset(xs) == multiset(ys)
    requires forall i, j | 0 <= i < j < |xs| :: key(xs[i]) != key(xs[j])
    ensures Winner(xs, key, p) == Winner(ys, key, p)
  {
    var a := WinnerIsLeast(xs, key, p);
    var b := WinnerIsLeast(ys, key, p);
    assert forall x :: x in xs <==> x in multiset(xs);
    assert forall y :: y in ys <==> y in multiset(ys);
    if Winner(xs, key, p).Some? {
      assert xs[a] in ys;
      var j :| 0 <= j < |ys| && ys[j] == xs[a];
      assert p(ys[j]);
      assert ys[b] in xs;
      var i :| 0 <= i < |xs| && xs[i] == ys[b];
      assert key(ys[b]) <= key(ys[j]) && key(xs[a]) <= key(xs[i]);
    } else {
      forall j | 0 <= j < |ys| ensures !p(ys[j]) { assert ys[j] in xs; }
    }
  }

  /** Sorting beforehand does not change the winner. */
  lemma SortKeepsWinner<T>(xs: seq<T>, key: T -> int, p: T -> bool)
    ensures Winner(StableSort(xs, key), key, p) == Winner(xs, key, p)
  {
    SortIsStable(xs, key);
    SortedIsFixed(StableSort(xs, key), key);
  }

  function Filter<T>(xs: seq<T>, keep: T -> bool): seq<T> {
    if xs == [] then []
    else (if keep(xs[0]) then [xs[0]] else []) + Filter(xs[1..], keep)
  }

  /** The positions before `i` whose elements are kept. */
  function KeptBefore<T>(xs: seq<T>, keep: T -> bool, i: nat): set<nat>
    requires i <= |xs|
  {
    set j: nat | 0 <= j < i && keep(xs[j])
  }

  lemma {:induction false} FilterConcat<T>(xs: seq<T>, ys: seq<T>, keep: T -> bool)
    ensures Filter(xs + ys, keep) == Filter(xs, keep) + Filter(ys, keep)
  {
    if xs == [] {
      assert xs + ys == ys;
    } else {
      var head := if keep(xs[0]) then [xs[0]] else [];
      FilterConcat(xs[1..], ys, keep);
      assert (xs + ys)[0] == xs[0] && (xs + ys)[1..] == xs[1..] + ys;
      assert Filter(xs + ys, keep) == head + Filter(xs[1..] + ys, keep);
      assert Filter(xs, keep) == head + Filter(xs[1..], keep);
    }
  }

  lemma {:induction false} FilterCount<T>(xs: seq<T>, keep: T -> bool, i: nat)
    requires i <= |xs|
    ensures |Filter(xs[..i], keep)| == |KeptBefore(xs, keep, i)|
  {
    if i == 0 {
      assert KeptBefore(xs, keep, 0) == {};
    } else {
      FilterCount(xs, keep, i - 1);
      FilterConcat(xs[..i - 1], [xs[i - 1]], keep);
      assert xs[..i] == xs[..i - 1] + [xs[i - 1]];
      assert KeptBefore(xs, keep, i) == KeptBefore(xs, keep, i - 1) + if keep(xs[i - 1]) then {i - 1} else {};
    }
  }

  lemma FilterPlace<T>(xs: seq<T>, keep: T -> bool, i: nat)
    requires i < |xs| && keep(xs[i])
    ensures |KeptBefore(xs, keep, i)| < |Filter(xs, keep)|
    ensures Filter(xs, keep)[|KeptBefore(xs, keep, i)|] == xs[i]
  {
    FilterCount(xs, keep, i);
    FilterConcat(xs[..i], xs[i..], keep);
    assert xs == xs[..i] + xs[i..];
    assert Filter(xs[i..], keep) == [xs[i]] + Filter(xs[i..][1..], keep);
  }

  lemma {:induction false} FilterKeeps<T>(xs: seq<T>, keep: T -> bool)
    ensures forall x | x in Filter(xs, keep) :: keep(x)
  {
    if xs != [] { FilterKeeps(xs[1..], keep); }
  }

  /** Everything that is kept is there, in order and with multiplicity, and nothing else. */
  lemma FilterPlaces<T>(xs: seq<T>, keep: T -> bool)
    ensures |Filter(xs, keep)| == |KeptBefore(xs, keep, |xs|)|
    ensures forall i | 0 <= i < |xs| && keep(xs[i]) ::
      |KeptBefore(xs, keep, i)| < |Filter(xs, keep)| && Filter(xs, keep)[|KeptBefore(xs, keep, i)|] == xs[i]
    ensures forall x | x in Filter(xs, keep) :: keep(x)
  {
    assert xs[..|xs|] == xs;
    FilterCount(xs, keep, |xs|);
    FilterKeeps(xs, keep);
    forall i | 0 <= i < |xs| && keep(xs[i])
      ensures |KeptBefore(xs, keep, i)| < |Filter(xs, keep)| && Filter(xs, keep)[|KeptBefore(xs, keep, i)|] == xs[i]
    {
      FilterPlace(xs, keep, i);
    }
  }

  function Both<T>(p: T -> bool, q: T -> bool): T -> bool {
    (x: T) => p(x) && q(x)
  }

  /** Dropping elements other than the winner never changes the winner. */
  lemma FilterKeepsWinner<T>(xs: seq<T>, key: T -> int, p: T -> bool, keep: T -> bool)
    requires Winner(xs, key, p).Some? ==> keep(Winner(xs, key, p).value)
    ensures Winner(Filter(xs, keep), key, p) == Winner(xs, key, p)
  {
    FilterWinner(xs, key, p, keep);
    StrongerTestKeepsWinner(xs, key, p, keep);
  }

  /** The winner of a filtered list is the winner under the stronger test. */
  lemma {:induction false} FilterWinner<T>(xs: seq<T>, key: T -> int, p: T -> bool, keep: T -> bool)
    ensures Winner(Filter(xs, keep), key, p) == Winner(xs, key, Both(keep, p))
  {
    if xs != [] {
      var q := Both(keep, p);
      FilterWinner(xs[1..], key, p, keep);
      assert xs == [xs[0]] + xs[1..];
      WinnerCons(xs[0], xs[1..], key, q);
      if keep(xs[0]) {
        WinnerCons(xs[0], Filter(xs[1..], keep), key, p);
      } else {
        assert Filter(xs, keep) == Filter(xs[1..], keep);
      }
    }
  }

  lemma StrongerTestKeepsWinner<T>(xs: seq<T>, key: T -> int, p: T -> bool, keep: T -> bool)
    requires Winner(xs, key, p).Some? ==> keep(Winner(xs, key, p).value)
    ensures Winner(xs, key, Both(keep, p)) == Winner(xs, key, p)
  {
    var q := Both(keep, p);
    var w := WinnerIsLeast(xs, key, p);
    var v := WinnerIsLeast(xs, key, q);
    if Winner(xs, key, p).Some? {
      assert q(xs[w]);
      assert IsLeast(xs, key, q, w);
      LeastIsWinner(xs, key, q, w);
    } else {
      assert forall j | 0 <= j < |xs| :: !q(xs[j]);
    }
  }

  function Map<T, U>(f: T -> U, xs: seq<T>): (ys: seq<U>)
    ensures |ys| == |xs| && forall i | 0 <= i < |xs| :: ys[i] == f(xs[i])
  {
    if xs == [] then [] else [f(xs[0])] + Map(f, xs[1..])
  }

  /** Rewriting elements without touching key or test rewrites the winner. */
  lemma {:induction false} MapWinner<T, U>(f: T -> U, xs: seq<T>,
                                           key: T -> int, p: T -> bool, key': U -> int, p': U -> bool)
    requires forall x | x in xs :: key'(f(x)) == key(x) && p'(f(x)) == p(x)
    ensures Winner(Map(f, xs), key', p')
         == (var w := Winner(xs, key, p); if w.None? then None else Some(f(w.value)))
  {
    if xs != [] {
      assert xs == [xs[0]] + xs[1..];
      MapWinner(f, xs[1..], key, p, key', p');
      var w := WinnerIsLeast(xs[1..], key, p);
      WinnerCons(xs[0], xs[1..], key, p);
      WinnerCons(f(xs[0]), Map(f, xs[1..]), key', p');
      if Winner(xs[1..], key, p).Some? { assert xs[1..][w] in xs; }
    }
  }

  /** Rewriting commutes with the stable sort when it keeps the keys. */
  lemma {:induction false} MapSort<T(!new), U>(f: T -> U, xs: seq<T>, key: T -> int, key': U -> int)
    requires forall x :: key'(f(x)) == key(x)
    ensures StableSort(Map(f, xs), key') == Map(f, StableSort(xs, key))
  {
    if xs != [] {
      MapSort(f, xs[1..], key, key');
      MapInsert(f, xs[0], StableSort(xs[1..], key), key, key');
      assert Map(f, xs)[1..] == Map(f, xs[1..]);
    }
  }

  lemma {:induction false} MapInsert<T(!new), U>(f: T -> U, x: T, xs: seq<T>, key: T -> int, key': U -> int)
    requires forall y :: key'(f(y)) == key(y)
    ensures Insert(f(x), Map(f, xs), key') == Map(f, Insert(x, xs, key))
  {
    var out := Insert(x, xs, key);
    if xs == [] || key(x) <= key(xs[0]) {
      assert out[1..] == xs;
    } else {
      MapInsert(f, x, xs[1..], key, key');
      assert Map(f, xs)[1..] == Map(f, xs[1..]);
      assert out[1..] == Insert(x, xs[1..], key);
    }
  }
}
