/** Orders and sorting shared by the models: the code-point order on strings
    (Rust's `Ord for String`, JavaScript's default `sort`), ordered string sets
    (Rust's `BTreeSet<String>`, kept as a strictly ascending sequence), and a
    stable insertion sort by a total preorder (Rust's `sort_by`). */
module Ordering {

  /** Lexicographic order on strings by character code. */
  predicate StrLt(a: string, b: string)
    decreases |a|
  {
    if a == [] then b != []
    else if b == [] then false
    else if a[0] != b[0] then a[0] < b[0]
    else StrLt(a[1..], b[1..])
  }

  predicate StrLe(a: string, b: string) {
    a == b || StrLt(a, b)
  }

  lemma {:induction false} StrLtIrreflexive(a: string)
    ensures !StrLt(a, a)
    decreases |a|
  {
    if a != [] { StrLtIrreflexive(a[1..]); }
  }

  lemma {:induction false} StrLtTransitive(a: string, b: string, c: string)
    requires StrLt(a, b) && StrLt(b, c)
    ensures StrLt(a, c)
    decreases |a|
  {
    if a != [] && b != [] && c != [] && a[0] == b[0] && b[0] == c[0] {
      StrLtTransitive(a[1..], b[1..], c[1..]);
    }
  }

  lemma {:induction false} StrLtTotal(a: string, b: string)
    ensures a == b || StrLt(a, b) || StrLt(b, a)
    decreases |a|
  {
    if a != [] && b != [] && a[0] == b[0] {
      StrLtTotal(a[1..], b[1..]);
      if a[1..] == b[1..] {
        assert a == [a[0]] + a[1..] && b == [b[0]] + b[1..];
      }
    }
  }

  lemma StrLtAsymmetric(a: string, b: string)
    requires StrLt(a, b)
    ensures !StrLt(b, a)
  {
    if StrLt(b, a) {
      StrLtTransitive(a, b, a);
      StrLtIrreflexive(a);
    }
  }

  /** Strictly ascending: what iterating a `BTreeSet` yields. */
  predicate StrictlySorted(xs: seq<string>) {
    forall i, j :: 0 <= i < j < |xs| ==> StrLt(xs[i], xs[j])
  }

  lemma StrictlySortedDistinct(xs: seq<string>, i: int, j: int)
    requires StrictlySorted(xs) && 0 <= i < |xs| && 0 <= j < |xs| && i != j
    ensures xs[i] != xs[j]
  {
    if i < j { StrLtIrreflexive(xs[i]); } else { StrLtIrreflexive(xs[j]); }
  }

  /** A smallest element in front of a strictly ascending sequence keeps it so. */
  lemma SortedCons(h: string, t: seq<string>)
    requires StrictlySorted(t)
    requires forall k :: k in t ==> StrLt(h, k)
    ensures StrictlySorted([h] + t)
  {
    forall i, j | 0 <= i < j < |[h] + t| ensures StrLt(([h] + t)[i], ([h] + t)[j]) {
      if i == 0 {
        assert ([h] + t)[j] == t[j - 1];
        assert t[j - 1] in t;
      } else {
        assert ([h] + t)[i] == t[i - 1] && ([h] + t)[j] == t[j - 1];
      }
    }
  }

  /** `BTreeSet::insert` on the ascending sequence of the set's elements. */
  function SetInsert(xs: seq<string>, x: string): (r: seq<string>)
    requires StrictlySorted(xs)
    ensures StrictlySorted(r)
    ensures forall k :: k in r <==> k in xs || k == x
  {
    if xs == [] then [x]
    else if x == xs[0] then xs
    else if StrLt(x, xs[0]) then
      forall k | k in xs ensures StrLt(x, k) {
        var j :| 0 <= j < |xs| && xs[j] == k;
        if j > 0 { StrLtTransitive(x, xs[0], xs[j]); }
      }
      SortedCons(x, xs);
      [x] + xs
    else
      StrLtTotal(x, xs[0]);
      var t := xs[1..];
      assert StrictlySorted(t) by {
        forall i, j | 0 <= i < j < |t| ensures StrLt(t[i], t[j]) {
          assert t[i] == xs[i + 1] && t[j] == xs[j + 1];
        }
      }
      var rest := SetInsert(t, x);
      forall k | k in rest ensures StrLt(xs[0], k) {
        if k != x {
          var j :| 0 <= j < |t| && t[j] == k;
          assert xs[j + 1] == k;
        }
      }
      SortedCons(xs[0], rest);
      assert xs == [xs[0]] + t;
      [xs[0]] + rest
  }

  /** The ascending sequence of the distinct elements of `xs`. */
  function SetOf(xs: seq<string>): (r: seq<string>)
    ensures StrictlySorted(r)
    ensures forall k :: k in r <==> k in xs
  {
    if xs == [] then []
    else
      var init := xs[..|xs| - 1];
      assert xs == init + [xs[|xs| - 1]];
      SetInsert(SetOf(init), xs[|xs| - 1])
  }

  /** Two strictly ascending sequences with the same elements are equal: a
      duplicate-free list has exactly one sorted arrangement. */
  lemma {:induction false} SortedUnique(xs: seq<string>, ys: seq<string>)
    requires StrictlySorted(xs) && StrictlySorted(ys)
    requires forall k :: k in xs <==> k in ys
    ensures xs == ys
  {
    if xs != [] || ys != [] {
      SortedHeadsEqual(xs, ys);
      var xt, yt := xs[1..], ys[1..];
      StrictlySortedTail(xs);
      StrictlySortedTail(ys);
      forall k ensures k in xt <==> k in yt {
        TailMember(xs, k);
        TailMember(ys, k);
      }
      SortedUnique(xt, yt);
      assert xs == [xs[0]] + xt && ys == [ys[0]] + yt;
    }
  }

  /** Two strictly ascending sequences with the same elements, one of them
      non-empty, are both non-empty and start with the same (smallest) element. */
  lemma SortedHeadsEqual(xs: seq<string>, ys: seq<string>)
    requires StrictlySorted(xs) && StrictlySorted(ys) && (xs != [] || ys != [])
    requires forall k :: k in xs <==> k in ys
    ensures xs != [] && ys != [] && xs[0] == ys[0]
  {
    if xs != [] { assert xs[0] in xs; }
    if ys != [] { assert ys[0] in ys; }
    if xs[0] != ys[0] {
      var i :| 0 <= i < |xs| && xs[i] == ys[0];
      var j :| 0 <= j < |ys| && ys[j] == xs[0];
      assert i > 0 && j > 0;
      StrLtAsymmetric(xs[0], ys[0]);
    }
  }

  /** The tail of a strictly ascending sequence is strictly ascending. */
  lemma StrictlySortedTail(xs: seq<string>)
    requires StrictlySorted(xs) && xs != []
    ensures StrictlySorted(xs[1..])
  {
    var t := xs[1..];
    forall a, b | 0 <= a < b < |t| ensures StrLt(t[a], t[b]) {
      assert t[a] == xs[a + 1] && t[b] == xs[b + 1];
    }
  }

  /** In a strictly ascending sequence the tail holds everything but the head. */
  lemma TailMember(xs: seq<string>, k: string)
    requires StrictlySorted(xs) && xs != []
    ensures k in xs[1..] <==> k in xs && k != xs[0]
  {
    if k in xs[1..] {
      var j :| 0 <= j < |xs[1..]| && xs[1..][j] == k;
      assert xs[j + 1] == k;
      StrictlySortedDistinct(xs, 0, j + 1);
    }
    if k in xs && k != xs[0] {
      var j :| 0 <= j < |xs| && xs[j] == k;
      assert xs[1..][j - 1] == k;
    }
  }

  /** `le` is a total preorder: the comparator of a sort that the sort relies on. */
  ghost predicate TotalPreorder<T(!new)>(le: (T, T) -> bool) {
    (forall a, b :: le(a, b) || le(b, a)) &&
    (forall a, b, c :: le(a, b) && le(b, c) ==> le(a, c))
  }

  predicate SortedBy<T>(xs: seq<T>, le: (T, T) -> bool) {
    forall i, j :: 0 <= i < j < |xs| ==> le(xs[i], xs[j])
  }

  /** Insert `x` in front of the first element it does not come after. */
  function InsertBy<T>(x: T, xs: seq<T>, le: (T, T) -> bool): (r: seq<T>)
    ensures multiset(r) == multiset(xs) + multiset{x}
  {
    if xs == [] then [x]
    else if le(x, xs[0]) then [x] + xs
    else
      assert xs == [xs[0]] + xs[1..];
      [xs[0]] + InsertBy(x, xs[1..], le)
  }

  lemma {:induction false} InsertBySorted<T(!new)>(x: T, xs: seq<T>, le: (T, T) -> bool)
    requires TotalPreorder(le) && SortedBy(xs, le)
    ensures SortedBy(InsertBy(x, xs, le), le)
  {
    if xs != [] && !le(x, xs[0]) {
      InsertBySorted(x, xs[1..], le);
      var rest := InsertBy(x, xs[1..], le);
      assert multiset(rest) == multiset(xs[1..]) + multiset{x};
      forall k | 0 <= k < |rest| ensures le(xs[0], rest[k]) {
        assert rest[k] in multiset(rest);
        if rest[k] != x {
          assert rest[k] in multiset(xs[1..]);
          var m :| 0 <= m < |xs[1..]| && xs[1..][m] == rest[k];
          assert xs[m + 1] == rest[k];
        }
      }
    }
  }

  /** A stable sort: `xs` sorted by `le`, earlier elements first among equals. */
  function SortBy<T>(xs: seq<T>, le: (T, T) -> bool): (r: seq<T>)
    ensures multiset(r) == multiset(xs)
  {
    if xs == [] then []
    else
      assert xs == [xs[0]] + xs[1..];
      InsertBy(xs[0], SortBy(xs[1..], le), le)
  }

  lemma {:induction false} SortBySorted<T(!new)>(xs: seq<T>, le: (T, T) -> bool)
    requires TotalPreorder(le)
    ensures SortedBy(SortBy(xs, le), le)
  {
    if xs != [] {
      SortBySorted(xs[1..], le);
      InsertBySorted(xs[0], SortBy(xs[1..], le), le);
    }
  }

  /** `a` and `b` compare equal under `le`: neither comes strictly first. */
  predicate Equivalent<T>(a: T, b: T, le: (T, T) -> bool) {
    le(a, b) && le(b, a)
  }

  /** The elements of `xs` that compare equal to `x`, in the order of `xs`. */
  function EquivalentsOf<T>(xs: seq<T>, x: T, le: (T, T) -> bool): (r: seq<T>)
    ensures |r| <= |xs|
    ensures forall k :: 0 <= k < |r| ==> Equivalent(r[k], x, le)
  {
    if xs == [] then []
    else (if Equivalent(xs[0], x, le) then [xs[0]] else []) + EquivalentsOf(xs[1..], x, le)
  }

  /** Inserting `y` keeps every class of equal elements in order, with `y` in
      front of the members of its own class that were there before. */
  lemma {:induction false} InsertByStable<T(!new)>(y: T, ys: seq<T>, x: T, le: (T, T) -> bool)
    requires TotalPreorder(le)
    ensures EquivalentsOf(InsertBy(y, ys, le), x, le) == EquivalentsOf([y] + ys, x, le)
  {
    if ys == [] {
    } else if le(y, ys[0]) {
    } else {
      var t := ys[1..];
      InsertByStable(y, t, x, le);
      assert !(Equivalent(ys[0], x, le) && Equivalent(y, x, le));
      assert ([y] + ys)[1..] == ys;
      assert ([y] + t)[1..] == t;
      assert ([ys[0]] + InsertBy(y, t, le))[1..] == InsertBy(y, t, le);
    }
  }

  /** `SortBy` is stable: the elements that compare equal to any `x` come out in
      the order they went in. */
  lemma {:induction false} SortByStable<T(!new)>(xs: seq<T>, x: T, le: (T, T) -> bool)
    requires TotalPreorder(le)
    ensures EquivalentsOf(SortBy(xs, le), x, le) == EquivalentsOf(xs, x, le)
  {
    if xs != [] {
      SortByStable(xs[1..], x, le);
      InsertByStable(xs[0], SortBy(xs[1..], le), x, le);
      assert ([xs[0]] + SortBy(xs[1..], le))[1..] == SortBy(xs[1..], le);
    }
  }
}
