/** Grouping a list into a record of lists by a string key, as
    `if (!groups[k]) groups[k] = []; groups[k].push(x)` does in the command
    palette and in the search panel. The record is a list of groups in key
    insertion order, which is the order `Object.entries` and `Object.keys`
    give for keys that do not look like array indices. */
module Grouping {

  datatype Group<T> = Group(key: string, items: seq<T>)

  /** The keys in the order they first occur. */
  function Keys<T>(xs: seq<T>, key: T -> string): (r: seq<string>)
    ensures |r| <= |xs|
  {
    if xs == [] then []
    else
      var ks := Keys(xs[..|xs| - 1], key);
      var k := key(xs[|xs| - 1]);
      if k in ks then ks else ks + [k]
  }

  /** The elements with one key, in their order. */
  function WithKey<T>(xs: seq<T>, key: T -> string, k: string): (r: seq<T>)
    ensures |r| <= |xs|
  {
    if xs == [] then []
    else
      var last := xs[|xs| - 1];
      WithKey(xs[..|xs| - 1], key, k) + (if key(last) == k then [last] else [])
  }

  /** The filled record: one group per key, in first-occurrence order. */
  function Grouped<T>(xs: seq<T>, key: T -> string): seq<Group<T>> {
    var ks := Keys(xs, key);
    seq(|ks|, i requires 0 <= i < |ks| => Group(ks[i], WithKey(xs, key, ks[i])))
  }

  /** The keys are distinct and are exactly those of the elements. */
  lemma {:induction false} KeysMeaning<T>(xs: seq<T>, key: T -> string)
    ensures forall i, j :: 0 <= i < j < |Keys(xs, key)| ==> Keys(xs, key)[i] != Keys(xs, key)[j]
    ensures forall k :: k in Keys(xs, key) <==> exists x :: x in xs && key(x) == k
  {
    if xs != [] {
      var init := xs[..|xs| - 1];
      var last := xs[|xs| - 1];
      KeysMeaning(init, key);
      assert xs == init + [last];
      forall k ensures k in Keys(xs, key) <==> exists x :: x in xs && key(x) == k {
        if exists x :: x in xs && key(x) == k {
          var x :| x in xs && key(x) == k;
          if x != last {
            assert x in init;
          }
        }
      }
    }
  }

  /** A key's elements are exactly the elements with that key. */
  lemma {:induction false} WithKeyMembers<T>(xs: seq<T>, key: T -> string, k: string)
    ensures forall x :: x in WithKey(xs, key, k) <==> x in xs && key(x) == k
    ensures (forall x :: x in xs ==> key(x) != k) ==> WithKey(xs, key, k) == []
  {
    if xs != [] {
      var init := xs[..|xs| - 1];
      WithKeyMembers(init, key, k);
      assert xs == init + [xs[|xs| - 1]];
    }
  }

  /** Where the key's group is (`groups[k]`), or -1. */
  function GroupIndex<T>(groups: seq<Group<T>>, k: string): (r: int)
    ensures -1 <= r < |groups|
    ensures r >= 0 ==> groups[r].key == k
    ensures r < 0 ==> forall i :: 0 <= i < |groups| ==> groups[i].key != k
  {
    if groups == [] then -1
    else if groups[0].key == k then 0
    else
      var i := GroupIndex(groups[1..], k);
      if i < 0 then -1 else i + 1
  }

  /** One step of the loop: the element joins the end of its key's group, or
      opens a new group at the end. */
  function AddToGroups<T>(groups: seq<Group<T>>, x: T, key: T -> string): seq<Group<T>> {
    var i := GroupIndex(groups, key(x));
    if i < 0 then groups + [Group(key(x), [x])]
    else groups[i := Group(key(x), groups[i].items + [x])]
  }

  lemma KeysSnoc<T>(xs: seq<T>, x: T, key: T -> string)
    ensures Keys(xs + [x], key) == if key(x) in Keys(xs, key) then Keys(xs, key) else Keys(xs, key) + [key(x)]
  {
    assert (xs + [x])[..|xs|] == xs;
  }

  lemma WithKeySnoc<T>(xs: seq<T>, x: T, key: T -> string, k: string)
    ensures WithKey(xs + [x], key, k) == WithKey(xs, key, k) + (if key(x) == k then [x] else [])
  {
    assert (xs + [x])[..|xs|] == xs;
  }

  lemma GroupedSnoc<T>(xs: seq<T>, x: T, key: T -> string)
    ensures Grouped(xs + [x], key) == AddToGroups(Grouped(xs, key), x, key)
  {
    KeysMeaning(xs, key);
    KeysSnoc(xs, x, key);
    if GroupIndex(Grouped(xs, key), key(x)) >= 0 {
      GroupedSnocOld(xs, x, key);
    } else {
      GroupedSnocNew(xs, x, key);
    }
  }

  /** An element whose key has a group joins the end of that group. */
  lemma GroupedSnocOld<T>(xs: seq<T>, x: T, key: T -> string)
    requires GroupIndex(Grouped(xs, key), key(x)) >= 0
    ensures Grouped(xs + [x], key) == AddToGroups(Grouped(xs, key), x, key)
  {
    var ks := Keys(xs, key);
    var g := Grouped(xs, key);
    var gy := Grouped(xs + [x], key);
    KeysMeaning(xs, key);
    KeysSnoc(xs, x, key);
    var r := AddToGroups(g, x, key);
    var i := GroupIndex(g, key(x));
    assert ks[i] == key(x);
    forall j | 0 <= j < |g| ensures gy[j] == r[j] {
      WithKeySnoc(xs, x, key, ks[j]);
      if j != i {
        assert ks[j] != ks[i];
      }
    }
  }

  /** An element with a new key opens a group of its own at the end. */
  lemma GroupedSnocNew<T>(xs: seq<T>, x: T, key: T -> string)
    requires GroupIndex(Grouped(xs, key), key(x)) < 0
    ensures Grouped(xs + [x], key) == AddToGroups(Grouped(xs, key), x, key)
  {
    var k := key(x);
    var ks := Keys(xs, key);
    var g := Grouped(xs, key);
    var gy := Grouped(xs + [x], key);
    var r := AddToGroups(g, x, key);
    forall j | 0 <= j < |ks| ensures ks[j] != k {
      assert g[j].key == ks[j];
    }
    KeysMeaning(xs, key);
    KeysSnoc(xs, x, key);
    assert Keys(xs + [x], key) == ks + [k];
    assert forall y :: y in xs ==> key(y) != k;
    WithKeyMembers(xs, key, k);
    WithKeySnoc(xs, x, key, k);
    assert r == g + [Group(k, [x])];
    forall j | 0 <= j < |ks| + 1 ensures gy[j] == r[j] {
      if j < |ks| {
        WithKeySnoc(xs, x, key, ks[j]);
      }
    }
  }

  /** The loop that fills the record. */
  method GroupBy<T>(xs: seq<T>, key: T -> string) returns (groups: seq<Group<T>>)
    ensures groups == Grouped(xs, key)
  {
    groups := [];
    var n := 0;
    while n < |xs|
      invariant 0 <= n <= |xs|
      invariant groups == Grouped(xs[..n], key)
    {
      var x := xs[n];
      assert xs[..n + 1] == xs[..n] + [x];
      GroupedSnoc(xs[..n], x, key);
      var i := GroupIndex(groups, key(x));
      if i < 0 {
        groups := groups + [Group(key(x), [])];
        i := |groups| - 1;
      }
      groups := groups[i := Group(key(x), groups[i].items + [x])];
      n := n + 1;
    }
    assert xs[..n] == xs;
  }

  /** The number of elements over all groups. */
  function Total<T>(groups: seq<Group<T>>): nat {
    if groups == [] then 0 else Total(groups[..|groups| - 1]) + |groups[|groups| - 1].items|
  }

  lemma {:induction false} TotalUpdate<T>(groups: seq<Group<T>>, i: int, g: Group<T>)
    requires 0 <= i < |groups|
    ensures Total(groups[i := g]) == Total(groups) - |groups[i].items| + |g.items|
  {
    var n := |groups| - 1;
    var u := groups[i := g];
    if i < n {
      assert u[..n] == groups[..n][i := g];
      TotalUpdate(groups[..n], i, g);
    } else {
      assert u[..n] == groups[..n];
    }
  }

  /** Every element is listed once: the groups hold as many elements as the
      list. */
  lemma {:induction false} GroupedTotal<T>(xs: seq<T>, key: T -> string)
    ensures Total(Grouped(xs, key)) == |xs|
  {
    if xs != [] {
      var init := xs[..|xs| - 1];
      var x := xs[|xs| - 1];
      assert xs == init + [x];
      GroupedTotal(init, key);
      GroupedSnoc(init, x, key);
      var g := Grouped(init, key);
      var i := GroupIndex(g, key(x));
      if i < 0 {
        assert (g + [Group(key(x), [x])])[..|g|] == g;
      } else {
        TotalUpdate(g, i, Group(key(x), g[i].items + [x]));
      }
    }
  }

  /** Each group has a distinct key and holds exactly the elements with that
      key; every element's key has a group. */
  lemma GroupedMeaning<T>(xs: seq<T>, key: T -> string)
    ensures var g := Grouped(xs, key);
      (forall i, j :: 0 <= i < j < |g| ==> g[i].key != g[j].key) &&
      (forall i, x :: 0 <= i < |g| ==> (x in g[i].items <==> x in xs && key(x) == g[i].key)) &&
      (forall x :: x in xs ==> exists i :: 0 <= i < |g| && g[i].key == key(x))
  {
    var g := Grouped(xs, key);
    var ks := Keys(xs, key);
    KeysMeaning(xs, key);
    forall i | 0 <= i < |g| ensures forall x :: x in g[i].items <==> x in xs && key(x) == g[i].key {
      WithKeyMembers(xs, key, ks[i]);
    }
    forall x | x in xs ensures exists i :: 0 <= i < |g| && g[i].key == key(x) {
      assert key(x) in ks;
      var i :| 0 <= i < |ks| && ks[i] == key(x);
      assert g[i].key == key(x);
    }
  }

  /** Grouping keeps the order: a group's elements are the list's elements
      with its key, in the list's order, and a longer list only adds to the
      end of each group. */
  lemma {:induction false} WithKeyAppend<T>(a: seq<T>, b: seq<T>, key: T -> string, k: string)
    ensures WithKey(a + b, key, k) == WithKey(a, key, k) + WithKey(b, key, k)
    decreases |b|
  {
    if b == [] {
      assert a + b == a;
    } else {
      var init := b[..|b| - 1];
      var x := b[|b| - 1];
      assert b == init + [x];
      assert a + b == (a + init) + [x];
      WithKeyAppend(a, init, key, k);
      WithKeySnoc(a + init, x, key, k);
      WithKeySnoc(init, x, key, k);
    }
  }
}
