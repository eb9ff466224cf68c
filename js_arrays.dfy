/** JavaScript's `Array.prototype.splice` as the stores use it: take one element
    out, put one element in, and the two together to move an element. */
module JsArrays {
  import opened Wrappers
  import opened Strings

  /** Concatenation regrouped, stated on its own so that a caller's context
      does not have to find it. */
  lemma Assoc<T>(a: seq<T>, b: seq<T>, c: seq<T>)
    ensures a + b + c == a + (b + c)
  {
  }

  /** `a.splice(k, 1)` on the copy: the array without its element at `k`. */
  function RemoveAt<T>(s: seq<T>, k: nat): (r: seq<T>)
    requires k < |s|
    ensures |r| == |s| - 1
    ensures forall i :: 0 <= i < k ==> r[i] == s[i]
    ensures forall i :: k <= i < |r| ==> r[i] == s[i + 1]
  {
    s[..k] + s[k + 1..]
  }

  /** `a.splice(k, 0, x)`: `x` at `k`, the elements from `k` on one place further. */
  function InsertAt<T>(s: seq<T>, k: nat, x: T): (r: seq<T>)
    requires k <= |s|
    ensures |r| == |s| + 1 && r[k] == x
    ensures forall i :: 0 <= i < k ==> r[i] == s[i]
    ensures forall i :: k < i < |r| ==> r[i] == s[i - 1]
  {
    s[..k] + [x] + s[k..]
  }

  lemma RemoveAtMultiset<T>(s: seq<T>, k: nat)
    requires k < |s|
    ensures multiset(RemoveAt(s, k)) + multiset{s[k]} == multiset(s)
  {
    assert s == s[..k] + [s[k]] + s[k + 1..];
  }

  lemma InsertAtMultiset<T>(s: seq<T>, k: nat, x: T)
    requires k <= |s|
    ensures multiset(InsertAt(s, k, x)) == multiset(s) + multiset{x}
  {
    assert s == s[..k] + s[k..];
  }

  /** Moving the element at `from` (a valid index) to the place `to` names after
      it was taken out, with `splice`'s reading of a negative or too large `to`. */
  function Move<T>(s: seq<T>, from: nat, to: int): seq<T>
    requires from < |s|
  {
    InsertAt(RemoveAt(s, from), JsIndex(to, |s| - 1), s[from])
  }

  /** A move permutes the array and leaves the moved element where it was asked
      to go. */
  lemma MoveFacts<T>(s: seq<T>, from: nat, to: int)
    requires from < |s|
    ensures var r := Move(s, from, to);
      |r| == |s| && multiset(r) == multiset(s) && r[JsIndex(to, |s| - 1)] == s[from]
  {
    RemoveAtMultiset(s, from);
    InsertAtMultiset(RemoveAt(s, from), JsIndex(to, |s| - 1), s[from]);
  }

  /** A move with two equal places changes nothing. */
  lemma MoveInPlace<T>(s: seq<T>, k: nat)
    requires k < |s|
    ensures Move(s, k, k) == s
  {
    var r := Move(s, k, k);
    assert JsIndex(k, |s| - 1) == k;
    forall i | 0 <= i < |s| ensures r[i] == s[i] {
    }
  }

  /** The two `splice` calls of a move as written, with `undefined` as `None`: a
      `from` that names no element removes nothing and inserts `undefined`. */
  function MoveAsWritten<T>(s: seq<T>, from: int, to: int): seq<Option<T>> {
    var defined := seq(|s|, i requires 0 <= i < |s| => Some(s[i]));
    var f := JsIndex(from, |s|);
    if f < |s| then InsertAt(RemoveAt(defined, f), JsIndex(to, |s| - 1), Some(s[f]))
    else InsertAt(defined, JsIndex(to, |s|), None)
  }

  /** A `from` at or past the end grows the array by an `undefined` element. */
  lemma MoveAsWrittenOutOfRange<T>(s: seq<T>, from: int, to: int)
    requires from >= |s|
    ensures var r := MoveAsWritten(s, from, to);
      |r| == |s| + 1 && r[JsIndex(to, |s|)] == None
  {
  }

  /** For an index that names an element, the move as written is the move. */
  lemma MoveAsWrittenInRange<T>(s: seq<T>, from: int, to: int)
    requires JsIndex(from, |s|) < |s|
    ensures var m := Move(s, JsIndex(from, |s|), to);
      MoveAsWritten(s, from, to) == seq(|m|, i requires 0 <= i < |m| => Some(m[i]))
  {
    var f := JsIndex(from, |s|);
    var m := Move(s, f, to);
    var r := MoveAsWritten(s, from, to);
    var k := JsIndex(to, |s| - 1);
    forall i | 0 <= i < |m| ensures r[i] == Some(m[i]) {
    }
  }

  /** `list.filter((p) => p !== x)`: the list without the value. */
  function Without<T(==)>(list: seq<T>, x: T): (r: seq<T>)
    ensures |r| <= |list|
  {
    if list == [] then []
    else (if list[0] == x then [] else [list[0]]) + Without(list[1..], x)
  }

  /** The filter keeps exactly the other entries. */
  lemma {:induction false} WithoutMembers<T>(list: seq<T>, x: T)
    ensures forall q :: q in Without(list, x) <==> q in list && q != x
  {
    if list != [] {
      WithoutMembers(list[1..], x);
      assert list == [list[0]] + list[1..];
    }
  }

  /** The filter works piece by piece, so it keeps the order of what it keeps. */
  lemma {:induction false} WithoutAppend<T>(a: seq<T>, b: seq<T>, x: T)
    ensures Without(a + b, x) == Without(a, x) + Without(b, x)
  {
    if a == [] {
      assert a + b == b;
    } else {
      assert (a + b)[0] == a[0];
      assert (a + b)[1..] == a[1..] + b;
      WithoutAppend(a[1..], b, x);
    }
  }

  /** Filtering out `x` leaves no `x`. */
  lemma {:induction false} WithoutCount<T>(list: seq<T>, x: T)
    ensures multiset(Without(list, x))[x] == 0
  {
    if list != [] {
      WithoutCount(list[1..], x);
    }
  }

  /** Filtering out an absent entry changes nothing. */
  lemma {:induction false} WithoutUnchanged<T>(list: seq<T>, x: T)
    requires x !in list
    ensures Without(list, x) == list
  {
    if list != [] {
      assert list == [list[0]] + list[1..];
      assert x !in list[1..];
      WithoutUnchanged(list[1..], x);
    }
  }
}
