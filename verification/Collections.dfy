/** Small vocabulary shared by the models: optional values, sequences used as
    insertion-ordered collections, and Python's stable `sorted`. */
module Collections {

  datatype Option<+T> = None | Some(value: T)

  ghost predicate Distinct<T>(s: seq<T>) {
    forall i, j :: 0 <= i < j < |s| ==> s[i] != s[j]
  }

  ghost predicate StrictlyAscending(s: seq<int>) {
    forall i, j :: 0 <= i < j < |s| ==> s[i] < s[j]
  }

  function Elements<T>(s: seq<T>): set<T> {
    set x | x in s
  }

  // Sequence identities, stated for any element type so that they also serve
  // sequences of strings cheaply.

  lemma PrefixNext<T>(s: seq<T>, k: nat)
    requires k < |s|
    ensures s[..k + 1] == s[..k] + [s[k]]
  {
  }

  lemma PrefixEnds<T>(s: seq<T>)
    ensures s[..0] == [] && s[..|s|] == s
  {
  }

  lemma ConcatNil<T>(s: seq<T>)
    ensures s + [] == s && [] + s == s
  {
  }

  lemma ConcatAssociates<T>(a: seq<T>, b: seq<T>, c: seq<T>)
    ensures (a + b) + c == a + (b + c)
  {
  }

  lemma AnyMember<T>(s: set<T>) returns (x: T)
    requires s != {}
    ensures x in s
  {
    x :| x in s;
  }

  /** `list.remove(x)`: the first occurrence goes; the list is left alone when
      there is none. */
  function RemoveFirst<T(==)>(s: seq<T>, x: T): seq<T> {
    if s == [] then []
    else if s[0] == x then s[1..]
    else [s[0]] + RemoveFirst(s[1..], x)
  }

  lemma {:induction false} RemoveFirstMultiset<T>(s: seq<T>, x: T)
    ensures multiset(RemoveFirst(s, x)) == multiset(s) - multiset{x}
  {
    if s != [] {
      assert s == [s[0]] + s[1..];
      if s[0] != x {
        RemoveFirstMultiset(s[1..], x);
      }
    }
  }

  ghost predicate CutAt<T>(s: seq<T>, x: T, i: int, t: seq<T>) {
    0 <= i < |s| && s[i] == x && (forall j :: 0 <= j < i ==> s[j] != x) && t == s[..i] + s[i + 1..]
  }

  /** `t` is `s` without its first `x`. */
  ghost predicate WithoutFirst<T>(s: seq<T>, x: T, t: seq<T>) {
    exists i :: CutAt(s, x, i, t)
  }

  lemma CutPush<T>(head: T, s: seq<T>, x: T, i: int, t: seq<T>)
    requires CutAt(s, x, i, t) && head != x
    ensures CutAt([head] + s, x, i + 1, [head] + t)
  {
    var more := [head] + s;
    assert more[..i + 1] == [head] + s[..i] && more[i + 2..] == s[i + 1..];
  }

  lemma {:induction false} RemoveFirstCuts<T>(s: seq<T>, x: T)
    requires x in s
    ensures WithoutFirst(s, x, RemoveFirst(s, x))
  {
    if s[0] == x {
      assert CutAt(s, x, 0, s[1..]);
    } else {
      RemoveFirstCuts(s[1..], x);
      var i :| CutAt(s[1..], x, i, RemoveFirst(s[1..], x));
      CutPush(s[0], s[1..], x, i, RemoveFirst(s[1..], x));
      assert [s[0]] + s[1..] == s;
    }
  }

  // ---- Every prefix ----

  ghost predicate Always<T>(s: seq<T>, p: seq<T> -> bool) {
    forall i :: 0 <= i <= |s| ==> p(s[..i])
  }

  lemma AlwaysNext<T>(s: seq<T>, p: seq<T> -> bool)
    requires s != []
    ensures Always(s, p) <==> Always(s[..|s| - 1], p) && p(s)
  {
    var init := s[..|s| - 1];
    assert s[..|s|] == s;
    assert forall i :: 0 <= i <= |init| ==> init[..i] == s[..i];
  }

  lemma AlwaysNow<T>(s: seq<T>, p: seq<T> -> bool)
    requires Always(s, p)
    ensures p(s)
  {
    assert s[..|s|] == s;
  }

  // ---- Counting ----

  function CountWhere<T>(s: seq<T>, p: T -> bool): nat {
    if s == [] then 0 else CountWhere(s[..|s| - 1], p) + (if p(s[|s| - 1]) then 1 else 0)
  }

  ghost function ElementsWhere<T>(s: seq<T>, p: T -> bool): set<T> {
    set x | x in s && p(x)
  }

  lemma ElementsWherePush<T>(s: seq<T>, last: T, p: T -> bool)
    ensures ElementsWhere(s + [last], p) == ElementsWhere(s, p) + (if p(last) then {last} else {})
  {
  }

  lemma {:induction false} CountIsSize<T>(s: seq<T>, p: T -> bool)
    requires Distinct(s)
    ensures CountWhere(s, p) == |ElementsWhere(s, p)|
  {
    if s == [] {
      assert ElementsWhere(s, p) == {};
    } else {
      var init, last := s[..|s| - 1], s[|s| - 1];
      CountIsSize(init, p);
      assert s == init + [last] && last !in init;
      ElementsWherePush(init, last, p);
    }
  }

  /** Two listings of the same elements hold equally many of any kind. */
  lemma SameCount<T>(s: seq<T>, t: seq<T>, p: T -> bool)
    requires Distinct(s) && Distinct(t) && forall x :: x in s <==> x in t
    ensures CountWhere(s, p) == CountWhere(t, p)
  {
    CountIsSize(s, p);
    CountIsSize(t, p);
    assert ElementsWhere(s, p) == ElementsWhere(t, p);
  }

  // ---- Python's sorted(set of int) ----

  method Smallest(ids: set<int>) returns (m: int)
    requires ids != {}
    ensures m in ids && forall x :: x in ids ==> m <= x
  {
    ghost var w := AnyMember(ids);
    m :| m in ids;
    var rest := ids - {m};
    while rest != {}
      invariant m in ids && rest <= ids
      invariant forall x :: x in ids ==> x in rest || m <= x
      decreases rest
    {
      ghost var w := AnyMember(rest);
      var x :| x in rest;
      rest := rest - {x};
      if x < m {
        m := x;
      }
    }
  }

  method Sorted(ids: set<int>) returns (s: seq<int>)
    ensures StrictlyAscending(s)
    ensures forall x :: x in s <==> x in ids
    ensures |s| == |ids|
  {
    s := [];
    var rest := ids;
    while rest != {}
      invariant rest <= ids && |s| + |rest| == |ids|
      invariant StrictlyAscending(s)
      invariant forall x :: x in s <==> x in ids && x !in rest
      invariant forall x, y :: x in s && y in rest ==> x < y
      decreases rest
    {
      var m := Smallest(rest);
      rest := rest - {m};
      assert forall x :: x in s + [m] <==> x in s || x == m;
      assert forall i :: 0 <= i < |s| ==> s[i] in s;
      s := s + [m];
    }
  }

  // ---- Python's sorted(list, key=...): stable, ascending by key ----

  ghost predicate AscendingBy<T>(s: seq<T>, key: T -> real) {
    forall i, j :: 0 <= i < j < |s| ==> key(s[i]) <= key(s[j])
  }

  function InsertBy<T>(x: T, s: seq<T>, key: T -> real): (r: seq<T>)
    ensures multiset(r) == multiset{x} + multiset(s)
    ensures |r| == |s| + 1
    ensures AscendingBy(s, key) ==> AscendingBy(r, key)
  {
    if s == [] || key(x) <= key(s[0]) then
      assert AscendingBy(s, key) && s != [] ==> forall j :: 0 <= j < |s| ==> key(s[0]) <= key(s[j]);
      [x] + s
    else
      assert s == [s[0]] + s[1..];
      var rest := InsertBy(x, s[1..], key);
      assert AscendingBy(s, key) ==> AscendingBy([s[0]] + rest, key) by {
        InsertKeepsHead(x, s, rest, key);
      }
      [s[0]] + rest
  }

  lemma InsertKeepsHead<T>(x: T, s: seq<T>, rest: seq<T>, key: T -> real)
    requires s != [] && key(s[0]) < key(x)
    requires multiset(rest) == multiset{x} + multiset(s[1..])
    requires AscendingBy(s[1..], key) ==> AscendingBy(rest, key)
    ensures AscendingBy(s, key) ==> AscendingBy([s[0]] + rest, key)
  {
    if AscendingBy(s, key) {
      forall i | 0 <= i < |s[1..]| ensures key(s[0]) <= key(s[1..][i]) {
        assert s[1..][i] == s[i + 1];
      }
      forall j | 0 <= j < |rest| ensures key(s[0]) <= key(rest[j]) {
        assert rest[j] in multiset(rest);
      }
    }
  }

  /** `sorted(s, key=key)`. An element is inserted before those with an equal
      key, which came later, so ties keep their order. */
  function SortBy<T>(s: seq<T>, key: T -> real): (r: seq<T>)
    ensures multiset(r) == multiset(s)
    ensures |r| == |s|
    ensures AscendingBy(r, key)
  {
    if s == [] then []
    else
      assert s == [s[0]] + s[1..];
      InsertBy(s[0], SortBy(s[1..], key), key)
  }
}
