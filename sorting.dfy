/**
 * Ordering helpers: the stable sort that `Array.prototype.sort` performs with a
 * numeric comparator, and the ascending listing of a set of integers
 * (`[...set].sort((a, b) => a - b)`).
 */
module Sorting {
  predicate SortedBy<T>(s: seq<T>, key: T -> int) {
    forall i, j :: 0 <= i < j < |s| ==> key(s[i]) <= key(s[j])
  }

  /** Inserts `x` after every element whose key is not greater than its own. */
  function Insert<T>(x: T, s: seq<T>, key: T -> int): (r: seq<T>)
    requires SortedBy(s, key)
    ensures SortedBy(r, key)
    ensures multiset(r) == multiset(s) + multiset{x}
  {
    if s == [] then [x]
    else if key(x) < key(s[0]) then [x] + s
    else
      var t := Insert(x, s[1..], key);
      InsertAfterHead(x, s, t, key);
      [s[0]] + t
  }

  /** The head of a sorted list is not above anything inserted after it. */
  lemma {:induction false} InsertAfterHead<T>(x: T, s: seq<T>, t: seq<T>, key: T -> int)
    requires s != [] && SortedBy(s, key) && key(s[0]) <= key(x)
    requires multiset(t) == multiset(s[1..]) + multiset{x} && SortedBy(t, key)
    ensures SortedBy([s[0]] + t, key)
    ensures multiset([s[0]] + t) == multiset(s) + multiset{x}
  {
    assert s == [s[0]] + s[1..];
    forall k | 0 <= k < |t| ensures key(s[0]) <= key(t[k]) {
      assert t[k] in multiset(t);
      if t[k] != x {
        assert t[k] in multiset(s[1..]);
        var i :| 0 <= i < |s[1..]| && s[1..][i] == t[k];
        assert s[i + 1] == t[k];
      }
    }
  }

  /**
   * A stable sort by `key`: elements are taken left to right and each goes after
   * the elements with an equal key that were already placed.
   */
  function SortBy<T>(s: seq<T>, key: T -> int): (r: seq<T>)
    ensures SortedBy(r, key)
    ensures multiset(r) == multiset(s)
  {
    if s == [] then []
    else
      assert s == s[..|s| - 1] + [s[|s| - 1]];
      Insert(s[|s| - 1], SortBy(s[..|s| - 1], key), key)
  }

  /** The elements whose key is `v`, in their order in `s`. */
  function WithKey<T>(s: seq<T>, key: T -> int, v: int): (r: seq<T>)
    ensures |r| <= |s|
    ensures forall k :: 0 <= k < |r| ==> key(r[k]) == v
  {
    if s == [] then [] else (if key(s[0]) == v then [s[0]] else []) + WithKey(s[1..], key, v)
  }

  lemma {:induction false} WithKeyAppend<T>(a: seq<T>, b: seq<T>, key: T -> int, v: int)
    ensures WithKey(a + b, key, v) == WithKey(a, key, v) + WithKey(b, key, v)
    decreases |a|
  {
    if a == [] {
      assert a + b == b;
    } else {
      assert (a + b)[0] == a[0] && (a + b)[1..] == a[1..] + b;
      WithKeyAppend(a[1..], b, key, v);
    }
  }

  /** A sorted list starting above `v` holds no element of key `v`. */
  lemma {:induction false} NoneWithKey<T>(s: seq<T>, key: T -> int, v: int)
    requires SortedBy(s, key) && (s != [] ==> v < key(s[0]))
    ensures WithKey(s, key, v) == []
    decreases |s|
  {
    if s != [] {
      if |s| > 1 { assert key(s[0]) <= key(s[1]); }
      NoneWithKey(s[1..], key, v);
    }
  }

  /** Inserting `x` puts it after every element of its key already placed, and moves no other element of any key. */
  lemma {:induction false} InsertWithKey<T>(x: T, s: seq<T>, key: T -> int, v: int)
    requires SortedBy(s, key)
    ensures WithKey(Insert(x, s, key), key, v) == WithKey(s, key, v) + (if key(x) == v then [x] else [])
    decreases |s|
  {
    if s == [] {
      WithKeyCons(x, [], key, v);
    } else if key(x) < key(s[0]) {
      assert Insert(x, s, key) == [x] + s;
      hide Insert, WithKey;
      InsertFrontWithKey(x, s, key, v);
    } else {
      assert SortedBy(s[1..], key);
      var t := Insert(x, s[1..], key);
      assert Insert(x, s, key) == [s[0]] + t;
      hide Insert, WithKey, SortedBy;
      InsertWithKey(x, s[1..], key, v);
      InsertBehindWithKey(x, s, t, key, v);
    }
  }

  /** `x` put in front of a sorted list whose keys are all above its own. */
  lemma InsertFrontWithKey<T>(x: T, s: seq<T>, key: T -> int, v: int)
    requires SortedBy(s, key) && s != [] && key(x) < key(s[0])
    ensures WithKey([x] + s, key, v) == WithKey(s, key, v) + (if key(x) == v then [x] else [])
  {
    hide WithKey;
    WithKeyCons(x, s, key, v);
    if key(x) == v {
      NoneWithKey(s, key, v);
    }
  }

  /** `x` placed after the head, given where it goes in the tail. */
  lemma InsertBehindWithKey<T>(x: T, s: seq<T>, t: seq<T>, key: T -> int, v: int)
    requires s != []
    requires WithKey(t, key, v) == WithKey(s[1..], key, v) + (if key(x) == v then [x] else [])
    ensures WithKey([s[0]] + t, key, v) == WithKey(s, key, v) + (if key(x) == v then [x] else [])
  {
    hide WithKey;
    assert s == [s[0]] + s[1..];
    WithKeyCons(s[0], t, key, v);
    WithKeyCons(s[0], s[1..], key, v);
    var h: seq<T> := if key(s[0]) == v then [s[0]] else [];
    ConcatAssoc(h, WithKey(s[1..], key, v), if key(x) == v then [x] else []);
  }

  lemma WithKeyCons<T>(h: T, t: seq<T>, key: T -> int, v: int)
    ensures WithKey([h] + t, key, v) == (if key(h) == v then [h] else []) + WithKey(t, key, v)
  {
    assert ([h] + t)[0] == h && ([h] + t)[1..] == t;
  }

  /**
   * The sort is stable: the elements of any one key come out in the order they
   * came in.
   */
  lemma {:induction false} SortByStable<T>(s: seq<T>, key: T -> int, v: int)
    ensures WithKey(SortBy(s, key), key, v) == WithKey(s, key, v)
    decreases |s|
  {
    if s != [] {
      var init := s[..|s| - 1];
      var last := s[|s| - 1];
      assert s == init + [last];
      SortByStable(init, key, v);
      InsertWithKey(last, SortBy(init, key), key, v);
      WithKeyAppend(init, [last], key, v);
    }
  }

  /** Concatenation regrouped, with the empty sequence as unit on both sides. */
  lemma ConcatAssoc<T>(a: seq<T>, b: seq<T>, c: seq<T>)
    ensures (a + b) + c == a + (b + c) && a + [] == a && [] + c == c
  {
  }

  /** The head and tail of a concatenation with a non-empty left side. */
  lemma ConsConcat<T>(a: seq<T>, b: seq<T>)
    requires a != []
    ensures (a + b)[0] == a[0] && (a + b)[1..] == a[1..] + b
  {
  }

  /** A prefix one longer is the prefix and the next element. */
  lemma PrefixSnoc<T>(a: seq<T>, i: nat)
    requires i < |a|
    ensures a[..i + 1] == a[..i] + [a[i]] && a[..|a|] == a
  {
  }

  /** `splice(i, 1)`: the element at `i` taken out, the later ones shifted down. */
  function RemoveAt<T>(s: seq<T>, i: nat): (r: seq<T>)
    requires i < |s|
    ensures |r| == |s| - 1
    ensures multiset(r) + multiset{s[i]} == multiset(s)
    ensures forall k {:trigger r[k]} :: 0 <= k < i ==> r[k] == s[k]
    ensures forall k {:trigger r[k]} :: i <= k < |r| ==> r[k] == s[k + 1]
  {
    assert s == s[..i] + [s[i]] + s[i + 1..];
    s[..i] + s[i + 1..]
  }

  /** `splice(i, 0, x)`: `x` put in at `i`, the later elements shifted up. */
  function InsertAt<T>(s: seq<T>, i: nat, x: T): (r: seq<T>)
    requires i <= |s|
    ensures |r| == |s| + 1
    ensures multiset(r) == multiset(s) + multiset{x}
    ensures r[i] == x
    ensures forall k {:trigger r[k]} :: 0 <= k < i ==> r[k] == s[k]
    ensures forall k {:trigger r[k]} :: i < k < |r| ==> r[k] == s[k - 1]
  {
    assert s == s[..i] + s[i..];
    s[..i] + [x] + s[i..]
  }

  // ---------------------------------------------------------------- sets of integers

  lemma {:induction false} MinExists(s: set<int>)
    requires s != {}
    ensures exists m :: m in s && forall x :: x in s ==> m <= x
    decreases |s|
  {
    var y := PickOne(s);
    if s != {y} {
      MinExists(s - {y});
      var m :| m in s - {y} && forall x :: x in s - {y} ==> m <= x;
      var best := if y < m then y else m;
      forall x | x in s ensures best <= x {
        if x != y { assert x in s - {y}; }
      }
      assert best in s;
    } else {
      assert forall x :: x in s ==> y <= x;
    }
  }

  lemma {:induction false} MaxExists(s: set<int>)
    requires s != {}
    ensures exists m :: m in s && forall x :: x in s ==> x <= m
    decreases |s|
  {
    var y := PickOne(s);
    if s != {y} {
      MaxExists(s - {y});
      var m :| m in s - {y} && forall x :: x in s - {y} ==> x <= m;
      var best := if y > m then y else m;
      forall x | x in s ensures x <= best {
        if x != y { assert x in s - {y}; }
      }
      assert best in s;
    } else {
      assert forall x :: x in s ==> x <= y;
    }
  }

  lemma PickOne(s: set<int>) returns (y: int)
    requires s != {}
    ensures y in s
  {
    if forall x :: x !in s { assert false; }
    y :| y in s;
  }

  /** `Math.min(...s)`. */
  function SetMin(s: set<int>): (m: int)
    requires s != {}
    ensures m in s && forall x :: x in s ==> m <= x
  {
    MinExists(s);
    var m :| m in s && forall x :: x in s ==> m <= x;
    m
  }

  /** `Math.max(...s)`. */
  function SetMax(s: set<int>): (m: int)
    requires s != {}
    ensures m in s && forall x :: x in s ==> x <= m
  {
    MaxExists(s);
    var m :| m in s && forall x :: x in s ==> x <= m;
    m
  }

  predicate StrictlyIncreasing(s: seq<int>) {
    forall i, j :: 0 <= i < j < |s| ==> s[i] < s[j]
  }

  /** The elements of `s` in ascending order. */
  function Ascending(s: set<int>): (r: seq<int>)
    ensures StrictlyIncreasing(r)
    ensures |r| == |s|
    ensures forall x :: x in r <==> x in s
    decreases |s|
  {
    if s == {} then []
    else
      var m := SetMin(s);
      var rest := Ascending(s - {m});
      assert forall k :: 0 <= k < |rest| ==> m < rest[k] by {
        forall k | 0 <= k < |rest| ensures m < rest[k] { assert rest[k] in s - {m}; }
      }
      [m] + rest
  }

  /** The ascending listing starts with the minimum and ends with the maximum. */
  lemma AscendingEnds(s: set<int>)
    requires s != {}
    ensures Ascending(s)[0] == SetMin(s)
    ensures Ascending(s)[|s| - 1] == SetMax(s)
  {
    var r := Ascending(s);
    assert r[0] in s && r[|s| - 1] in s;
    assert forall x :: x in s ==> r[0] <= x by {
      forall x | x in s ensures r[0] <= x { var k :| 0 <= k < |r| && r[k] == x; }
    }
    assert forall x :: x in s ==> x <= r[|s| - 1] by {
      forall x | x in s ensures x <= r[|s| - 1] { var k :| 0 <= k < |r| && r[k] == x; }
    }
  }
}
