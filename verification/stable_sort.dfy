/**
 A stable sort by an integer key, as Python's `sorted(xs, key=...)` is:
 the result is ordered by key and elements with equal keys keep the order
 they had in the input. Written as an insertion sort.
 */
module StableSort {

  /** `s` is ordered non-decreasingly by `key`. */
  ghost predicate SortedBy<T>(s: seq<T>, key: T -> int) {
    forall i, j :: 0 <= i < j < |s| ==> key(s[i]) <= key(s[j])
  }

  /** The elements of `s` whose key is `k`, in the order they occur in `s`. */
  function KeyClass<T>(s: seq<T>, key: T -> int, k: int): seq<T> {
    if |s| == 0 then []
    else (if key(s[0]) == k then [s[0]] else []) + KeyClass(s[1..], key, k)
  }

  /** `t` lists every run of equal keys in the same order as `s` does: this
      is what "stable" means for a sort. */
  ghost predicate SameKeyClasses<T>(t: seq<T>, s: seq<T>, key: T -> int) {
    forall k :: KeyClass(t, key, k) == KeyClass(s, key, k)
  }

  /** `t` is a stable sort of `s`: a permutation of `s`, ordered by key, with
      equal keys in input order. */
  ghost predicate IsStableSortOf<T>(t: seq<T>, s: seq<T>, key: T -> int) {
    && multiset(t) == multiset(s)
    && SortedBy(t, key)
    && SameKeyClasses(t, s, key)
  }

  lemma {:induction false} KeyClassConcat<T>(a: seq<T>, b: seq<T>, key: T -> int, k: int)
    ensures KeyClass(a + b, key, k) == KeyClass(a, key, k) + KeyClass(b, key, k)
  {
    if |a| == 0 {
      assert a + b == b;
    } else {
      KeyClassConcat(a[1..], b, key, k);
      assert a + b == [a[0]] + (a[1..] + b);
      assert a == [a[0]] + a[1..];
      KeyClassCons(a[0], a[1..] + b, key, k);
      KeyClassCons(a[0], a[1..], key, k);
    }
  }

  lemma KeyClassMember<T>(s: seq<T>, key: T -> int, k: int, x: T)
    requires x in KeyClass(s, key, k)
    ensures x in s && key(x) == k
  {
    if |s| > 0 && x != s[0] {
      KeyClassMember(s[1..], key, k, x);
    }
  }

  /** The key class of a sequence with a known head. */
  lemma KeyClassCons<T>(x: T, s: seq<T>, key: T -> int, k: int)
    ensures KeyClass([x] + s, key, k) == (if key(x) == k then [x] else []) + KeyClass(s, key, k)
  {
    assert ([x] + s)[1..] == s;
  }

  /** Inserts `x` into the sorted `s` before the first element whose key is
      not smaller than its own. */
  function Insert<T>(x: T, s: seq<T>, key: T -> int): (r: seq<T>)
    requires SortedBy(s, key)
    ensures SortedBy(r, key)
    ensures multiset(r) == multiset{x} + multiset(s)
    ensures forall k :: KeyClass(r, key, k) == KeyClass([x] + s, key, k)
  {
    if |s| == 0 then [x]
    else if key(x) <= key(s[0]) then [x] + s
    else
      var t := Insert(x, s[1..], key);
      InsertStepSorted(x, s, key, t);
      InsertStepClasses(x, s, key, t);
      assert s == [s[0]] + s[1..];
      [s[0]] + t
  }

  /** The recursive case of `Insert` keeps the order: the head of `s` is
      below `x` and below everything in `s`'s tail. */
  lemma InsertStepSorted<T>(x: T, s: seq<T>, key: T -> int, t: seq<T>)
    requires SortedBy(s, key) && |s| > 0 && key(s[0]) < key(x)
    requires SortedBy(t, key)
    requires multiset(t) == multiset{x} + multiset(s[1..])
    ensures SortedBy([s[0]] + t, key)
  {
    forall j | 0 <= j < |t|
      ensures key(s[0]) <= key(t[j])
    {
      assert t[j] in multiset(t);
      if t[j] != x {
        assert t[j] in multiset(s[1..]);
        var i :| 0 <= i < |s[1..]| && s[1..][i] == t[j];
        assert s[i + 1] == t[j];
      }
    }
    var r := [s[0]] + t;
    forall i, j | 0 <= i < j < |r|
      ensures key(r[i]) <= key(r[j])
    {
      if i > 0 {
        assert r[i] == t[i - 1] && r[j] == t[j - 1];
      } else {
        assert r[j] == t[j - 1];
      }
    }
  }

  /** The recursive case of `Insert` keeps the key classes: `s[0]` and `x`
      have different keys, so their relative order does not matter. */
  lemma InsertStepClasses<T>(x: T, s: seq<T>, key: T -> int, t: seq<T>)
    requires |s| > 0 && key(s[0]) < key(x)
    requires forall k :: KeyClass(t, key, k) == KeyClass([x] + s[1..], key, k)
    ensures forall k :: KeyClass([s[0]] + t, key, k) == KeyClass([x] + s, key, k)
  {
    forall k
      ensures KeyClass([s[0]] + t, key, k) == KeyClass([x] + s, key, k)
    {
      InsertStepClass(x, s[0], s[1..], key, t, k);
      assert s == [s[0]] + s[1..];
    }
  }

  lemma InsertStepClass<T>(x: T, s0: T, s1: seq<T>, key: T -> int, t: seq<T>, k: int)
    requires key(s0) < key(x)
    requires KeyClass(t, key, k) == KeyClass([x] + s1, key, k)
    ensures KeyClass([s0] + t, key, k) == KeyClass([x] + ([s0] + s1), key, k)
  {
    var c0: seq<T> := if key(s0) == k then [s0] else [];
    var cx: seq<T> := if key(x) == k then [x] else [];
    var rest := KeyClass(s1, key, k);
    assert c0 + cx == cx + c0;
    KeyClassCons(s0, t, key, k);
    KeyClassCons(x, s1, key, k);
    KeyClassCons(x, [s0] + s1, key, k);
    KeyClassCons(s0, s1, key, k);
    assert c0 + (cx + rest) == cx + (c0 + rest);
  }

  /** Insertion sort: sorts the tail, then inserts the head in front of every
      element with an equal key, which keeps equal keys in input order. */
  function Sort<T>(s: seq<T>, key: T -> int): (r: seq<T>)
    ensures IsStableSortOf(r, s, key)
  {
    if |s| == 0 then []
    else
      var t := Sort(s[1..], key);
      assert s == [s[0]] + s[1..];
      var r := Insert(s[0], t, key);
      assert forall k :: KeyClass(r, key, k) == KeyClass(s, key, k) by {
        forall k
          ensures KeyClass(r, key, k) == KeyClass(s, key, k)
        {
          KeyClassConcat([s[0]], t, key, k);
          KeyClassConcat([s[0]], s[1..], key, k);
        }
      }
      r
  }

  /** Two key-sorted sequences that agree on every key class are equal. */
  lemma {:induction false} SortedSameClassesEqual<T>(a: seq<T>, b: seq<T>, key: T -> int)
    requires SortedBy(a, key) && SortedBy(b, key)
    requires SameKeyClasses(a, b, key)
    ensures a == b
  {
    if |a| == 0 || |b| == 0 {
      if |a| > 0 {
        assert a == [a[0]] + a[1..];
        KeyClassCons(a[0], a[1..], key, key(a[0]));
      } else if |b| > 0 {
        assert b == [b[0]] + b[1..];
        KeyClassCons(b[0], b[1..], key, key(b[0]));
      }
    } else {
      var ka, kb := key(a[0]), key(b[0]);
      assert a[0] in KeyClass(b, key, ka) by {
        assert KeyClass(a, key, ka)[0] == a[0];
      }
      KeyClassMember(b, key, ka, a[0]);
      assert b[0] in KeyClass(a, key, kb) by {
        assert KeyClass(b, key, kb)[0] == b[0];
      }
      KeyClassMember(a, key, kb, b[0]);
      assert kb <= ka by {
        var j :| 0 <= j < |b| && b[j] == a[0];
      }
      assert ka <= kb by {
        var j :| 0 <= j < |a| && a[j] == b[0];
      }
      assert a[0] == b[0] by {
        assert KeyClass(a, key, ka)[0] == a[0];
        assert KeyClass(b, key, ka)[0] == b[0];
      }
      forall k
        ensures KeyClass(a[1..], key, k) == KeyClass(b[1..], key, k)
      {
        var h := if ka == k then [a[0]] else [];
        assert KeyClass(a, key, k) == KeyClass(b, key, k);
        KeyClassCons(a[0], a[1..], key, k);
        KeyClassCons(b[0], b[1..], key, k);
        assert a == [a[0]] + a[1..];
        assert b == [b[0]] + b[1..];
        assert (h + KeyClass(a[1..], key, k))[|h|..] == KeyClass(a[1..], key, k);
        assert (h + KeyClass(b[1..], key, k))[|h|..] == KeyClass(b[1..], key, k);
      }
      SortedSameClassesEqual(a[1..], b[1..], key);
      assert a == [a[0]] + a[1..];
      assert b == [b[0]] + b[1..];
    }
  }

  /** `Sort` is the only stable sort: a sequence is a stable sort of `s`
      exactly when it equals `Sort(s, key)`. */
  lemma StableSortUnique<T>(t: seq<T>, s: seq<T>, key: T -> int)
    ensures IsStableSortOf(t, s, key) <==> t == Sort(s, key)
  {
    if IsStableSortOf(t, s, key) {
      var r := Sort(s, key);
      forall k
        ensures KeyClass(t, key, k) == KeyClass(r, key, k)
      {
        assert KeyClass(t, key, k) == KeyClass(s, key, k);
      }
      SortedSameClassesEqual(t, r, key);
    }
  }

  /** Within `s`, an element is determined by its key. */
  ghost predicate KeyDetermines<T>(s: seq<T>, key: T -> int) {
    forall x, y :: x in s && y in s && key(x) == key(y) ==> x == y
  }

  /** Two key-sorted permutations of each other are equal when keys
      determine elements: there are no ties a stable sort would have to break. */
  lemma {:induction false} SortedPermutationsEqual<T>(a: seq<T>, b: seq<T>, key: T -> int)
    requires SortedBy(a, key) && SortedBy(b, key)
    requires multiset(a) == multiset(b)
    requires KeyDetermines(a, key)
    ensures a == b
  {
    if |a| == 0 {
      assert |b| == |multiset(b)| == 0;
    } else {
      SortedPermutationsHead(a, b, key);
      forall x, y | x in a[1..] && y in a[1..] && key(x) == key(y)
        ensures x == y
      {
        assert x in a && y in a;
      }
      SortedPermutationsEqual(a[1..], b[1..], key);
      assert a == [a[0]] + a[1..] && b == [b[0]] + b[1..];
    }
  }

  /** The heads of two such permutations agree, and so do the rest. */
  lemma SortedPermutationsHead<T>(a: seq<T>, b: seq<T>, key: T -> int)
    requires SortedBy(a, key) && SortedBy(b, key)
    requires multiset(a) == multiset(b)
    requires KeyDetermines(a, key)
    requires |a| > 0
    ensures |b| > 0 && b[0] == a[0]
    ensures multiset(a[1..]) == multiset(b[1..])
  {
    assert |b| == |multiset(b)| == |multiset(a)| == |a|;
    assert a[0] in multiset(b) && b[0] in multiset(a);
    var i :| 0 <= i < |b| && b[i] == a[0];
    var j :| 0 <= j < |a| && a[j] == b[0];
    assert key(b[0]) <= key(a[0]) && key(a[0]) <= key(b[0]);
    assert b[0] == a[0];
    assert a == [a[0]] + a[1..] && b == [b[0]] + b[1..];
    assert multiset(a) == multiset{a[0]} + multiset(a[1..]);
    assert multiset(b) == multiset{a[0]} + multiset(b[1..]);
    assert multiset(a[1..]) == multiset(a) - multiset{a[0]};
    assert multiset(b[1..]) == multiset(b) - multiset{a[0]};
  }

  /** When keys determine elements, the sort depends only on the contents of
      its input, not on the order the input lists them in. */
  lemma SortDeterminedByContents<T>(s1: seq<T>, s2: seq<T>, key: T -> int)
    requires multiset(s1) == multiset(s2)
    requires KeyDetermines(s1, key)
    ensures Sort(s1, key) == Sort(s2, key)
  {
    var a, b := Sort(s1, key), Sort(s2, key);
    forall x, y | x in a && y in a && key(x) == key(y)
      ensures x == y
    {
      assert x in multiset(a) && y in multiset(a);
      assert x in s1 && y in s1;
    }
    SortedPermutationsEqual(a, b, key);
  }
}
