/** Sorting by a key. Go's sort.Slice is unstable: it promises some permutation
    in key order and nothing more. What makes the result canonical is that the
    keys are distinct. */
module Sorting {

  predicate SortedBy<T(!new)>(key: T -> int, s: seq<T>) {
    forall i, j :: 0 <= i < j < |s| ==> key(s[i]) <= key(s[j])
  }

  predicate DistinctBy<T(!new)>(key: T -> int, s: seq<T>) {
    forall i, j :: 0 <= i < j < |s| ==> key(s[i]) != key(s[j])
  }

  /** Any answer sort.Slice may give for s. */
  predicate IsSortOf<T(!new, ==)>(key: T -> int, s: seq<T>, out: seq<T>) {
    multiset(out) == multiset(s) && SortedBy(key, out)
  }

  function Insert<T>(key: T -> int, x: T, s: seq<T>): seq<T> {
    if s == [] then [x]
    else if key(x) <= key(s[0]) then [x] + s
    else [s[0]] + Insert(key, x, s[1..])
  }

  function SortBy<T>(key: T -> int, s: seq<T>): seq<T> {
    if s == [] then [] else Insert(key, s[0], SortBy(key, s[1..]))
  }

  lemma ConsSorted<T(!new)>(key: T -> int, h: T, s: seq<T>)
    requires SortedBy(key, s) && forall y :: y in s ==> key(h) <= key(y)
    ensures SortedBy(key, [h] + s)
  {
    var r := [h] + s;
    forall i, j | 0 <= i < j < |r| ensures key(r[i]) <= key(r[j]) {
      assert r[j] == s[j - 1] && r[j] in s;
      if i > 0 {
        assert r[i] == s[i - 1];
      }
    }
  }

  lemma {:induction false} InsertAdds<T>(key: T -> int, x: T, s: seq<T>)
    ensures multiset(Insert(key, x, s)) == multiset(s) + multiset{x}
  {
    if s != [] {
      assert s == [s[0]] + s[1..];
      if key(x) > key(s[0]) {
        InsertAdds(key, x, s[1..]);
      }
    }
  }

  lemma InsertElements<T(!new)>(key: T -> int, x: T, s: seq<T>)
    ensures forall y :: y in Insert(key, x, s) ==> y == x || y in s
  {
    InsertAdds(key, x, s);
    forall y | y in Insert(key, x, s) ensures y == x || y in s {
      assert y in multiset(Insert(key, x, s));
    }
  }

  lemma {:induction false} InsertSorted<T(!new)>(key: T -> int, x: T, s: seq<T>)
    requires SortedBy(key, s)
    ensures SortedBy(key, Insert(key, x, s))
  {
    if s != [] {
      if key(x) <= key(s[0]) {
        ConsSorted(key, x, s);
      } else {
        InsertSorted(key, x, s[1..]);
        InsertElements(key, x, s[1..]);
        ConsSorted(key, s[0], Insert(key, x, s[1..]));
      }
    }
  }

  /** The reference sort is one of the answers sort.Slice may give. */
  lemma {:induction false} SortByIsSort<T(!new)>(key: T -> int, s: seq<T>)
    ensures IsSortOf(key, s, SortBy(key, s))
    ensures |SortBy(key, s)| == |s|
  {
    if s != [] {
      assert s == [s[0]] + s[1..];
      SortByIsSort(key, s[1..]);
      InsertSorted(key, s[0], SortBy(key, s[1..]));
      InsertAdds(key, s[0], SortBy(key, s[1..]));
    }
    SameElements(s, SortBy(key, s));
  }

  lemma SameElements<T(!new)>(s: seq<T>, t: seq<T>)
    requires multiset(s) == multiset(t)
    ensures |s| == |t|
    ensures forall x :: x in s <==> x in t
  {
    assert |s| == |multiset(s)| && |t| == |multiset(t)|;
    forall x ensures x in s <==> x in t {
      assert x in s <==> x in multiset(s);
      assert x in t <==> x in multiset(t);
    }
  }

  /** Distinctness of keys does not depend on the order of the elements. */
  lemma {:induction false} DistinctPermutes<T(!new)>(key: T -> int, s: seq<T>, t: seq<T>)
    requires multiset(s) == multiset(t) && DistinctBy(key, s)
    ensures DistinctBy(key, t)
  {
    SameElements(s, t);
    forall i, j | 0 <= i < j < |t| ensures key(t[i]) != key(t[j]) {
      if key(t[i]) == key(t[j]) {
        assert t[i] in s && t[j] in s;
        var a :| 0 <= a < |s| && s[a] == t[i];
        var b :| 0 <= b < |s| && s[b] == t[j];
        assert a == b;
        TwiceInMultiset(t, i, j);
        OnceInMultiset(s, a);
      }
    }
  }

  lemma TwiceInMultiset<T>(t: seq<T>, i: nat, j: nat)
    requires i < j < |t| && t[i] == t[j]
    ensures multiset(t)[t[i]] >= 2
  {
    assert t == t[..i] + [t[i]] + t[i + 1..j] + [t[j]] + t[j + 1..];
  }

  lemma OnceInMultiset<T>(s: seq<T>, a: nat)
    requires a < |s| && forall k :: 0 <= k < |s| && k != a ==> s[k] != s[a]
    ensures multiset(s)[s[a]] == 1
  {
    assert s == s[..a] + [s[a]] + s[a + 1..];
    assert s[a] !in s[..a] && s[a] !in s[a + 1..];
    assert multiset(s[..a])[s[a]] == 0 && multiset(s[a + 1..])[s[a]] == 0;
  }

  lemma TailMultiset<T>(s: seq<T>)
    requires s != []
    ensures multiset(s[1..]) == multiset(s) - multiset{s[0]}
  {
    assert s == [s[0]] + s[1..];
  }

  /** Both sequences start with the element of least key. */
  lemma SameHead<T(!new)>(key: T -> int, s: seq<T>, t: seq<T>)
    requires multiset(s) == multiset(t) && DistinctBy(key, s) && s != []
    requires SortedBy(key, s) && SortedBy(key, t)
    ensures t != [] && s[0] == t[0]
  {
    SameElements(s, t);
    assert s[0] in t && t[0] in s;
    var a :| 0 <= a < |t| && t[a] == s[0];
    var b :| 0 <= b < |s| && s[b] == t[0];
    assert key(s[0]) <= key(s[b]) && key(t[0]) <= key(t[a]);
  }

  /** With distinct keys every sort of every permutation is the same sequence. */
  lemma {:induction false} SortCanonical<T(!new)>(key: T -> int, s: seq<T>, t: seq<T>)
    requires multiset(s) == multiset(t) && DistinctBy(key, s)
    requires SortedBy(key, s) && SortedBy(key, t)
    ensures s == t
  {
    SameElements(s, t);
    if s != [] {
      SameHead(key, s, t);
      TailMultiset(s);
      TailMultiset(t);
      SortCanonical(key, s[1..], t[1..]);
      assert s == [s[0]] + s[1..] && t == [t[0]] + t[1..];
    }
  }
}
