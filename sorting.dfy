/** Python's `list.sort(key=...)` and `sorted(..., key=...)`: a stable sort by a real-valued key. */
module Sorting {
  predicate SortedBy<T>(s: seq<T>, key: T -> real) {
    forall i, j :: 0 <= i < j < |s| ==> key(s[i]) <= key(s[j])
  }

  /** Putting an element no greater than any other in front keeps a list sorted. */
  lemma ConsSorted<T>(y: T, s: seq<T>, key: T -> real)
    requires SortedBy(s, key) && forall k :: 0 <= k < |s| ==> key(y) <= key(s[k])
    ensures SortedBy([y] + s, key)
  {
    var r := [y] + s;
    forall i, j | 0 <= i < j < |r|
      ensures key(r[i]) <= key(r[j])
    {
      assert r[j] == s[j - 1];
      if i > 0 {
        assert r[i] == s[i - 1];
      }
    }
  }

  /** Insert x after every element whose key is not greater than x's. */
  function Insert<T>(x: T, s: seq<T>, key: T -> real): (r: seq<T>)
    requires SortedBy(s, key)
    ensures SortedBy(r, key) && multiset(r) == multiset(s) + multiset{x}
  {
    if s == [] then [x]
    else if key(x) < key(s[0]) then
      ConsSorted(x, s, key);
      [x] + s
    else
      assert SortedBy(s[1..], key);
      var rest := Insert(x, s[1..], key);
      assert multiset(s) == multiset{s[0]} + multiset(s[1..]) by {
        assert s == [s[0]] + s[1..];
      }
      assert forall k :: 0 <= k < |rest| ==> key(s[0]) <= key(rest[k]) by {
        forall k | 0 <= k < |rest|
          ensures key(s[0]) <= key(rest[k])
        {
          assert rest[k] in multiset(rest);
        }
      }
      ConsSorted(s[0], rest, key);
      [s[0]] + rest
  }

  /** `sorted(s, key=key)`: the elements of s rearranged so that keys never decrease. */
  function SortBy<T>(s: seq<T>, key: T -> real): (r: seq<T>)
    ensures SortedBy(r, key) && multiset(r) == multiset(s) && |r| == |s|
  {
    if s == [] then []
    else
      var init, last := s[..|s| - 1], s[|s| - 1];
      assert multiset(s) == multiset(init) + multiset{last} by {
        assert s == init + [last];
      }
      Insert(last, SortBy(init, key), key)
  }

  /** Sorting keeps exactly the elements it was given. */
  lemma SortByMembers<T>(s: seq<T>, key: T -> real, x: T)
    ensures x in SortBy(s, key) <==> x in s
  {
    assert x in SortBy(s, key) <==> x in multiset(SortBy(s, key));
    assert x in s <==> x in multiset(s);
  }

  /** A list that is already sorted comes back unchanged: the sort is stable. */
  lemma {:induction false} SortBySorted<T>(s: seq<T>, key: T -> real)
    requires SortedBy(s, key)
    ensures SortBy(s, key) == s
  {
    if s != [] {
      var init, last := s[..|s| - 1], s[|s| - 1];
      assert SortedBy(init, key);
      assert forall k :: 0 <= k < |init| ==> key(init[k]) <= key(last) by {
        forall k | 0 <= k < |init|
          ensures key(init[k]) <= key(last)
        {
          assert init[k] == s[k];
        }
      }
      SortBySorted(init, key);
      InsertAtEnd(last, init, key);
      calc {
        SortBy(s, key);
        Insert(last, SortBy(init, key), key);
        Insert(last, init, key);
        init + [last];
        { assert init + [last] == s; }
        s;
      }
    }
  }

  lemma {:induction false} InsertAtEnd<T>(x: T, s: seq<T>, key: T -> real)
    requires SortedBy(s, key) && forall k :: 0 <= k < |s| ==> key(s[k]) <= key(x)
    ensures Insert(x, s, key) == s + [x]
  {
    if s != [] {
      assert SortedBy(s[1..], key);
      InsertAtEnd(x, s[1..], key);
      assert [s[0]] + (s[1..] + [x]) == s + [x];
    }
  }

  /** The elements of xs whose flag is set, in order: a list built by appending inside an `if`. */
  function Select<T>(xs: seq<T>, flags: seq<bool>): (r: seq<T>)
    requires |xs| == |flags|
    ensures |r| <= |xs|
  {
    if xs == [] then []
    else
      var n := |xs| - 1;
      Select(xs[..n], flags[..n]) + (if flags[n] then [xs[n]] else [])
  }

  /** Examining one more element appends it exactly when its flag is set. */
  lemma SelectStep<T>(xs: seq<T>, flags: seq<bool>, i: int)
    requires |xs| == |flags| && 0 <= i < |xs|
    ensures Select(xs[..i + 1], flags[..i + 1]) == Select(xs[..i], flags[..i]) + (if flags[i] then [xs[i]] else [])
  {
    assert xs[..i + 1][..i] == xs[..i];
    assert flags[..i + 1][..i] == flags[..i];
  }

  /** An element is selected exactly when it sits at a flagged position. */
  lemma {:induction false} SelectMembers<T>(xs: seq<T>, flags: seq<bool>, x: T)
    requires |xs| == |flags|
    ensures x in Select(xs, flags) <==> exists i :: 0 <= i < |xs| && flags[i] && xs[i] == x
  {
    if xs != [] {
      var n := |xs| - 1;
      SelectMembers(xs[..n], flags[..n], x);
      if x in Select(xs, flags) && x !in Select(xs[..n], flags[..n]) {
        assert flags[n] && xs[n] == x;
      }
      if exists i :: 0 <= i < |xs| && flags[i] && xs[i] == x {
        var i :| 0 <= i < |xs| && flags[i] && xs[i] == x;
        if i < n {
          assert xs[..n][i] == x && flags[..n][i];
        }
      }
    }
  }

  /** Filtering keeps the order of a list already ordered by a key. */
  lemma {:induction false} SelectSorted<T>(xs: seq<T>, flags: seq<bool>, key: T -> real)
    requires |xs| == |flags| && SortedBy(xs, key)
    ensures SortedBy(Select(xs, flags), key)
  {
    if xs != [] {
      var n := |xs| - 1;
      assert SortedBy(xs[..n], key);
      SelectSorted(xs[..n], flags[..n], key);
      var p := Select(xs[..n], flags[..n]);
      if flags[n] {
        forall k | 0 <= k < |p|
          ensures key(p[k]) <= key(xs[n])
        {
          SelectMembers(xs[..n], flags[..n], p[k]);
          var i :| 0 <= i < n && flags[..n][i] && xs[..n][i] == p[k];
        }
        assert Select(xs, flags) == p + [xs[n]];
      }
    }
  }

  /**
   * Filtering then sorting by a key: the result is ordered by the key, holds
   * only flagged elements, and holds every flagged element.
   */
  lemma SortedSelection<T>(xs: seq<T>, flags: seq<bool>, key: T -> real)
    requires |xs| == |flags|
    ensures var r := SortBy(Select(xs, flags), key);
      |r| <= |xs| && SortedBy(r, key)
      && (forall x :: x in r ==> exists i :: 0 <= i < |xs| && flags[i] && xs[i] == x)
      && (forall i :: 0 <= i < |xs| && flags[i] ==> xs[i] in r)
  {
    var s := Select(xs, flags);
    forall x | x in SortBy(s, key)
      ensures exists i :: 0 <= i < |xs| && flags[i] && xs[i] == x
    {
      SortByMembers(s, key, x);
      SelectMembers(xs, flags, x);
    }
    forall i | 0 <= i < |xs| && flags[i]
      ensures xs[i] in SortBy(s, key)
    {
      SelectMembers(xs, flags, xs[i]);
      SortByMembers(s, key, xs[i]);
    }
  }
  /** `[f(x) for x in s]`. */
  function Map<A, B>(f: A -> B, s: seq<A>): (r: seq<B>)
    ensures |r| == |s| && forall i :: 0 <= i < |s| ==> r[i] == f(s[i])
  {
    seq(|s|, i requires 0 <= i < |s| => f(s[i]))
  }

  /** Filtering commutes with rewriting every element. */
  lemma {:induction false} SelectMap<A, B>(f: A -> B, xs: seq<A>, flags: seq<bool>)
    requires |xs| == |flags|
    ensures Select(Map(f, xs), flags) == Map(f, Select(xs, flags))
  {
    if xs != [] {
      var n := |xs| - 1;
      assert Map(f, xs)[..n] == Map(f, xs[..n]);
      SelectMap(f, xs[..n], flags[..n]);
    }
  }

  /** Rewriting keeps a list sorted when the keys agree. */
  lemma MapSorted<A, B>(f: A -> B, s: seq<A>, key: A -> real, key': B -> real)
    requires SortedBy(s, key) && forall a :: key'(f(a)) == key(a)
    ensures SortedBy(Map(f, s), key')
  {
  }

  /** Rewriting a list with a head rewrites the head and then the rest. */
  lemma MapCons<A, B>(f: A -> B, y: A, t: seq<A>)
    ensures Map(f, [y] + t) == [f(y)] + Map(f, t)
  {
    var l, r := Map(f, [y] + t), [f(y)] + Map(f, t);
    forall i | 0 <= i < |l|
      ensures l[i] == r[i]
    {
      if i > 0 {
        assert ([y] + t)[i] == t[i - 1];
      }
    }
  }

  /** Rewriting commutes with dropping the head. */
  lemma MapTail<A, B>(f: A -> B, s: seq<A>)
    requires s != []
    ensures Map(f, s)[1..] == Map(f, s[1..]) && Map(f, s)[0] == f(s[0])
  {
  }

  /** Inserting the rewritten element under a key that reads the rewritten value the same way. */
  lemma {:induction false} InsertMap<A, B>(f: A -> B, x: A, s: seq<A>, key: A -> real, key': B -> real)
    requires SortedBy(s, key) && SortedBy(Map(f, s), key') && forall a :: key'(f(a)) == key(a)
    ensures Insert(f(x), Map(f, s), key') == Map(f, Insert(x, s, key))
  {
    var fs := Map(f, s);
    if s != [] {
      MapTail(f, s);
      assert SortedBy(s[1..], key) && SortedBy(fs[1..], key');
      InsertMap(f, x, s[1..], key, key');
      assert key'(f(x)) == key(x) && key'(fs[0]) == key(s[0]);
      if key(x) < key(s[0]) {
        calc {
          Map(f, Insert(x, s, key));
          Map(f, [x] + s);
          { MapCons(f, x, s); }
          [f(x)] + fs;
          Insert(f(x), fs, key');
        }
      } else {
        var rest := Insert(x, s[1..], key);
        calc {
          Map(f, Insert(x, s, key));
          Map(f, [s[0]] + rest);
          { MapCons(f, s[0], rest); }
          [fs[0]] + Map(f, rest);
          [fs[0]] + Insert(f(x), fs[1..], key');
          Insert(f(x), fs, key');
        }
      }
    }
  }

  /** Sorting commutes with rewriting every element when the keys agree. */
  lemma {:induction false} SortByMap<A, B>(f: A -> B, s: seq<A>, key: A -> real, key': B -> real)
    requires forall a :: key'(f(a)) == key(a)
    ensures SortBy(Map(f, s), key') == Map(f, SortBy(s, key))
  {
    if s != [] {
      var n := |s| - 1;
      SortByMap(f, s[..n], key, key');
      assert Map(f, s)[..n] == Map(f, s[..n]);
      MapSorted(f, SortBy(s[..n], key), key, key');
      InsertMap(f, s[n], SortBy(s[..n], key), key, key');
    }
  }
}
