/** The ordering sort.Slice produces, as an insertion sort by a key, with
    what it promises: the result is ordered and holds the same elements. */
module Sorting {
  import opened Bytes


  /** Insertion into a sequence ordered by `key`: before the first element
      whose key is not below its own. */
  function Insert<T>(key: T -> Bytes, x: T, t: seq<T>): seq<T> {
    if t == [] || LessEq(key(x), key(t[0])) then [x] + t else [t[0]] + Insert(key, x, t[1..])
  }

  /** The ordering sort.Slice produces with a "key below" comparison, as an
      insertion sort. */
  function SortBy<T>(key: T -> Bytes, s: seq<T>): seq<T> {
    if s == [] then [] else Insert(key, s[0], SortBy(key, s[1..]))
  }

  /** No element's key is below an earlier one's. */
  predicate SortedBy<T>(key: T -> Bytes, s: seq<T>) {
    forall i, j :: 0 <= i < j < |s| ==> LessEq(key(s[i]), key(s[j]))
  }

  /** An element whose key no later key is below, put in front of a sorted
      sequence, keeps it sorted. */
  lemma SortedCons<T>(key: T -> Bytes, h: T, v: seq<T>)
    requires SortedBy(key, v)
    requires forall e :: e in v ==> LessEq(key(h), key(e))
    ensures SortedBy(key, [h] + v)
  {
    var u := [h] + v;
    forall i, j | 0 <= i < j < |u| ensures LessEq(key(u[i]), key(u[j])) {
      assert u[j] == v[j - 1];
      if i > 0 {
        assert u[i] == v[i - 1];
      }
    }
  }

  /** Insertion adds exactly the one element. */
  lemma {:induction false} InsertMembers<T>(key: T -> Bytes, x: T, t: seq<T>)
    ensures multiset(Insert(key, x, t)) == multiset(t) + multiset{x}
  {
    if t == [] || LessEq(key(x), key(t[0])) {
      assert Insert(key, x, t)[1..] == t;
    } else {
      var rest := t[1..];
      InsertMembers(key, x, rest);
      assert Insert(key, x, t) == [t[0]] + Insert(key, x, rest);
      assert t == [t[0]] + rest;
    }
  }

  lemma {:induction false} InsertSorted<T>(key: T -> Bytes, x: T, t: seq<T>)
    requires SortedBy(key, t)
    ensures SortedBy(key, Insert(key, x, t))
  {
    if t == [] || LessEq(key(x), key(t[0])) {
      forall e | e in t ensures LessEq(key(x), key(e)) {
        var k :| 0 <= k < |t| && t[k] == e;
        if k > 0 {
          LessTransitive(key(x), key(t[0]), key(e));
        }
      }
      SortedCons(key, x, t);
    } else {
      var rest := t[1..];
      assert SortedBy(key, rest) by {
        forall i, j | 0 <= i < j < |rest| ensures LessEq(key(rest[i]), key(rest[j])) {
          assert rest[i] == t[i + 1] && rest[j] == t[j + 1];
        }
      }
      InsertSorted(key, x, rest);
      InsertMembers(key, x, rest);
      var v := Insert(key, x, rest);
      LessTotal(key(x), key(t[0]));
      forall e | e in v ensures LessEq(key(t[0]), key(e)) {
        assert e in multiset(v);
        if e != x {
          assert e in multiset(rest);
          var k :| 0 <= k < |rest| && rest[k] == e;
          assert t[k + 1] == e;
        }
      }
      SortedCons(key, t[0], v);
    }
  }

  lemma {:induction false} SortMembers<T>(key: T -> Bytes, s: seq<T>)
    ensures multiset(SortBy(key, s)) == multiset(s)
  {
    if s != [] {
      var sorted := SortBy(key, s[1..]);
      SortMembers(key, s[1..]);
      InsertMembers(key, s[0], sorted);
      assert SortBy(key, s) == Insert(key, s[0], sorted);
      assert s == [s[0]] + s[1..];
      assert multiset(s) == multiset{s[0]} + multiset(s[1..]);
    }
  }

  lemma {:induction false} SortSorted<T>(key: T -> Bytes, s: seq<T>)
    ensures SortedBy(key, SortBy(key, s))
  {
    if s != [] {
      SortSorted(key, s[1..]);
      InsertSorted(key, s[0], SortBy(key, s[1..]));
    }
  }

  /** The sort orders by key and keeps exactly the elements it was given. */
  lemma SortFacts<T>(key: T -> Bytes, s: seq<T>)
    ensures SortedBy(key, SortBy(key, s))
    ensures multiset(SortBy(key, s)) == multiset(s)
    ensures forall e :: e in SortBy(key, s) <==> e in s
    ensures |SortBy(key, s)| == |s|
  {
    SortSorted(key, s);
    SortKeeps(key, s);
  }

  /** The sort keeps the elements and the length. */
  lemma SortKeeps<T>(key: T -> Bytes, s: seq<T>)
    ensures multiset(SortBy(key, s)) == multiset(s)
    ensures forall e :: e in SortBy(key, s) <==> e in s
    ensures |SortBy(key, s)| == |s|
  {
    SortMembers(key, s);
    assert |multiset(SortBy(key, s))| == |multiset(s)|;
    forall e ensures e in SortBy(key, s) <==> e in s {
      assert e in SortBy(key, s) <==> e in multiset(SortBy(key, s));
      assert e in s <==> e in multiset(s);
    }
  }
}
