/**
 * Python's ordering of `str` values (code point by code point, a proper
 * prefix first) and the key sort that a pandas group-by applies to its
 * labels.
 */
module Ordering {

  /** `a <= b` on Python strings. */
  predicate LexLe(a: string, b: string)
    decreases |a|
  {
    if a == [] then true
    else if b == [] then false
    else if a[0] != b[0] then a[0] < b[0]
    else LexLe(a[1..], b[1..])
  }

  lemma {:induction false} LexLeReflexive(a: string)
    ensures LexLe(a, a)
    decreases |a|
  {
    if a != [] {
      LexLeReflexive(a[1..]);
    }
  }

  lemma {:induction false} LexLeTotal(a: string, b: string)
    ensures LexLe(a, b) || LexLe(b, a)
    decreases |a|
  {
    if a != [] && b != [] && a[0] == b[0] {
      LexLeTotal(a[1..], b[1..]);
    }
  }

  lemma {:induction false} LexLeAntisymmetric(a: string, b: string)
    requires LexLe(a, b) && LexLe(b, a)
    ensures a == b
    decreases |a|
  {
    if a != [] && b != [] {
      LexLeAntisymmetric(a[1..], b[1..]);
      assert a == [a[0]] + a[1..] && b == [b[0]] + b[1..];
    }
  }

  lemma {:induction false} LexLeTransitive(a: string, b: string, c: string)
    requires LexLe(a, b) && LexLe(b, c)
    ensures LexLe(a, c)
    decreases |a|
  {
    if a != [] && b != [] && c != [] && a[0] == b[0] && b[0] == c[0] {
      LexLeTransitive(a[1..], b[1..], c[1..]);
    }
  }

  /** A string sorts no later than any of its extensions. */
  lemma {:induction false} LexLePrefix(p: string, s: string)
    ensures LexLe(p, p + s)
    decreases |p|
  {
    if p != [] {
      assert (p + s)[0] == p[0];
      assert (p + s)[1..] == p[1..] + s;
      LexLePrefix(p[1..], s);
    }
  }

  /** A common prefix does not decide the order. */
  lemma {:induction false} LexLeCommonPrefix(p: string, a: string, b: string)
    ensures LexLe(p + a, p + b) == LexLe(a, b)
    decreases |p|
  {
    if p != [] {
      assert (p + a)[0] == p[0] == (p + b)[0];
      assert (p + a)[1..] == p[1..] + a && (p + b)[1..] == p[1..] + b;
      LexLeCommonPrefix(p[1..], a, b);
    } else {
      assert p + a == a && p + b == b;
    }
  }

  predicate Sorted(s: seq<string>) {
    forall i, j :: 0 <= i < j < |s| ==> LexLe(s[i], s[j])
  }

  predicate NoDup<T(==)>(s: seq<T>) {
    forall i, j :: 0 <= i < j < |s| ==> s[i] != s[j]
  }

  /** A sequence is duplicate-free exactly when each of its elements occurs once. */
  lemma {:induction false} NoDupMultiset<T>(s: seq<T>)
    ensures NoDup(s) <==> forall x :: x in multiset(s) ==> multiset(s)[x] == 1
  {
    if s != [] {
      var t := s[1..];
      NoDupMultiset(t);
      assert s == [s[0]] + t;
      assert multiset(s) == multiset{s[0]} + multiset(t);
      if NoDup(s) {
        assert s[0] !in t by {
          forall k | 0 <= k < |t| ensures t[k] != s[0] {
            assert t[k] == s[k + 1];
          }
        }
        assert NoDup(t) by {
          forall i, j | 0 <= i < j < |t| ensures t[i] != t[j] {
            assert t[i] == s[i + 1] && t[j] == s[j + 1];
          }
        }
      }
      if forall x :: x in multiset(s) ==> multiset(s)[x] == 1 {
        assert s[0] in multiset(s);
        assert multiset(t)[s[0]] == 0;
        forall x | x in multiset(t) ensures multiset(t)[x] == 1 {
          assert x in multiset(s);
        }
        forall i, j | 0 <= i < j < |s| ensures s[i] != s[j] {
          if i == 0 {
            assert s[j] in multiset(t);
          } else {
            assert t[i - 1] != t[j - 1];
          }
        }
      }
    }
  }

  /** Inserts `x` in front of the first element that is not smaller. */
  function Insert(x: string, s: seq<string>): (r: seq<string>)
    requires Sorted(s)
    ensures Sorted(r)
    ensures multiset(r) == multiset(s) + multiset{x}
  {
    if s == [] then [x]
    else if LexLe(x, s[0]) then
      assert forall j :: 0 <= j < |s| ==> LexLe(x, s[j]) by {
        forall j | 0 <= j < |s| ensures LexLe(x, s[j]) {
          if j > 0 { LexLeTransitive(x, s[0], s[j]); }
        }
      }
      [x] + s
    else
      var rest := Insert(x, s[1..]);
      assert s == [s[0]] + s[1..];
      assert forall j :: 0 <= j < |rest| ==> LexLe(s[0], rest[j]) by {
        forall j | 0 <= j < |rest| ensures LexLe(s[0], rest[j]) {
          assert rest[j] in multiset(rest);
          if rest[j] == x {
            LexLeTotal(x, s[0]);
          } else {
            assert rest[j] in multiset(s[1..]);
            var k :| 0 <= k < |s[1..]| && s[1..][k] == rest[j];
            assert s[k + 1] == rest[j];
          }
        }
      }
      [s[0]] + rest
  }

  /** Insertion sort by `LexLe`: the row and column order of a pivoted group-by. */
  function Sort(s: seq<string>): (r: seq<string>)
    ensures Sorted(r)
    ensures multiset(r) == multiset(s)
  {
    if s == [] then []
    else
      assert s == [s[0]] + s[1..];
      Insert(s[0], Sort(s[1..]))
  }

  /** Sorting an already sorted sequence leaves it as it is. */
  lemma {:induction false} SortOfSorted(s: seq<string>)
    requires Sorted(s)
    ensures Sort(s) == s
  {
    if s != [] {
      SortOfSorted(s[1..]);
      assert s == [s[0]] + s[1..];
    }
  }

  /** A sorted sequence without duplicates is determined by its elements. */
  lemma {:induction false} SortedUnique(r1: seq<string>, r2: seq<string>)
    requires Sorted(r1) && NoDup(r1) && Sorted(r2) && NoDup(r2)
    requires forall x :: x in r1 <==> x in r2
    ensures r1 == r2
    decreases |r1|
  {
    assert r1 == [] || r1[0] in r1;
    assert r2 == [] || r2[0] in r2;
    if r1 != [] && r2 != [] {
      assert LexLe(r1[0], r2[0]) by { SortedHeadIsLeast(r1, r2[0]); }
      assert LexLe(r2[0], r1[0]) by { SortedHeadIsLeast(r2, r1[0]); }
      LexLeAntisymmetric(r1[0], r2[0]);
      var t1, t2 := r1[1..], r2[1..];
      forall x ensures x in t1 <==> x in t2 {
        if x in t1 {
          var k :| 0 <= k < |t1| && t1[k] == x;
          assert r1[k + 1] == x && x != r1[0];
          assert x in r1 && x in r2;
          var j :| 0 <= j < |r2| && r2[j] == x;
          assert t2[j - 1] == x;
        }
        if x in t2 {
          var k :| 0 <= k < |t2| && t2[k] == x;
          assert r2[k + 1] == x && x != r2[0];
          assert x in r2 && x in r1;
          var j :| 0 <= j < |r1| && r1[j] == x;
          assert t1[j - 1] == x;
        }
      }
      SortedUnique(t1, t2);
      assert r1 == [r1[0]] + t1 && r2 == [r2[0]] + t2;
    }
  }

  /** The head of a sorted sequence is no later than any of its elements. */
  lemma SortedHeadIsLeast(s: seq<string>, x: string)
    requires Sorted(s) && x in s
    ensures LexLe(s[0], x)
  {
    var k :| 0 <= k < |s| && s[k] == x;
    if k == 0 { LexLeReflexive(x); }
  }

  /** Sorting keeps the elements, and with them the absence of duplicates. */
  lemma SortKeepsElements(s: seq<string>)
    ensures forall x :: x in Sort(s) <==> x in s
    ensures NoDup(s) ==> NoDup(Sort(s))
  {
    var r := Sort(s);
    forall x ensures x in r <==> x in s {
      assert x in r <==> x in multiset(r);
      assert x in s <==> x in multiset(s);
    }
    NoDupMultiset(s);
    NoDupMultiset(r);
  }
}
