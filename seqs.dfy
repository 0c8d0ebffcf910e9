/** `Array.prototype.filter` and `Array.prototype.sort` (on a copy, with a comparator),
    the two list operations every screen is built from. */
module Seqs {
  import opened Text

  /** `a` is `b` with some elements left out, the rest kept in their order. */
  predicate IsSubsequence<T(==,!new)>(a: seq<T>, b: seq<T>)
    decreases |b|
  {
    if a == [] then true
    else if b == [] then false
    else (a[0] == b[0] && IsSubsequence(a[1..], b[1..])) || IsSubsequence(a, b[1..])
  }

  /** `s.filter(p)` */
  function Filter<T(==,!new)>(s: seq<T>, p: T -> bool): (r: seq<T>)
    ensures |r| <= |s|
    ensures forall x :: x in r <==> x in s && p(x)
    ensures multiset(r) <= multiset(s)
  {
    if s == [] then []
    else
      assert s == [s[0]] + s[1..];
      if p(s[0]) then [s[0]] + Filter(s[1..], p) else Filter(s[1..], p)
  }

  lemma {:induction false} SubsequenceOfSelf<T(!new)>(s: seq<T>)
    ensures IsSubsequence(s, s)
  {
    if s != [] {
      SubsequenceOfSelf(s[1..]);
    }
  }

  /** Filtering keeps the surviving elements in their original order. */
  lemma {:induction false} FilterIsSubsequence<T(!new)>(s: seq<T>, p: T -> bool)
    ensures IsSubsequence(Filter(s, p), s)
  {
    if s != [] {
      FilterIsSubsequence(s[1..], p);
      var r := Filter(s, p);
      if p(s[0]) {
        assert r[0] == s[0] && r[1..] == Filter(s[1..], p);
      } else if r != [] {
        assert r == Filter(s[1..], p);
      }
    }
  }

  /** Every element a filter keeps satisfies its predicate, at every position. */
  lemma {:induction false} FilterAllSatisfy<T(!new)>(s: seq<T>, p: T -> bool)
    ensures forall i :: 0 <= i < |Filter(s, p)| ==> p(Filter(s, p)[i])
  {
    var r := Filter(s, p);
    forall i | 0 <= i < |r| ensures p(r[i]) {
      assert r[i] in r;
    }
  }

  /** A filter whose predicate holds everywhere gives its input back. */
  lemma {:induction false} FilterKeepsAll<T(!new)>(s: seq<T>, p: T -> bool)
    requires forall i :: 0 <= i < |s| ==> p(s[i])
    ensures Filter(s, p) == s
  {
    if s != [] {
      FilterKeepsAll(s[1..], p);
      assert p(s[0]);
    }
  }

  /** Filtering twice with the same predicate is filtering once. */
  lemma FilterIdempotent<T(!new)>(s: seq<T>, p: T -> bool)
    ensures Filter(Filter(s, p), p) == Filter(s, p)
  {
    FilterAllSatisfy(s, p);
    FilterKeepsAll(Filter(s, p), p);
  }

  /** Filtering by `p` and by its negation splits `s` into two parts whose counts add up. */
  lemma {:induction false} FilterPartition<T(!new)>(s: seq<T>, p: T -> bool, q: T -> bool)
    requires forall i :: 0 <= i < |s| ==> (q(s[i]) <==> !p(s[i]))
    ensures multiset(Filter(s, p)) + multiset(Filter(s, q)) == multiset(s)
    ensures |Filter(s, p)| + |Filter(s, q)| == |s|
  {
    if s != [] {
      FilterPartition(s[1..], p, q);
      assert s == [s[0]] + s[1..];
    }
  }

  /** A sequence without members is empty. */
  lemma NoMemberEmpty<T>(s: seq<T>)
    requires forall x :: x !in s
    ensures s == []
  {
    forall x ensures multiset(s)[x] == 0 {
      assert x !in s;
    }
    assert multiset(s) == multiset{};
  }

  /** `s.filter(p)` keeps every occurrence of an element `p` accepts and none of the others. */
  lemma {:induction false} FilterCount<T(!new)>(s: seq<T>, p: T -> bool)
    ensures forall x :: multiset(Filter(s, p))[x] == if p(x) then multiset(s)[x] else 0
  {
    if s != [] {
      FilterCount(s[1..], p);
      assert s == [s[0]] + s[1..];
      assert multiset(s) == multiset([s[0]]) + multiset(s[1..]);
    }
  }

  /** How two elements compare under `Array.prototype.sort(comparator)`: by a string key,
      under a collation, in ascending order or (arguments swapped) descending. */
  datatype Comparator<!T> = Comparator(key: T -> string, collation: Collation, descending: bool) {
    function Compare(x: T, y: T): int {
      if descending then Text.Compare(collation, key(y), key(x))
      else Text.Compare(collation, key(x), key(y))
    }
  }

  lemma ComparatorAntisymmetric<T>(c: Comparator<T>, x: T, y: T)
    ensures c.Compare(x, y) == -c.Compare(y, x)
  {
    CompareAntisymmetric(c.collation, c.key(x), c.key(y));
  }

  lemma ComparatorTransitive<T>(c: Comparator<T>, x: T, y: T, z: T)
    requires c.Compare(x, y) <= 0 && c.Compare(y, z) <= 0
    ensures c.Compare(x, z) <= 0
  {
    if c.descending {
      CompareTransitive(c.collation, c.key(z), c.key(y), c.key(x));
    } else {
      CompareTransitive(c.collation, c.key(x), c.key(y), c.key(z));
    }
  }

  /** Every element is in order with every later one. */
  predicate Sorted<T>(s: seq<T>, c: Comparator<T>) {
    forall i, j :: 0 <= i < j < |s| ==> c.Compare(s[i], s[j]) <= 0
  }

  /** Puts `x`, which came before every element of `s`, in front of the first element it
      does not compare greater than: ties keep their original order. */
  function Insert<T(==,!new)>(x: T, s: seq<T>, c: Comparator<T>): (r: seq<T>)
    ensures multiset(r) == multiset(s) + multiset{x}
    ensures |r| == |s| + 1
  {
    if s == [] then [x]
    else if c.Compare(x, s[0]) <= 0 then [x] + s
    else
      assert s == [s[0]] + s[1..];
      [s[0]] + Insert(x, s[1..], c)
  }

  /** `[...s].sort(comparator)`: a stable sort that leaves `s` itself as it was. */
  function SortBy<T(==,!new)>(s: seq<T>, c: Comparator<T>): (r: seq<T>)
    ensures multiset(r) == multiset(s)
    ensures |r| == |s|
  {
    if s == [] then []
    else
      assert s == [s[0]] + s[1..];
      Insert(s[0], SortBy(s[1..], c), c)
  }

  lemma {:induction false} InsertSorted<T(!new)>(x: T, s: seq<T>, c: Comparator<T>)
    requires Sorted(s, c)
    ensures Sorted(Insert(x, s, c), c)
  {
    if s != [] {
      if c.Compare(x, s[0]) <= 0 {
        var r := [x] + s;
        forall i, j | 0 <= i < j < |r| ensures c.Compare(r[i], r[j]) <= 0 {
          if i == 0 && j > 1 {
            ComparatorTransitive(c, x, s[0], s[j - 1]);
          }
        }
      } else {
        InsertSorted(x, s[1..], c);
        ComparatorAntisymmetric(c, x, s[0]);
        var rest := Insert(x, s[1..], c);
        var r := [s[0]] + rest;
        forall i, j | 0 <= i < j < |r| ensures c.Compare(r[i], r[j]) <= 0 {
          if i == 0 {
            var y := rest[j - 1];
            assert y in multiset(rest);
            assert y in multiset(s[1..]) + multiset{x};
            if y != x {
              assert y in s[1..];
              var k :| 0 <= k < |s[1..]| && s[1..][k] == y;
              assert s[k + 1] == y;
            }
          }
        }
      }
    }
  }

  /** The copy is ordered by the comparator. */
  lemma {:induction false} SortBySorted<T(!new)>(s: seq<T>, c: Comparator<T>)
    ensures Sorted(SortBy(s, c), c)
  {
    if s != [] {
      SortBySorted(s[1..], c);
      InsertSorted(s[0], SortBy(s[1..], c), c);
    }
  }

  /** The elements that tie with `z` under the comparator. */
  function TiesWith<T>(c: Comparator<T>, z: T): T -> bool {
    y => c.Compare(y, z) == 0
  }

  /** Inserting `x` adds it, ahead of them, to the elements it ties with, and changes no
      other tie class: `Insert` only steps past elements that come strictly before `x`. */
  lemma {:induction false} InsertTies<T(!new)>(x: T, s: seq<T>, c: Comparator<T>, z: T)
    ensures Filter(Insert(x, s, c), TiesWith(c, z)) ==
      (if c.Compare(x, z) == 0 then [x] else []) + Filter(s, TiesWith(c, z))
  {
    var p := TiesWith(c, z);
    if s == [] {
      assert Insert(x, s, c) == [x];
      assert Filter([x], p) == (if p(x) then [x] else []) + Filter([], p);
    } else if c.Compare(x, s[0]) <= 0 {
      var r := [x] + s;
      assert r[0] == x && r[1..] == s;
    } else {
      InsertTies(x, s[1..], c, z);
      var rest := Insert(x, s[1..], c);
      var r := [s[0]] + rest;
      assert r[0] == s[0] && r[1..] == rest;
      if c.Compare(x, z) == 0 && c.Compare(s[0], z) == 0 {
        ComparatorAntisymmetric(c, s[0], z);
        ComparatorTransitive(c, x, z, s[0]);
        assert false;
      }
    }
  }

  /** The sort is stable: the elements of every tie class keep their input order. */
  lemma {:induction false} SortByStable<T(!new)>(s: seq<T>, c: Comparator<T>, z: T)
    ensures Filter(SortBy(s, c), TiesWith(c, z)) == Filter(s, TiesWith(c, z))
  {
    if s != [] {
      SortByStable(s[1..], c, z);
      InsertTies(s[0], SortBy(s[1..], c), c, z);
    }
  }

  lemma SortByMembers<T(!new)>(s: seq<T>, c: Comparator<T>)
    ensures forall x :: x in SortBy(s, c) <==> x in s
  {
    var r := SortBy(s, c);
    forall x ensures x in r <==> x in s {
      assert x in r <==> x in multiset(r);
      assert x in s <==> x in multiset(s);
    }
  }
}
