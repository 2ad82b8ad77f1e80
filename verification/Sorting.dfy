/** Orders, sorting and filtering: what the source takes from its library's sort package.

    Insertion sort stands for the library's sort, which is not stable: callers that need one answer
    sort by a total order that tells members apart.  Strings are ordered character by character,
    and a filter keeps the members that pass, in order.  Duplicate-free lists stand for sets that
    are walked in some order. */
module Sorting {

  ghost predicate TotalOrder<T(!new)>(le: (T, T) -> bool) {
    && (forall a, b :: le(a, b) || le(b, a))
    && (forall a, b, c :: le(a, b) && le(b, c) ==> le(a, c))
  }

  ghost predicate SortedBy<T>(le: (T, T) -> bool, s: seq<T>) {
    forall i, j :: 0 <= i < j < |s| ==> le(s[i], s[j])
  }

  ghost predicate Distinct<T>(s: seq<T>) {
    forall i, j :: 0 <= i < j < |s| ==> s[i] != s[j]
  }

  lemma AroundOne<T>(s: seq<T>, i: nat)
    requires i < |s|
    ensures s[..i + 1] == s[..i] + [s[i]]
    ensures s == s[..i] + [s[i]] + s[i + 1..]
  {
  }

  function Insert<T>(le: (T, T) -> bool, x: T, s: seq<T>): seq<T> {
    if s == [] || le(x, s[0]) then [x] + s else [s[0]] + Insert(le, x, s[1..])
  }

  function Sort<T>(le: (T, T) -> bool, s: seq<T>): seq<T> {
    if s == [] then [] else Insert(le, s[0], Sort(le, s[1..]))
  }

  lemma {:induction false} InsertPermutes<T>(le: (T, T) -> bool, x: T, s: seq<T>)
    ensures multiset(Insert(le, x, s)) == multiset(s) + multiset{x}
  {
    if s != [] && !le(x, s[0]) {
      InsertPermutes(le, x, s[1..]);
      assert s == [s[0]] + s[1..];
    }
  }

  lemma {:induction false} SortPermutes<T>(le: (T, T) -> bool, s: seq<T>)
    ensures multiset(Sort(le, s)) == multiset(s)
  {
    if s != [] {
      SortPermutes(le, s[1..]);
      InsertPermutes(le, s[0], Sort(le, s[1..]));
      assert s == [s[0]] + s[1..];
    }
  }

  lemma {:induction false} InsertSorts<T(!new)>(le: (T, T) -> bool, x: T, s: seq<T>)
    requires TotalOrder(le) && SortedBy(le, s)
    ensures SortedBy(le, Insert(le, x, s))
  {
    if s != [] && !le(x, s[0]) {
      InsertSorts(le, x, s[1..]);
      InsertPermutes(le, x, s[1..]);
      var rest := Insert(le, x, s[1..]);
      forall j | 0 <= j < |rest| ensures le(s[0], rest[j]) {
        assert rest[j] in multiset(rest);
        assert rest[j] == x || rest[j] in s[1..];
      }
    }
  }

  lemma {:induction false} SortSorts<T(!new)>(le: (T, T) -> bool, s: seq<T>)
    requires TotalOrder(le)
    ensures SortedBy(le, Sort(le, s))
  {
    if s != [] {
      SortSorts(le, s[1..]);
      InsertSorts(le, s[0], Sort(le, s[1..]));
    }
  }

  lemma SamePermutation<T>(a: seq<T>, b: seq<T>)
    requires multiset(a) == multiset(b)
    ensures |a| == |b| && (forall x :: x in a <==> x in b) && (Distinct(a) ==> Distinct(b))
  {
    assert |multiset(a)| == |a| && |multiset(b)| == |b|;
    assert forall x :: x in a <==> x in multiset(a);
    assert forall x :: x in b <==> x in multiset(b);
    if Distinct(a) {
      forall i, j | 0 <= i < j < |b| ensures b[i] != b[j] {
        if b[i] == b[j] {
          Twice(b, i, j);
          Once(a, b[i]);
        }
      }
    }
  }

  lemma Twice<T>(s: seq<T>, i: nat, j: nat)
    requires i < j < |s| && s[i] == s[j]
    ensures multiset(s)[s[i]] >= 2
  {
    assert s == s[..j] + [s[j]] + s[j + 1..];
    assert s[i] in s[..j];
  }

  lemma {:induction false} Once<T>(s: seq<T>, x: T)
    requires Distinct(s)
    ensures multiset(s)[x] <= 1
  {
    if s != [] {
      Once(s[1..], x);
      assert s == [s[0]] + s[1..];
      if s[0] == x {
        assert x !in s[1..];
      }
    }
  }

  /** Sorting a duplicate-free list keeps it duplicate-free and keeps its members. */
  lemma SortKeeps<T>(le: (T, T) -> bool, s: seq<T>)
    ensures |Sort(le, s)| == |s|
    ensures forall x :: x in Sort(le, s) <==> x in s
    ensures Distinct(s) ==> Distinct(Sort(le, s))
  {
    SortPermutes(le, s);
    SamePermutation(s, Sort(le, s));
  }

  /** With distinct keys, a sorted list is determined by its members: the order in which the
      source's maps are walked cannot show. */
  lemma {:induction false} SortedListsAgree<T(!new)>(le: (T, T) -> bool, a: seq<T>, b: seq<T>)
    requires TotalOrder(le) && SortedBy(le, a) && SortedBy(le, b) && Distinct(a) && Distinct(b)
    requires forall x :: x in a <==> x in b
    requires forall x, y :: x in a && y in a && le(x, y) && le(y, x) ==> x == y
    ensures a == b
  {
    assert b == [] || b[0] in b;
    if a != [] {
      assert a[0] in b && b[0] in a;
      assert le(a[0], b[0]) && le(b[0], a[0]);
      forall x ensures x in a[1..] <==> x in b[1..] {
        assert x in a[1..] <==> x in a && x != a[0];
        assert x in b[1..] <==> x in b && x != b[0];
      }
      SortedListsAgree(le, a[1..], b[1..]);
      assert a == [a[0]] + a[1..] && b == [b[0]] + b[1..];
    }
  }

  lemma DistinctAppend<T>(a: seq<T>, b: seq<T>)
    requires Distinct(a) && Distinct(b) && forall x :: x in b ==> x !in a
    ensures Distinct(a + b)
  {
    forall i, j | 0 <= i < j < |a + b| ensures (a + b)[i] != (a + b)[j] {
      assert i < |a| ==> a[i] in a;
      assert j >= |a| ==> b[j - |a|] in b;
    }
  }

  /** The members that pass, in order. */
  function Filter<T>(s: seq<T>, keep: T -> bool): seq<T> {
    if s == [] then []
    else
      var x := s[|s| - 1];
      Filter(s[..|s| - 1], keep) + if keep(x) then [x] else []
  }

  lemma {:induction false} FilterMembers<T>(s: seq<T>, keep: T -> bool)
    ensures forall x :: x in Filter(s, keep) <==> x in s && keep(x)
    ensures |Filter(s, keep)| <= |s|
  {
    if s != [] {
      FilterMembers(s[..|s| - 1], keep);
      assert s == s[..|s| - 1] + [s[|s| - 1]];
    }
  }

  /** Whatever holds between earlier and later members still holds after filtering. */
  lemma {:induction false} FilterKeepsPairs<T(!new)>(s: seq<T>, keep: T -> bool, rel: (T, T) -> bool)
    requires SortedBy(rel, s)
    ensures SortedBy(rel, Filter(s, keep))
  {
    if s != [] {
      var init := s[..|s| - 1];
      FilterKeepsPairs(init, keep, rel);
      FilterMembers(init, keep);
      var f := Filter(init, keep);
      forall k | 0 <= k < |f| ensures rel(f[k], s[|s| - 1]) {
        assert f[k] in init;
        var i :| 0 <= i < |init| && init[i] == f[k];
        assert s[i] == f[k];
      }
      var last := if keep(s[|s| - 1]) then [s[|s| - 1]] else [];
      assert Filter(s, keep) == f + last;
    }
  }

  lemma FilterKeepsDistinct<T(!new)>(s: seq<T>, keep: T -> bool)
    requires Distinct(s)
    ensures Distinct(Filter(s, keep))
  {
    var differ := (x: T, y: T) => x != y;
    assert SortedBy(differ, s);
    FilterKeepsPairs(s, keep, differ);
    var f := Filter(s, keep);
    assert forall i, j :: 0 <= i < j < |f| ==> differ(f[i], f[j]);
  }

  lemma FilterStep<T>(s: seq<T>, i: nat, keep: T -> bool)
    requires i < |s|
    ensures Filter(s[..i + 1], keep) == Filter(s[..i], keep) + if keep(s[i]) then [s[i]] else []
  {
    assert s[..i + 1][..i] == s[..i];
  }

  lemma {:induction false} FilterPrefix<T>(s: seq<T>, i: nat, keep: T -> bool)
    requires i <= |s|
    ensures Filter(s[..i], keep) <= Filter(s, keep)
    decreases |s|
  {
    if i < |s| {
      assert s[..|s| - 1][..i] == s[..i];
      FilterPrefix(s[..|s| - 1], i, keep);
    } else {
      assert s[..i] == s;
    }
  }

  lemma {:induction false} FilterPartition<T(!new)>(s: seq<T>, yes: T -> bool, no: T -> bool)
    requires forall x :: no(x) <==> !yes(x)
    ensures |Filter(s, yes)| + |Filter(s, no)| == |s|
  {
    if s != [] {
      FilterPartition(s[..|s| - 1], yes, no);
    }
  }

  lemma {:induction false} NonePasses<T>(s: seq<T>, keep: T -> bool)
    requires forall i :: 0 <= i < |s| ==> !keep(s[i])
    ensures Filter(s, keep) == []
  {
    if s != [] {
      NonePasses(s[..|s| - 1], keep);
    }
  }

  /** A list whose passing members all come first is its own partition. */
  lemma {:induction false} PartitionOfSorted<T(!new)>(s: seq<T>, yes: T -> bool, no: T -> bool)
    requires forall x :: no(x) <==> !yes(x)
    requires forall i, j :: 0 <= i < j < |s| && yes(s[j]) ==> yes(s[i])
    ensures Filter(s, yes) + Filter(s, no) == s
  {
    if s != [] {
      var init, last := s[..|s| - 1], s[|s| - 1];
      PartitionOfSorted(init, yes, no);
      if yes(last) {
        assert forall k :: 0 <= k < |init| ==> init[k] == s[k];
        NonePasses(init, no);
      }
      assert s == init + [last];
    }
  }

  /** The first n members, or all of them. */
  function Cut<T>(s: seq<T>, n: nat): seq<T> {
    if |s| > n then s[..n] else s
  }

  lemma CutKeepsSmallest<T>(le: (T, T) -> bool, s: seq<T>, n: nat, x: T, y: T)
    requires SortedBy(le, s)
    requires x in Cut(s, n) && y in s && y !in Cut(s, n)
    ensures |Cut(s, n)| == n && le(x, y)
  {
    var i :| 0 <= i < |Cut(s, n)| && s[i] == x;
    var j :| 0 <= j < |s| && s[j] == y;
    assert forall k :: 0 <= k < |Cut(s, n)| ==> s[k] == Cut(s, n)[k] && s[k] in Cut(s, n);
  }

  /** Lexicographic string order. */
  predicate StrLe(a: string, b: string) {
    if a == "" then true
    else if b == "" then false
    else if a[0] != b[0] then a[0] < b[0]
    else StrLe(a[1..], b[1..])
  }

  lemma {:induction false} StrLeTotal(a: string, b: string)
    ensures StrLe(a, b) || StrLe(b, a)
    ensures StrLe(a, b) && StrLe(b, a) ==> a == b
  {
    if a != "" && b != "" && a[0] == b[0] {
      StrLeTotal(a[1..], b[1..]);
      assert a == [a[0]] + a[1..] && b == [b[0]] + b[1..];
    }
  }

  lemma {:induction false} StrLeTransitive(a: string, b: string, c: string)
    requires StrLe(a, b) && StrLe(b, c)
    ensures StrLe(a, c)
  {
    if a != "" && b != "" && c != "" && a[0] == b[0] == c[0] {
      StrLeTransitive(a[1..], b[1..], c[1..]);
    }
  }

  lemma StrLeIsTotalOrder()
    ensures TotalOrder(StrLe)
  {
    forall a, b ensures StrLe(a, b) || StrLe(b, a) {
      StrLeTotal(a, b);
    }
    forall a, b, c | StrLe(a, b) && StrLe(b, c) ensures StrLe(a, c) {
      StrLeTransitive(a, b, c);
    }
  }
}
