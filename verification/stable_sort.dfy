/** A stable sort by any total preorder, and the order of strings. */
module StableSort {
  import opened Prelude

  ghost predicate TotalPreorder<T(!new)>(le: (T, T) -> bool) {
    && (forall a, b :: le(a, b) || le(b, a))
    && (forall a, b, c :: le(a, b) && le(b, c) ==> le(a, c))
  }

  ghost predicate Sorted<T>(s: seq<T>, le: (T, T) -> bool) {
    forall i, j :: 0 <= i < j < |s| ==> le(s[i], s[j])
  }

  /** Puts `x` after everything that is not greater. */
  function Insert<T>(s: seq<T>, x: T, le: (T, T) -> bool): (r: seq<T>)
    ensures multiset(r) == multiset(s) + multiset{x}
    ensures |r| == |s| + 1
  {
    if s == [] then [x]
    else if le(s[|s| - 1], x) then s + [x]
    else
      assert s == s[..|s| - 1] + [s[|s| - 1]];
      Insert(s[..|s| - 1], x, le) + [s[|s| - 1]]
  }

  function Sort<T>(s: seq<T>, le: (T, T) -> bool): (r: seq<T>)
    ensures multiset(r) == multiset(s)
    ensures |r| == |s|
  {
    if s == [] then []
    else
      assert s == s[..|s| - 1] + [s[|s| - 1]];
      Insert(Sort(s[..|s| - 1], le), s[|s| - 1], le)
  }

  lemma {:induction false} InsertSorts<T(!new)>(s: seq<T>, x: T, le: (T, T) -> bool)
    requires TotalPreorder(le) && Sorted(s, le)
    ensures Sorted(Insert(s, x, le), le)
  {
    if s != [] {
      var last := s[|s| - 1];
      if le(last, x) {
        forall i | 0 <= i < |s| ensures le(s[i], x) {
          assert i < |s| - 1 ==> le(s[i], last);
        }
      } else {
        var before := s[..|s| - 1];
        InsertSorts(before, x, le);
        forall y | y in Insert(before, x, le) ensures le(y, last) {
          assert y in multiset(Insert(before, x, le));
          if y != x {
            assert y in before;
          }
        }
      }
    }
  }

  lemma {:induction false} SortSorts<T(!new)>(s: seq<T>, le: (T, T) -> bool)
    requires TotalPreorder(le)
    ensures Sorted(Sort(s, le), le)
  {
    if s != [] {
      SortSorts(s[..|s| - 1], le);
      InsertSorts(Sort(s[..|s| - 1], le), s[|s| - 1], le);
    }
  }

  lemma SameMembers<T>(a: seq<T>, b: seq<T>)
    requires multiset(a) == multiset(b)
    ensures forall x :: x in a <==> x in b
  {
    forall x ensures x in a <==> x in b {
      assert x in multiset(a) <==> x in multiset(b);
    }
  }

  lemma DistinctStays<T>(a: seq<T>, b: seq<T>)
    requires multiset(a) == multiset(b)
    requires forall i, j :: 0 <= i < j < |a| ==> a[i] != a[j]
    ensures forall i, j :: 0 <= i < j < |b| ==> b[i] != b[j]
  {
    forall i, j | 0 <= i < j < |b| ensures b[i] != b[j] {
      if b[i] == b[j] {
        assert b == b[..i] + [b[i]] + b[i + 1..j] + [b[j]] + b[j + 1..];
        assert multiset(b)[b[i]] >= 2;
        OnlyOnce(a, b[i]);
      }
    }
  }

  lemma {:induction false} OnlyOnce<T>(a: seq<T>, x: T)
    requires forall i, j :: 0 <= i < j < |a| ==> a[i] != a[j]
    ensures multiset(a)[x] <= 1
  {
    if a != [] {
      var last := a[|a| - 1];
      OnlyOnce(a[..|a| - 1], x);
      assert a == a[..|a| - 1] + [last];
      assert last !in multiset(a[..|a| - 1]) by {
        assert last !in a[..|a| - 1];
      }
    }
  }

  /** Elements equal to `k` in the order, in their original sequence. */
  function Ties<T>(s: seq<T>, k: T, le: (T, T) -> bool): seq<T> {
    if s == [] then []
    else
      var last := s[|s| - 1];
      Ties(s[..|s| - 1], k, le) + (if le(k, last) && le(last, k) then [last] else [])
  }

  lemma TiesOfOneMore<T>(s: seq<T>, x: T, k: T, le: (T, T) -> bool)
    ensures Ties(s + [x], k, le) == Ties(s, k, le) + (if le(k, x) && le(x, k) then [x] else [])
  {
    assert (s + [x])[..|s|] == s;
  }

  lemma {:induction false} InsertKeepsTies<T(!new)>(s: seq<T>, x: T, k: T, le: (T, T) -> bool)
    requires TotalPreorder(le)
    ensures Ties(Insert(s, x, le), k, le) == Ties(s + [x], k, le)
  {
    hide Ties;
    TiesOfOneMore(s, x, k, le);
    if s == [] {
      assert s + [x] == [x];
    } else if !le(s[|s| - 1], x) {
      var before, last := s[..|s| - 1], s[|s| - 1];
      assert s == before + [last];
      InsertKeepsTies(before, x, k, le);
      TiesOfOneMore(before, x, k, le);
      TiesOfOneMore(before, last, k, le);
      TiesOfOneMore(Insert(before, x, le), last, k, le);
      assert le(last, k) && le(k, x) ==> le(last, x);
    }
  }

  /** The sort is stable: ties keep their sequence. */
  lemma {:induction false} SortIsStable<T(!new)>(s: seq<T>, k: T, le: (T, T) -> bool)
    requires TotalPreorder(le)
    ensures Ties(Sort(s, le), k, le) == Ties(s, k, le)
  {
    if s != [] {
      var before, last := s[..|s| - 1], s[|s| - 1];
      SortIsStable(before, k, le);
      InsertKeepsTies(Sort(before, le), last, k, le);
      TiesOfOneMore(Sort(before, le), last, k, le);
    }
  }

  /** Sorting elements that came in one order by another one leaves the first order among ties. */
  lemma {:induction false} SortKeepsOrderOfTies<T(!new)>(s: seq<T>, first: (T, T) -> bool, le: (T, T) -> bool)
    requires TotalPreorder(le) && Sorted(s, first)
    ensures TiesSorted(Sort(s, le), first, le)
  {
    if s != [] {
      var before, last := s[..|s| - 1], s[|s| - 1];
      SortKeepsOrderOfTies(before, first, le);
      SortSorts(before, le);
      SameMembers(Sort(before, le), before);
      forall y | y in Sort(before, le) ensures first(y, last) {
        assert y in before;
      }
      InsertKeepsOrderOfTies(Sort(before, le), last, first, le);
    }
  }

  ghost predicate TiesSorted<T>(s: seq<T>, first: (T, T) -> bool, le: (T, T) -> bool) {
    forall i, j :: 0 <= i < j < |s| && le(s[j], s[i]) ==> first(s[i], s[j])
  }

  lemma {:induction false} InsertKeepsOrderOfTies<T(!new)>(s: seq<T>, x: T, first: (T, T) -> bool, le: (T, T) -> bool)
    requires TotalPreorder(le) && Sorted(s, le) && TiesSorted(s, first, le) && forall y :: y in s ==> first(y, x)
    ensures TiesSorted(Insert(s, x, le), first, le)
  {
    if s != [] {
      var before, last := s[..|s| - 1], s[|s| - 1];
      if !le(last, x) {
        InsertKeepsOrderOfTies(before, x, first, le);
        var inserted := Insert(before, x, le);
        SameMembers(inserted, before + [x]);
        forall i | 0 <= i < |inserted| && le(last, inserted[i]) ensures first(inserted[i], last) {
          assert inserted[i] in before + [x];
          var k :| 0 <= k < |before| && before[k] == inserted[i];
          assert s[k] == inserted[i];
        }
      }
    }
  }

  // ---- strings

  predicate StringLe(a: string, b: string) {
    a == [] || (b != [] && (a[0] < b[0] || (a[0] == b[0] && StringLe(a[1..], b[1..]))))
  }

  /** The first difference decides. */
  lemma {:induction false} FirstDifferenceDecides(common: string, x: char, y: char, a: string, b: string)
    requires x < y
    ensures StringLe(common + [x] + a, common + [y] + b) && !StringLe(common + [y] + b, common + [x] + a)
  {
    var left, right := common + [x] + a, common + [y] + b;
    if common != [] {
      FirstDifferenceDecides(common[1..], x, y, a, b);
      assert left[1..] == common[1..] + [x] + a && right[1..] == common[1..] + [y] + b;
    }
  }

  /** A text comes before every longer one that it begins. */
  lemma {:induction false} PrefixComesFirst(a: string, b: string)
    ensures StringLe(a, a + b)
    ensures b != [] ==> !StringLe(a + b, a)
  {
    if a != [] {
      PrefixComesFirst(a[1..], b);
      assert (a + b)[1..] == a[1..] + b;
    }
  }

  lemma {:induction false} StringLeTotal(a: string, b: string)
    ensures StringLe(a, b) || StringLe(b, a)
  {
    if a != [] && b != [] && a[0] == b[0] {
      StringLeTotal(a[1..], b[1..]);
    }
  }

  lemma {:induction false} StringLeTransitive(a: string, b: string, c: string)
    requires StringLe(a, b) && StringLe(b, c)
    ensures StringLe(a, c)
  {
    if a != [] && a[0] == b[0] == c[0] {
      StringLeTransitive(a[1..], b[1..], c[1..]);
    }
  }

  lemma {:induction false} StringLeAntisymmetric(a: string, b: string)
    requires StringLe(a, b) && StringLe(b, a)
    ensures a == b
  {
    if a != [] && b != [] {
      StringLeAntisymmetric(a[1..], b[1..]);
      assert a == [a[0]] + a[1..] && b == [b[0]] + b[1..];
    }
  }

  /** Ordering by a text is a total preorder. */
  lemma TextsOrder<T(!new)>(le: (T, T) -> bool, text: T -> string)
    requires forall a, b :: le(a, b) == StringLe(text(a), text(b))
    ensures TotalPreorder(le)
  {
    forall a, b ensures le(a, b) || le(b, a) {
      StringLeTotal(text(a), text(b));
    }
    forall a, b, c | le(a, b) && le(b, c) ensures le(a, c) {
      StringLeTransitive(text(a), text(b), text(c));
    }
  }
}
