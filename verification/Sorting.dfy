/** Sorted string lists, as sort.Strings and Array.prototype.sort leave them. */
module Sorting {

  predicate Less(a: string, b: string) {
    && b != ""
    && (a == "" || (if a[0] != b[0] then a[0] < b[0] else Less(a[1..], b[1..])))
  }

  predicate AtMost(a: string, b: string) {
    a == b || Less(a, b)
  }

  lemma {:induction false} LessIsTotal(a: string, b: string)
    ensures a == b || Less(a, b) || Less(b, a)
    ensures !(Less(a, b) && Less(b, a)) && !Less(a, a)
  {
    if a != "" {
      LessIsTotal(a[1..], a[1..]);
      if b != "" {
        LessIsTotal(a[1..], b[1..]);
        assert a == [a[0]] + a[1..] && b == [b[0]] + b[1..];
      }
    }
  }

  lemma {:induction false} LessIsTransitive(a: string, b: string, c: string)
    requires Less(a, b) && Less(b, c)
    ensures Less(a, c)
  {
    if a != "" && a[0] == b[0] == c[0] {
      LessIsTransitive(a[1..], b[1..], c[1..]);
    }
  }

  ghost predicate Sorted(s: seq<string>) {
    forall i, j :: 0 <= i < j < |s| ==> AtMost(s[i], s[j])
  }

  function Insert(x: string, s: seq<string>): seq<string> {
    if s == [] then [x] else if AtMost(x, s[0]) then [x] + s else [s[0]] + Insert(x, s[1..])
  }

  function Sort(s: seq<string>): seq<string> {
    if s == [] then [] else Insert(s[0], Sort(s[1..]))
  }

  lemma AtMostStep(a: string, b: string, c: string)
    requires AtMost(a, b) && AtMost(b, c)
    ensures AtMost(a, c)
  {
    if Less(a, b) && Less(b, c) {
      LessIsTransitive(a, b, c);
    }
  }

  lemma SortedCons(x: string, s: seq<string>)
    ensures Sorted([x] + s) <==> Sorted(s) && forall i :: 0 <= i < |s| ==> AtMost(x, s[i])
  {
    hide AtMost;
    var t := [x] + s;
    assert t[0] == x && forall i :: 0 <= i < |s| ==> s[i] == t[i + 1];
    if Sorted(t) {
      forall i | 0 <= i < |s| ensures AtMost(x, s[i]) {
        assert AtMost(t[0], t[i + 1]);
      }
    }
  }

  lemma {:induction false} InsertKeeps(x: string, s: seq<string>)
    ensures multiset(Insert(x, s)) == multiset(s) + multiset{x}
  {
    hide AtMost;
    if s != [] {
      assert s == [s[0]] + s[1..];
      InsertKeeps(x, s[1..]);
    }
  }

  lemma BelowInserted(a: string, x: string, s: seq<string>)
    requires AtMost(a, x) && forall i :: 0 <= i < |s| ==> AtMost(a, s[i])
    ensures forall i :: 0 <= i < |Insert(x, s)| ==> AtMost(a, Insert(x, s)[i])
  {
    hide AtMost, Insert;
    InsertKeeps(x, s);
    var r := Insert(x, s);
    forall i | 0 <= i < |r| ensures AtMost(a, r[i]) {
      assert r[i] in multiset(r);
      assert r[i] == x || r[i] in s;
    }
  }

  lemma {:induction false} InsertSorts(x: string, s: seq<string>)
    requires Sorted(s)
    ensures Sorted(Insert(x, s)) && multiset(Insert(x, s)) == multiset(s) + multiset{x}
  {
    hide AtMost, Sorted;
    InsertKeeps(x, s);
    SortedCons(x, s);
    if s == [] {
      assert [x] + s == [x];
    } else {
      SortedCons(s[0], s[1..]);
      assert s == [s[0]] + s[1..];
      if AtMost(x, s[0]) {
        AtMostReflexive(s[0]);
        forall i | 0 <= i < |s| ensures AtMost(x, s[i]) {
          AtMostStep(x, s[0], s[i]);
        }
      } else {
        InsertSorts(x, s[1..]);
        AtMostTotal(x, s[0]);
        BelowInserted(s[0], x, s[1..]);
        SortedCons(s[0], Insert(x, s[1..]));
      }
    }
  }

  lemma AtMostReflexive(a: string)
    ensures AtMost(a, a)
  {}

  lemma AtMostTotal(a: string, b: string)
    ensures AtMost(a, b) || AtMost(b, a)
  {
    LessIsTotal(a, b);
  }

  lemma {:induction false} SortSorts(s: seq<string>)
    ensures Sorted(Sort(s)) && multiset(Sort(s)) == multiset(s)
  {
    hide Sorted;
    if s != [] {
      assert s == [s[0]] + s[1..];
      SortSorts(s[1..]);
      InsertSorts(s[0], Sort(s[1..]));
    } else {
      SortedNothing();
    }
  }

  lemma SortedNothing()
    ensures Sorted([])
  {}

  /** A sorted list is determined by its elements. */
  lemma {:induction false} SortedIsCanonical(a: seq<string>, b: seq<string>)
    requires Sorted(a) && Sorted(b) && multiset(a) == multiset(b)
    ensures a == b
  {
    hide Sorted, AtMost;
    if a != [] {
      SameElements(a, b);
      SortedHead(a, b[0]);
      SortedHead(b, a[0]);
      AtMostBoth(a[0], b[0]);
      SameTails(a, b);
      SortedIsCanonical(a[1..], b[1..]);
    } else {
      assert |multiset(b)| == 0;
    }
  }

  lemma SameElements(a: seq<string>, b: seq<string>)
    requires multiset(a) == multiset(b) && a != []
    ensures b != [] && b[0] in a && a[0] in b
  {
    assert a[0] in multiset(b) && b[0] in multiset(a);
  }

  lemma SameTails(a: seq<string>, b: seq<string>)
    requires multiset(a) == multiset(b) && a != [] && b != [] && a[0] == b[0]
    ensures multiset(a[1..]) == multiset(b[1..])
    ensures a[1..] == b[1..] ==> a == b
  {
    assert a == [a[0]] + a[1..] && b == [b[0]] + b[1..];
    assert multiset(a[1..]) == multiset(a) - multiset{a[0]} == multiset(b[1..]);
  }

  lemma SortedHead(s: seq<string>, x: string)
    requires Sorted(s) && x in s
    ensures AtMost(s[0], x) && Sorted(s[1..])
  {
    hide AtMost;
    AtMostReflexive(s[0]);
    var i :| 0 <= i < |s| && s[i] == x;
  }

  lemma AtMostBoth(a: string, b: string)
    requires AtMost(a, b) && AtMost(b, a)
    ensures a == b
  {
    LessIsTotal(a, b);
  }

  ghost predicate Distinct(s: seq<string>) {
    forall i, j :: 0 <= i < j < |s| ==> s[i] != s[j]
  }

  lemma {:induction false} DistinctCounts(s: seq<string>)
    requires Distinct(s)
    ensures forall x :: multiset(s)[x] == if x in s then 1 else 0
  {
    if s != [] {
      DistinctCounts(s[1..]);
      assert s == [s[0]] + s[1..];
    }
  }

  lemma SortsAgree(a: seq<string>, b: seq<string>)
    requires multiset(a) == multiset(b)
    ensures Sort(a) == Sort(b)
  {
    SortSorts(a);
    SortSorts(b);
    SortedIsCanonical(Sort(a), Sort(b));
  }

  /** Two duplicate-free lists sort alike exactly when they have the same elements. */
  lemma DistinctSortsAgreeIff(a: seq<string>, b: seq<string>)
    requires Distinct(a) && Distinct(b)
    ensures Sort(a) == Sort(b) <==> (forall x :: x in a <==> x in b)
  {
    DistinctCounts(a);
    DistinctCounts(b);
    SortSorts(a);
    SortSorts(b);
    if forall x :: x in a <==> x in b {
      assert forall x :: multiset(a)[x] == multiset(b)[x];
      assert multiset(a) == multiset(b);
      SortsAgree(a, b);
    }
    if Sort(a) == Sort(b) {
      assert multiset(a) == multiset(b);
    }
  }
}
