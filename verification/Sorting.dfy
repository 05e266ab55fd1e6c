// sort.Strings and sort.Slice, for items on which the order is strict and total.
module Sorting {
  import opened Collections
  import opened Text

  /** Nothing stands behind something greater. */
  ghost predicate Ordered<T>(s: seq<T>, less: (T, T) -> bool) {
    forall i, j :: 0 <= i < j < |s| ==> !less(s[j], s[i])
  }

  ghost predicate TotalOn<T(!new)>(items: set<T>, less: (T, T) -> bool) {
    && (forall x, y, z :: x in items && y in items && z in items && less(x, y) && less(y, z) ==> less(x, z))
    && (forall x, y :: x in items && y in items ==> !(less(x, y) && less(y, x)))
    && (forall x, y :: x in items && y in items && x != y ==> less(x, y) || less(y, x))
  }

  method Insert<T(==,!new)>(s: seq<T>, x: T, less: (T, T) -> bool, ghost all: set<T>) returns (r: seq<T>)
    requires TotalOn(all, less) && Elements(s) <= all && x in all && Ordered(s, less)
    ensures Ordered(r, less) && multiset(r) == multiset(s) + multiset{x}
  {
    var i := 0;
    while i < |s| && less(s[i], x)
      invariant 0 <= i <= |s| && forall j :: 0 <= j < i ==> less(s[j], x)
    {
      i := i + 1;
    }
    forall j | i <= j < |s|
      ensures !less(s[j], x)
    {
      assert s[i] in Elements(s) && s[j] in Elements(s);
    }
    forall j | 0 <= j < i
      ensures !less(x, s[j])
    {
      assert s[j] in Elements(s);
    }
    OrderedWith(s, i, x, less);
    r := s[..i] + [x] + s[i..];
    assert s == s[..i] + s[i..];
  }

  lemma OrderedWith<T(!new)>(s: seq<T>, i: nat, x: T, less: (T, T) -> bool)
    requires Ordered(s, less) && i <= |s|
    requires forall j :: 0 <= j < i ==> !less(x, s[j])
    requires forall j :: i <= j < |s| ==> !less(s[j], x)
    ensures Ordered(s[..i] + [x] + s[i..], less)
  {
    var r := s[..i] + [x] + s[i..];
    assert forall j :: 0 <= j < |r| ==> r[j] == if j < i then s[j] else if j == i then x else s[j - 1];
  }

  method SortBy<T(==,!new)>(items: seq<T>, less: (T, T) -> bool) returns (sorted: seq<T>)
    requires TotalOn(Elements(items), less)
    ensures Ordered(sorted, less) && multiset(sorted) == multiset(items)
  {
    sorted := [];
    for i := 0 to |items|
      invariant Ordered(sorted, less) && multiset(sorted) == multiset(items[..i])
    {
      PrefixGrows(items, i);
      SameBag(sorted, items[..i]);
      sorted := Insert(sorted, items[i], less, Elements(items));
    }
    WholePrefix(items);
  }

  lemma SameBag<T>(s: seq<T>, t: seq<T>)
    requires multiset(s) == multiset(t)
    ensures Elements(s) == Elements(t) && |s| == |t|
  {
    assert forall x :: x in s <==> x in multiset(s);
    assert forall x :: x in t <==> x in multiset(t);
    assert |multiset(s)| == |s| && |multiset(t)| == |t|;
  }

  /** Sorting distinct items puts each strictly before the next. */
  lemma {:induction false} SortedDistinct<T(!new)>(items: seq<T>, sorted: seq<T>, less: (T, T) -> bool)
    requires NoDuplicates(items) && multiset(sorted) == multiset(items)
    requires TotalOn(Elements(items), less) && Ordered(sorted, less)
    ensures NoDuplicates(sorted) && forall i, j :: 0 <= i < j < |sorted| ==> less(sorted[i], sorted[j])
  {
    SameBag(sorted, items);
    DistinctBySize(items);
    DistinctBySize(sorted);
    forall i, j | 0 <= i < j < |sorted|
      ensures less(sorted[i], sorted[j])
    {
      assert sorted[i] in Elements(sorted) && sorted[j] in Elements(sorted);
    }
  }

  /** A list repeats nothing exactly when it has as many elements as cells. */
  lemma {:induction false} DistinctBySize<T>(s: seq<T>)
    ensures NoDuplicates(s) <==> |Elements(s)| == |s|
    ensures |Elements(s)| <= |s|
  {
    if s == [] {
      EmptyElements(s);
    } else {
      var front, last := s[..|s| - 1], s[|s| - 1];
      assert s == front + [last];
      AppendNew(front, last);
      DistinctBySize(front);
      if last in front {
        assert Elements(s) == Elements(front);
        var i :| 0 <= i < |front| && front[i] == last;
        assert s[i] == s[|s| - 1];
      } else {
        assert last !in Elements(front);
        if NoDuplicates(s) {
          assert forall i, j :: 0 <= i < j < |front| ==> s[i] != s[j];
        }
      }
    }
  }

  lemma TailBag<T>(s: seq<T>)
    requires s != []
    ensures multiset(s[1..]) == multiset(s) - multiset{s[0]}
  {
    assert s == [s[0]] + s[1..];
  }

  lemma SameFirst(s: seq<string>, t: seq<string>)
    requires Ordered(s, Less) && Ordered(t, Less) && multiset(s) == multiset(t) && s != [] && t != []
    ensures s[0] == t[0]
  {
    assert s[0] in multiset(t) && t[0] in multiset(s);
    var i :| 0 <= i < |t| && t[i] == s[0];
    var j :| 0 <= j < |s| && s[j] == t[0];
    LessTotal(s[0], t[0]);
  }

  /** Two sorted lists of the same strings, repetitions counted, are equal. */
  lemma {:induction false} SortedBagIsUnique(s: seq<string>, t: seq<string>)
    requires Ordered(s, Less) && Ordered(t, Less) && multiset(s) == multiset(t)
    ensures s == t
  {
    SameBag(s, t);
    if s != [] {
      SameFirst(s, t);
      TailBag(s);
      TailBag(t);
      SortedBagIsUnique(s[1..], t[1..]);
      assert s == [s[0]] + s[1..] && t == [t[0]] + t[1..];
    }
  }

  /** The order leaves one way to list a set of strings. */
  lemma {:induction false} SortedIsUnique(s: seq<string>, t: seq<string>)
    requires StrictlySorted(s) && StrictlySorted(t) && Elements(s) == Elements(t)
    ensures s == t
  {
    EmptyElements(s);
    EmptyElements(t);
    if s != [] {
      assert s[0] in Elements(t) && t[0] in Elements(s);
      LessTotal(s[0], t[0]);
      assert s[0] == t[0];
      forall x | x in s[1..] || x in t[1..]
        ensures x != s[0]
      {
        LessIrreflexive(x);
      }
      PopFront(s);
      PopFront(t);
      assert Elements(s[1..]) == Elements(s) - {s[0]};
      assert Elements(t[1..]) == Elements(t) - {t[0]};
      SortedIsUnique(s[1..], t[1..]);
    }
  }

  lemma StringsAreTotal(items: set<string>)
    ensures TotalOn(items, Less)
  {
    forall x, y, z | x in items && y in items && z in items && Less(x, y) && Less(y, z)
      ensures Less(x, z)
    {
      LessTrans(x, y, z);
    }
    forall x, y | x in items && y in items
      ensures x != y ==> Less(x, y) || Less(y, x)
      ensures !(Less(x, y) && Less(y, x))
    {
      LessTotal(x, y);
    }
  }

  /** Every finite set of strings has its sorted list. */
  lemma {:induction false} SortedExists(items: set<string>) returns (s: seq<string>)
    ensures StrictlySorted(s) && Elements(s) == items
  {
    if items == {} {
      s := [];
    } else {
      var m := Least(items);
      var rest := SortedExists(items - {m});
      s := [m] + rest;
      assert forall x :: x in rest <==> x in Elements(rest);
    }
  }

  lemma {:induction false} Least(items: set<string>) returns (m: string)
    requires items != {}
    ensures m in items && forall x :: x in items && x != m ==> Less(m, x)
    decreases |items|
  {
    var y :| y in items;
    if items == {y} {
      m := y;
    } else {
      var rest := items - {y};
      assert items == rest + {y} && rest != {};
      m := Least(rest);
      LessTotal(m, y);
      if Less(y, m) {
        forall x | x in rest && x != m
          ensures Less(y, x)
        {
          LessTrans(y, m, x);
        }
        m := y;
      }
    }
  }

  lemma SortedListExists(items: set<string>)
    ensures exists s :: StrictlySorted(s) && Elements(s) == items
  {
    var s := SortedExists(items);
  }

  ghost function SortedList(items: set<string>): (s: seq<string>)
    ensures StrictlySorted(s) && Elements(s) == items
  {
    SortedListExists(items);
    var s :| StrictlySorted(s) && Elements(s) == items;
    s
  }
}
