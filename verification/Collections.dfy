// Sequences without repetition, and the elements of a sequence as a set.
module Collections {

  ghost predicate NoDuplicates<T>(s: seq<T>) {
    forall i, j :: 0 <= i < j < |s| ==> s[i] != s[j]
  }

  ghost function Elements<T>(s: seq<T>): set<T> {
    set x | x in s
  }

  lemma AppendNew<T>(s: seq<T>, x: T)
    ensures Elements(s + [x]) == Elements(s) + {x}
    ensures NoDuplicates(s) && x !in s ==> NoDuplicates(s + [x])
  {
  }

  lemma PopFront<T>(s: seq<T>)
    requires s != []
    ensures Elements(s) == Elements(s[1..]) + {s[0]}
  {
    assert s == [s[0]] + s[1..];
  }

  lemma EmptyElements<T>(s: seq<T>)
    ensures Elements(s) == {} <==> s == []
  {
    if s != [] {
      assert s[0] in Elements(s);
    }
  }

  lemma {:induction false} DistinctLength<T>(s: seq<T>)
    requires NoDuplicates(s)
    ensures |Elements(s)| == |s|
  {
    if s != [] {
      var front, last := s[..|s| - 1], s[|s| - 1];
      DistinctLength(front);
      assert s == front + [last];
      AppendNew(front, last);
      assert last !in Elements(front);
    }
  }

  /** The elements of s that satisfy p, in order. */
  function Filter<T(!new)>(s: seq<T>, p: T -> bool): (r: seq<T>)
    ensures forall x :: x in r <==> x in s && p(x)
  {
    if s == [] then []
    else
      assert s == s[..|s| - 1] + [s[|s| - 1]];
      Filter(s[..|s| - 1], p) + if p(s[|s| - 1]) then [s[|s| - 1]] else []
  }

  lemma FilterAppend<T(!new)>(s: seq<T>, x: T, p: T -> bool)
    ensures Filter(s + [x], p) == Filter(s, p) + if p(x) then [x] else []
  {
    assert (s + [x])[..|s|] == s;
  }

  lemma PrefixGrows<T>(s: seq<T>, i: nat)
    requires i < |s|
    ensures s[..i + 1] == s[..i] + [s[i]]
    ensures Elements(s[..i + 1]) == Elements(s[..i]) + {s[i]}
  {
    assert s[..i + 1] == s[..i] + [s[i]];
    AppendNew(s[..i], s[i]);
  }

  lemma WholePrefix<T>(s: seq<T>)
    ensures s[..|s|] == s && s[..0] == []
    ensures Elements(s[..0]) == {}
  {
  }

  lemma FilterGrows<T(!new)>(s: seq<T>, i: nat, p: T -> bool)
    requires i < |s|
    ensures Filter(s[..i + 1], p) == Filter(s[..i], p) + if p(s[i]) then [s[i]] else []
  {
    PrefixGrows(s, i);
    FilterAppend(s[..i], s[i], p);
  }

  lemma {:induction false} FilterKeepsNoDuplicates<T(!new)>(s: seq<T>, p: T -> bool)
    requires NoDuplicates(s)
    ensures NoDuplicates(Filter(s, p))
  {
    if s != [] {
      FilterKeepsNoDuplicates(s[..|s| - 1], p);
      AppendNew(Filter(s[..|s| - 1], p), s[|s| - 1]);
      assert s[|s| - 1] !in s[..|s| - 1];
    }
  }

  lemma {:induction false} FilterTwice<T(!new)>(s: seq<T>, p: T -> bool, r: T -> bool, q: T -> bool)
    requires forall x :: q(x) <==> p(x) && r(x)
    ensures Filter(Filter(s, p), r) == Filter(s, q)
  {
    if s != [] {
      var front, last := s[..|s| - 1], s[|s| - 1];
      FilterTwice(front, p, r, q);
      if p(last) {
        FilterAppend(Filter(front, p), last, r);
      } else {
        assert Filter(s, p) == Filter(front, p) && Filter(s, q) == Filter(front, q);
      }
    }
  }
}
