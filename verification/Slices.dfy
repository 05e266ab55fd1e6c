// Go slices: a view of the first cells of a shared backing array, appended to
// in place while the capacity lasts and filtered in place.
module Slices {
  import opened Collections

  datatype Slice<T> = MkSlice(buf: array<T>, len: nat)

  ghost predicate Shows<T>(s: Slice<T>, shown: seq<T>)
    reads s.buf
  {
    s.len <= s.buf.Length && s.buf[..s.len] == shown
  }

  function Without<T(==)>(s: seq<T>, a: T): seq<T> {
    if s == [] then []
    else Without(s[..|s| - 1], a) + if s[|s| - 1] != a then [s[|s| - 1]] else []
  }

  lemma {:induction false} WithoutMembers<T>(s: seq<T>, a: T, x: T)
    ensures x in Without(s, a) <==> x in s && x != a
  {
    if s != [] {
      assert s == s[..|s| - 1] + [s[|s| - 1]];
      WithoutMembers(s[..|s| - 1], a, x);
    }
  }

  lemma {:induction false} WithoutAbsent<T>(s: seq<T>, a: T)
    requires a !in s
    ensures Without(s, a) == s
  {
    if s != [] {
      assert s == s[..|s| - 1] + [s[|s| - 1]];
      WithoutAbsent(s[..|s| - 1], a);
    }
  }

  lemma WithoutLast<T>(s: seq<T>, a: T)
    ensures Without(s + [a], a) == Without(s, a)
  {
    assert (s + [a])[..|s|] == s;
  }

  lemma WithoutGrows<T>(s: seq<T>, i: nat, a: T)
    requires i < |s|
    ensures Without(s[..i + 1], a) == Without(s[..i], a) + if s[i] != a then [s[i]] else []
    ensures a in s[..i + 1] <==> a in s[..i] || s[i] == a
  {
    PrefixGrows(s, i);
    assert s[..i + 1][..i] == s[..i];
  }

  /** `filtered := s[:0]` and the loop after it: what differs from a is copied
      down over the cells already read, and nothing beyond is touched. */
  method FilterInPlace<T(==)>(s: Slice<T>, a: T) returns (kept: nat, found: bool)
    requires s.len <= s.buf.Length
    modifies s.buf
    ensures kept <= s.len && s.buf[..kept] == Without(old(s.buf[..s.len]), a)
    ensures forall j :: kept <= j < s.buf.Length ==> s.buf[j] == old(s.buf[j])
    ensures found <==> a in old(s.buf[..s.len])
    ensures !found ==> kept == s.len
  {
    ghost var was := s.buf[..s.len];
    ghost var out: seq<T> := [];
    kept, found := 0, false;
    for i := 0 to s.len
      invariant out == Without(was[..i], a) && |out| == kept <= i
      invariant forall j :: 0 <= j < kept ==> s.buf[j] == out[j]
      invariant forall j :: kept <= j < s.buf.Length ==> s.buf[j] == old(s.buf[j])
      invariant found <==> a in was[..i]
      invariant !found ==> kept == i
    {
      WithoutGrows(was, i, a);
      if s.buf[i] == a {
        found := true;
        continue;
      }
      s.buf[kept] := s.buf[i];
      kept := kept + 1;
      out := out + [was[i]];
    }
    WholePrefix(was);
    assert s.buf[..kept] == out;
  }

  /** The same; when nothing matches, no cell has changed. */
  method RemoveInPlace<T(==)>(s: Slice<T>, a: T) returns (kept: nat, found: bool)
    requires s.len <= s.buf.Length
    modifies s.buf
    ensures kept <= s.len && s.buf[..kept] == Without(old(s.buf[..s.len]), a)
    ensures found <==> a in old(s.buf[..s.len])
    ensures !found ==> forall j :: 0 <= j < s.buf.Length ==> s.buf[j] == old(s.buf[j])
  {
    ghost var was := s.buf[..s.len];
    kept, found := FilterInPlace(s, a);
    if !found {
      WithoutAbsent(was, a);
      forall j | 0 <= j < s.len
        ensures s.buf[j] == was[j]
      {
        assert s.buf[j] == s.buf[..s.len][j];
      }
    }
  }

  /** append beyond the capacity: the cells and one more, in a larger array. */
  method Grown<T(0)>(s: Slice<T>, a: T) returns (grown: Slice<T>)
    requires s.len <= s.buf.Length
    ensures fresh(grown.buf) && Shows(grown, s.buf[..s.len] + [a])
  {
    var buf := new T[2 * s.len + 1];
    for i := 0 to s.len
      invariant forall j :: 0 <= j < i ==> buf[j] == s.buf[j]
    {
      buf[i] := s.buf[i];
    }
    buf[s.len] := a;
    grown := MkSlice(buf, s.len + 1);
  }

  /** The first cells hold these values. */
  ghost predicate Begins<T>(buf: array<T>, out: seq<T>)
    reads buf
  {
    |out| <= buf.Length && forall j :: 0 <= j < |out| ==> buf[j] == out[j]
  }

  /** The cells that satisfy p, in a new array. */
  method FilteredCopy<T(0,!new)>(s: Slice<T>, p: T -> bool) returns (copy: Slice<T>)
    requires s.len <= s.buf.Length
    ensures fresh(copy.buf) && Shows(copy, Filter(s.buf[..s.len], p))
  {
    ghost var was := s.buf[..s.len];
    var buf := new T[s.len];
    var n := 0;
    for i := 0 to s.len
      invariant n == |Filter(was[..i], p)| <= i && Begins(buf, Filter(was[..i], p))
    {
      FilterGrows(was, i, p);
      if p(s.buf[i]) {
        buf[n] := s.buf[i];
        n := n + 1;
      }
    }
    WholePrefix(was);
    assert buf[..n] == Filter(was, p);
    copy := MkSlice(buf, n);
  }
}
