// The string operations the engine relies on: trimming, dotted paths, decimal
// numbers, and the ordering used by sort.Strings.
module Text {
  import opened Types

  predicate HasPrefix(s: string, prefix: string) {
    prefix <= s
  }

  // --- strings.TrimSpace -----------------------------------------------------

  /** unicode.IsSpace. */
  predicate IsSpace(c: char) {
    || '\U{09}' <= c <= '\U{0D}' || c == ' ' || c == '\U{85}' || c == '\U{A0}'
    || c == '\U{1680}' || '\U{2000}' <= c <= '\U{200A}'
    || c == '\U{2028}' || c == '\U{2029}' || c == '\U{202F}' || c == '\U{205F}' || c == '\U{3000}'
  }

  function TrimLeft(s: string): string {
    if s != "" && IsSpace(s[0]) then TrimLeft(s[1..]) else s
  }

  function TrimRight(s: string): string {
    if s != "" && IsSpace(s[|s| - 1]) then TrimRight(s[..|s| - 1]) else s
  }

  function TrimSpace(s: string): string {
    TrimRight(TrimLeft(s))
  }

  predicate Trimmed(s: string) {
    s != "" ==> !IsSpace(s[0]) && !IsSpace(s[|s| - 1])
  }

  lemma TrimmedIsFixed(s: string)
    requires Trimmed(s)
    ensures TrimSpace(s) == s
  {
  }

  /** What is cut off on either side is space, and no space is left at the ends. */
  lemma TrimSpaceExactly(s: string)
    ensures Trimmed(TrimSpace(s))
    ensures exists i, j :: 0 <= i <= j <= |s| && TrimSpace(s) == s[i..j]
              && (forall k :: 0 <= k < i || j <= k < |s| ==> IsSpace(s[k]))
  {
    var i := TrimLeftCuts(s);
    var left := s[i..];
    var j := TrimRightCuts(left);
    assert TrimSpace(s) == s[i..i + j];
    assert forall k :: i + j <= k < |s| ==> s[k] == left[k - i];
  }

  lemma {:induction false} TrimLeftCuts(s: string) returns (i: nat)
    ensures i <= |s| && TrimLeft(s) == s[i..] && (i < |s| ==> !IsSpace(s[i]))
    ensures forall k :: 0 <= k < i ==> IsSpace(s[k])
  {
    if s != "" && IsSpace(s[0]) {
      i := TrimLeftCuts(s[1..]);
      i := i + 1;
      assert forall k :: 1 <= k < i ==> s[k] == s[1..][k - 1];
    } else {
      i := 0;
    }
  }

  lemma {:induction false} TrimRightCuts(s: string) returns (j: nat)
    ensures j <= |s| && TrimRight(s) == s[..j] && (j > 0 ==> !IsSpace(s[j - 1]))
    ensures forall k :: j <= k < |s| ==> IsSpace(s[k])
  {
    if s != "" && IsSpace(s[|s| - 1]) {
      j := TrimRightCuts(s[..|s| - 1]);
      assert s[..|s| - 1][..j] == s[..j];
    } else {
      j := |s|;
    }
  }

  // --- strings.Split and strings.Join on dots --------------------------------------

  /** strings.Split(path, "."). */
  function Split(path: string): (parts: seq<string>)
    ensures parts != []
  {
    if path == "" then [""]
    else
      var rest := Split(path[1..]);
      if path[0] == '.' then [""] + rest else [[path[0]] + rest[0]] + rest[1..]
  }

  /** Split, one character on. */
  function Onto(c: char, parts: seq<string>): seq<string>
    requires parts != []
  {
    if c == '.' then [""] + parts else [[c] + parts[0]] + parts[1..]
  }

  lemma SplitOnto(c: char, path: string)
    ensures Split([c] + path) == Onto(c, Split(path))
  {
    assert ([c] + path)[1..] == path;
  }

  lemma OntoFirst(c: char, parts: seq<string>, more: seq<string>)
    requires parts != []
    ensures Onto(c, parts + more) == Onto(c, parts) + more
  {
  }

  lemma {:induction false} SplitJoin(a: string, b: string)
    ensures Split(a + "." + b) == Split(a) + Split(b)
  {
    if a == "" {
      assert a + "." + b == ['.'] + b;
      SplitOnto('.', b);
    } else {
      SplitJoin(a[1..], b);
      assert a + "." + b == [a[0]] + (a[1..] + "." + b);
      assert a == [a[0]] + a[1..];
      SplitOnto(a[0], a[1..] + "." + b);
      SplitOnto(a[0], a[1..]);
      OntoFirst(a[0], Split(a[1..]), Split(b));
    }
  }

  function Join(parts: seq<string>): string
    requires parts != []
  {
    if |parts| == 1 then parts[0] else parts[0] + "." + Join(parts[1..])
  }

  lemma {:induction false} JoinSplit(path: string)
    ensures Join(Split(path)) == path
  {
    if path != "" {
      var rest := Split(path[1..]);
      JoinSplit(path[1..]);
      assert path == [path[0]] + path[1..];
      SplitOnto(path[0], path[1..]);
      JoinOnto(path[0], rest);
    }
  }

  lemma JoinOnto(c: char, parts: seq<string>)
    requires parts != []
    ensures Join(Onto(c, parts)) == [c] + Join(parts)
  {
    if c == '.' {
      assert ([""] + parts)[1..] == parts;
    } else {
      var first := [c] + parts[0];
      assert ([first] + parts[1..])[1..] == parts[1..];
    }
  }

  lemma {:induction false} JoinConcat(a: seq<string>, b: seq<string>)
    requires a != [] && b != []
    ensures Join(a + b) == Join(a) + "." + Join(b)
  {
    if |a| == 1 {
      assert (a + b)[1..] == b;
    } else {
      JoinConcat(a[1..], b);
      assert (a + b)[1..] == a[1..] + b;
    }
  }

  /** One dotted path is at or above another exactly if its parts begin the
      other's. */
  lemma PartsBegin(up: string, path: string)
    ensures Split(up) <= Split(path) <==> path == up || HasPrefix(path, up + ".")
  {
    var u, p := Split(up), Split(path);
    JoinSplit(up);
    JoinSplit(path);
    if u <= p && u != p {
      assert p == u + p[|u|..];
      JoinConcat(u, p[|u|..]);
      assert path == up + "." + Join(p[|u|..]);
    }
    if HasPrefix(path, up + ".") {
      var rest := path[|up + "."|..];
      assert path == up + "." + rest;
      SplitJoin(up, rest);
    }
  }

  // --- strconv.Itoa and strconv.Atoi -------------------------------------------

  const MAX_INT := 0x7FFF_FFFF_FFFF_FFFF
  const MIN_INT := -0x8000_0000_0000_0000

  predicate IsDigit(c: char) {
    '0' <= c <= '9'
  }

  function Digit(d: nat): char
    requires d < 10
  {
    '0' + d as char
  }

  function DigitValue(c: char): nat
    requires IsDigit(c)
  {
    (c - '0') as nat
  }

  function NatText(n: nat): string {
    if n < 10 then [Digit(n)] else NatText(n / 10) + [Digit(n % 10)]
  }

  function Itoa(n: int): string {
    if n < 0 then "-" + NatText(-n) else NatText(n)
  }

  predicate AllDigits(s: string) {
    forall i :: 0 <= i < |s| ==> IsDigit(s[i])
  }

  function DigitsValue(s: string): nat
    requires AllDigits(s)
  {
    if s == "" then 0 else 10 * DigitsValue(s[..|s| - 1]) + DigitValue(s[|s| - 1])
  }

  /** An optional sign, at least one digit, and a value that fits 64 bits. */
  function Atoi(s: string): Result<int> {
    var signed := s != "" && (s[0] == '-' || s[0] == '+');
    var digits := if signed then s[1..] else s;
    if digits == "" || !AllDigits(digits) then Err
    else
      var magnitude: int := DigitsValue(digits);
      var value := if signed && s[0] == '-' then -magnitude else magnitude;
      if MIN_INT <= value <= MAX_INT then Ok(value) else Err
  }

  lemma {:induction false} NatTextRoundTrip(n: nat)
    ensures NatText(n) != "" && AllDigits(NatText(n)) && DigitsValue(NatText(n)) == n
  {
    if n < 10 {
      assert NatText(n)[..0] == "";
    } else {
      NatTextRoundTrip(n / 10);
      assert NatText(n)[..|NatText(n)| - 1] == NatText(n / 10);
    }
  }

  lemma ParsesDigits(digits: string)
    requires digits != "" && AllDigits(digits)
    ensures var value: int := DigitsValue(digits);
      && (value <= MAX_INT ==> Atoi(digits) == Ok(value))
      && (MIN_INT <= -value ==> Atoi("-" + digits) == Ok(-value))
  {
    assert IsDigit(digits[0]);
    assert ("-" + digits)[1..] == digits && ("-" + digits)[0] == '-';
  }

  /** Printing a 64-bit integer and parsing it back gives the integer. */
  lemma AtoiItoa(n: int)
    requires MIN_INT <= n <= MAX_INT
    ensures Atoi(Itoa(n)) == Ok(n) && Itoa(n) != ""
  {
    var magnitude: nat := if n < 0 then -n else n;
    NatTextRoundTrip(magnitude);
    ParsesDigits(NatText(magnitude));
  }

  // --- the order of sort.Strings ------------------------------------------------

  predicate Less(a: string, b: string) {
    b != "" && (a == "" || a[0] < b[0] || (a[0] == b[0] && Less(a[1..], b[1..])))
  }

  lemma {:induction false} LessTrans(a: string, b: string, c: string)
    requires Less(a, b) && Less(b, c)
    ensures Less(a, c)
  {
    if a != "" && a[0] == b[0] == c[0] {
      LessTrans(a[1..], b[1..], c[1..]);
    }
  }

  lemma {:induction false} LessTotal(a: string, b: string)
    ensures Less(a, b) || Less(b, a) || a == b
    ensures !(Less(a, b) && Less(b, a)) && !Less(a, a)
  {
    if a != "" {
      LessIrreflexive(a[1..]);
    }
    if a != "" && b != "" && a[0] == b[0] {
      LessTotal(a[1..], b[1..]);
      assert a == [a[0]] + a[1..] && b == [b[0]] + b[1..];
    }
  }

  lemma LessIrreflexive(a: string)
    ensures !Less(a, a)
  {
  }

  predicate StrictlySorted(s: seq<string>) {
    forall i, j :: 0 <= i < j < |s| ==> Less(s[i], s[j])
  }
}
