// The string keys under which role assignments are deduplicated (service.go),
// and when equal keys mean equal assignments.
module AssignmentKeys {
  import opened Types
  import opened Text
  import opened Collections
  import opened Sorting
  import opened Matching

  function BindingText(keys: seq<string>, bindings: Bindings): string
    requires forall k :: k in keys ==> k in bindings
  {
    if keys == [] then ""
    else keys[0] + "=" + (Sprint(bindings[keys[0]]) + "," + BindingText(keys[1..], bindings))
  }

  ghost function KeyText(a: RoleAssignment): string {
    a.role + ":" + BindingText(Sorted(a.bindings), a.bindings)
  }

  ghost function Sorted(bindings: Bindings): (keys: seq<string>)
    ensures StrictlySorted(keys) && forall k :: k in keys <==> k in bindings
  {
    var keys := SortedList(bindings.Keys);
    assert forall k :: k in keys <==> k in Elements(keys);
    keys
  }

  /** The key is built from the map in whatever order its keys come out. */
  method AssignmentKey(a: RoleAssignment) returns (key: string)
    ensures key == KeyText(a)
  {
    var keys := SortedKeys(a.bindings);
    var body := "";
    for i := 0 to |keys|
      invariant Building(body, keys, i, a.bindings)
    {
      StepAt(body, keys, i, a.bindings);
      body := body + keys[i] + "=" + Sprint(a.bindings[keys[i]]) + ",";
    }
    Built(body, keys, a.bindings);
    key := a.role + ":" + body;
  }

  /** The text so far, with what the remaining keys give, is the whole text. */
  ghost predicate Building(body: string, keys: seq<string>, i: nat, bindings: Bindings) {
    && i <= |keys| && (forall k :: k in keys ==> k in bindings)
    && body + BindingText(keys[i..], bindings) == BindingText(keys, bindings)
  }

  lemma Built(body: string, keys: seq<string>, bindings: Bindings)
    requires Building(body, keys, |keys|, bindings)
    ensures body == BindingText(keys, bindings)
  {
    assert keys[|keys|..] == [] && body + "" == body;
  }

  lemma StepText(body: string, keys: seq<string>, bindings: Bindings)
    requires keys != [] && forall k :: k in keys ==> k in bindings
    ensures (body + keys[0] + "=" + Sprint(bindings[keys[0]]) + ",") + BindingText(keys[1..], bindings)
         == body + BindingText(keys, bindings)
  {
  }

  lemma StepAt(body: string, keys: seq<string>, i: nat, bindings: Bindings)
    requires i < |keys| && Building(body, keys, i, bindings)
    ensures Building(body + keys[i] + "=" + Sprint(bindings[keys[i]]) + ",", keys, i + 1, bindings)
  {
    StepText(body, keys[i..], bindings);
    assert keys[i..][1..] == keys[i + 1..];
  }

  method SortedKeys(bindings: Bindings) returns (keys: seq<string>)
    ensures keys == Sorted(bindings)
  {
    var unsorted := BindingKeys(bindings);
    StringsAreTotal(Elements(unsorted));
    keys := SortBy(unsorted, Less);
    SortedDistinct(unsorted, keys, Less);
    SameBag(keys, unsorted);
    SortedIsUnique(keys, Sorted(bindings));
  }

  method BindingKeys(bindings: Bindings) returns (keys: seq<string>)
    ensures NoDuplicates(keys) && Elements(keys) == bindings.Keys
  {
    keys := [];
    var pending := bindings.Keys;
    while pending != {}
      invariant pending <= bindings.Keys
      invariant NoDuplicates(keys) && Elements(keys) == bindings.Keys - pending
    {
      var k :| k in pending;
      AppendNew(keys, k);
      assert k !in Elements(keys);
      keys := keys + [k];
      pending := pending - {k};
    }
  }

  // --- injectivity -----------------------------------------------------------------

  /** String bindings, and none of the three separators where it would be taken
      for one. */
  predicate CleanKey(a: RoleAssignment) {
    && ':' !in a.role
    && forall k :: k in a.bindings ==>
         '=' !in k && a.bindings[k].Str? && ',' !in a.bindings[k].s
  }

  function IndexOf(c: char, s: string): nat {
    if s == "" || s[0] == c then 0 else 1 + IndexOf(c, s[1..])
  }

  lemma {:induction false} IndexOfFirst(c: char, x: string, y: string)
    requires c !in x
    ensures IndexOf(c, x + [c] + y) == |x|
  {
    if x != "" {
      IndexOfFirst(c, x[1..], y);
      assert (x + [c] + y)[1..] == x[1..] + [c] + y;
    }
  }

  lemma FirstSeparator(c: char, x1: string, y1: string, x2: string, y2: string)
    requires c !in x1 && c !in x2 && x1 + [c] + y1 == x2 + [c] + y2
    ensures x1 == x2 && y1 == y2
  {
    var s := x1 + [c] + y1;
    IndexOfFirst(c, x1, y1);
    IndexOfFirst(c, x2, y2);
    assert x1 == s[..|x1|] && x2 == s[..|x2|];
    assert y1 == s[|x1| + 1..] && y2 == s[|x2| + 1..];
  }

  lemma {:induction false} BindingTextInjective(ks: seq<string>, b1: Bindings, js: seq<string>, b2: Bindings)
    requires forall k :: k in ks ==> k in b1 && '=' !in k && b1[k].Str? && ',' !in b1[k].s
    requires forall k :: k in js ==> k in b2 && '=' !in k && b2[k].Str? && ',' !in b2[k].s
    requires BindingText(ks, b1) == BindingText(js, b2)
    ensures ks == js && forall k :: k in ks ==> b1[k] == b2[k]
  {
    if ks == [] || js == [] {
    } else {
      var v1, v2 := b1[ks[0]].s, b2[js[0]].s;
      var t1, t2 := BindingText(ks[1..], b1), BindingText(js[1..], b2);
      assert ks[0] + "=" + (v1 + "," + t1) == ks[0] + ['='] + (v1 + "," + t1);
      FirstSeparator('=', ks[0], v1 + "," + t1, js[0], v2 + "," + t2);
      FirstSeparator(',', v1, t1, v2, t2);
      BindingTextInjective(ks[1..], b1, js[1..], b2);
      PopFront(ks);
      assert ks == [ks[0]] + ks[1..] && js == [js[0]] + js[1..];
    }
  }

  lemma KeyInjective(a: RoleAssignment, b: RoleAssignment)
    requires CleanKey(a) && CleanKey(b)
    ensures KeyText(a) == KeyText(b) <==> a == b
  {
    if KeyText(a) == KeyText(b) {
      var ka, kb := Sorted(a.bindings), Sorted(b.bindings);
      var ta, tb := BindingText(ka, a.bindings), BindingText(kb, b.bindings);
      FirstSeparator(':', a.role, ta, b.role, tb);
      BindingTextInjective(ka, a.bindings, kb, b.bindings);
      assert a.bindings.Keys == b.bindings.Keys;
      assert a.bindings == b.bindings;
    }
  }

  ghost predicate Collide(a: RoleAssignment, b: RoleAssignment) {
    a != b && KeyText(a) == KeyText(b)
  }

  /** All four conditions are needed: a comma inside a value makes two different
      assignments collide, and so do a number next to its text, an equals sign
      inside a key and a colon inside a role. */
  lemma KeysCollide(role: RoleId)
    ensures Collide(RoleAssignment(role, map["x" := Str("1,y=2")]),
                    RoleAssignment(role, map["x" := Str("1"), "y" := Str("2")]))
    ensures Collide(RoleAssignment(role, map["x" := Str("1")]), RoleAssignment(role, map["x" := Int(1)]))
    ensures Collide(RoleAssignment(role, map["a=b" := Str("c")]), RoleAssignment(role, map["a" := Str("b=c")]))
    ensures Collide(RoleAssignment("r", map["x" := Str("1"), "y:z" := Str("2")]),
                    RoleAssignment("r:x=1,y", map["z" := Str("2")]))
  {
    CommaInValue(role);
    NumberBesideText(role);
    EqualsSignInKey(role);
    ColonInRole();
  }

  lemma CommaInValue(role: RoleId)
    ensures Collide(RoleAssignment(role, map["x" := Str("1,y=2")]),
                    RoleAssignment(role, map["x" := Str("1"), "y" := Str("2")]))
  {
    OneKey(map["x" := Str("1,y=2")], "x");
    TwoKeys("y");
    var one: Bindings, two: Bindings := map["x" := Str("1,y=2")], map["x" := Str("1"), "y" := Str("2")];
    assert BindingText(["x"], one) == "x=1,y=2,";
    assert "y" in two && "y" !in one;
  }

  lemma NumberBesideText(role: RoleId)
    ensures Collide(RoleAssignment(role, map["x" := Str("1")]), RoleAssignment(role, map["x" := Int(1)]))
  {
    var one: Bindings, two: Bindings := map["x" := Str("1")], map["x" := Int(1)];
    OneKey(one, "x");
    OneKey(two, "x");
    assert one["x"] != two["x"];
  }

  lemma EqualsSignInKey(role: RoleId)
    ensures Collide(RoleAssignment(role, map["a=b" := Str("c")]), RoleAssignment(role, map["a" := Str("b=c")]))
  {
    var one: Bindings, two: Bindings := map["a=b" := Str("c")], map["a" := Str("b=c")];
    OneKey(one, "a=b");
    OneKey(two, "a");
    assert |"a"| != |"a=b"| && "a" in two && "a" !in one;
    assert BindingText(["a=b"], one) == "a=b=c," == BindingText(["a"], two);
  }

  lemma ColonInRole()
    ensures Collide(RoleAssignment("r", map["x" := Str("1"), "y:z" := Str("2")]),
                    RoleAssignment("r:x=1,y", map["z" := Str("2")]))
  {
    var one: Bindings, two: Bindings := map["x" := Str("1"), "y:z" := Str("2")], map["z" := Str("2")];
    TwoKeys("y:z");
    OneKey(two, "z");
    assert |"r"| != |"r:x=1,y"|;
    assert BindingText(["z"], two) == "z=2,";
    assert "r" + ":" + "x=1,y:z=2," == "r:x=1,y" + ":" + "z=2,";
  }

  lemma TwoKeys(k: string)
    requires k == "y" || k == "y:z"
    ensures var two: Bindings := map["x" := Str("1"), k := Str("2")];
      BindingText(Sorted(two), two) == "x=1," + k + "=2,"
  {
    var two: Bindings := map["x" := Str("1"), k := Str("2")];
    var keys := ["x", k];
    assert k[0] == 'y' && "x"[0] == 'x';
    assert StrictlySorted(keys);
    assert forall x :: x in keys <==> x in two;
    assert Elements(Sorted(two)) == Elements(keys);
    SortedIsUnique(Sorted(two), keys);
    assert keys[1..] == [k] && keys[1..][1..] == [];
    assert BindingText(keys, two) == "x" + "=" + ("1" + "," + BindingText([k], two));
    assert BindingText([k], two) == k + "=" + ("2" + "," + "");
  }

  lemma OneKey(bindings: Bindings, k: string)
    requires bindings.Keys == {k}
    ensures Sorted(bindings) == [k]
    ensures BindingText([k], bindings) == k + "=" + (Sprint(bindings[k]) + "," + "")
  {
    assert forall x :: x in [k] <==> x in bindings;
    assert Elements(Sorted(bindings)) == Elements([k]);
    SortedIsUnique(Sorted(bindings), [k]);
  }
}
