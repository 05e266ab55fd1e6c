// Field-level checks (service.go) and how they are ordered along a dotted path.
module FieldChecks {
  import opened Types
  import opened Text
  import opened Collections
  import opened Matching
  import opened Decision
  import Policy

  /** Some part of the path is a number. */
  predicate Indexed(path: string) {
    exists part :: part in Split(path) && part != "" && AllDigits(part)
  }

  predicate Numeral(part: string) {
    part != "" && forall c :: c in part ==> '0' <= c <= '9'
  }

  lemma IndexedExactly(path: string)
    ensures Indexed(path) <==> exists part :: part in Split(path) && Numeral(part)
  {
    forall part: string
      ensures Numeral(part) <==> part != "" && AllDigits(part)
    {
      assert forall i :: 0 <= i < |part| ==> part[i] in part;
    }
  }

  method IsIndexedFieldPath(path: string) returns (indexed: bool)
    ensures indexed <==> Indexed(path)
  {
    var parts := Split(path);
    for i := 0 to |parts|
      invariant forall p :: p in parts[..i] ==> p == "" || !AllDigits(p)
    {
      PrefixGrows(parts, i);
      var part := parts[i];
      if part == "" {
        continue;
      }
      var allDigits := true;
      var k := 0;
      while k < |part|
        invariant 0 <= k <= |part|
        invariant allDigits ==> AllDigits(part[..k])
        invariant !allDigits ==> !AllDigits(part)
      {
        if part[k] < '0' || part[k] > '9' {
          allDigits := false;
          break;
        }
        k := k + 1;
      }
      if allDigits {
        assert part[..|part|] == part;
        return true;
      }
    }
    WholePrefix(parts);
    indexed := false;
  }

  /** A path a field check takes at all. */
  predicate AcceptsPath(path: string) {
    !Indexed(path) && TrimSpace(path) != ""
  }

  /** The field check grants. */
  ghost predicate FieldGranted(e: Engine, req: Request, path: string, now: Time) {
    AcceptsPath(path) && Grants(e, req, Some(path), now)
  }

  method HasFieldPermission(e: Engine, req: Request, path: string, now: Time) returns (r: Result<bool>)
    ensures r == Ok(true) <==> FieldGranted(e, req, path, now)
    ensures Indexed(path) || TrimSpace(path) == "" ==> r.Err?
    ensures r.Err? ==> Indexed(path) || TrimSpace(path) == "" || CannotDecide(e, req, now)
  {
    var indexed := IsIndexedFieldPath(path);
    if indexed {
      return Err;
    }
    if TrimSpace(path) == "" {
      return Err;
    }
    r := EvaluatePermission(e, req, Some(path), now);
  }

  /** The permitted paths, each once, in the order of first mention. */
  ghost function Permitted(e: Engine, req: Request, paths: seq<string>, now: Time): seq<string> {
    Filter(Distinct(paths), p => FieldGranted(e, req, p, now))
  }

  lemma PermittedGrows(e: Engine, req: Request, paths: seq<string>, i: nat, now: Time)
    requires i < |paths|
    ensures Permitted(e, req, paths[..i + 1], now) == Permitted(e, req, paths[..i], now)
              + if paths[i] !in paths[..i] && FieldGranted(e, req, paths[i], now) then [paths[i]] else []
  {
    assert paths[..i + 1][..i] == paths[..i];
    FilterAppend(Distinct(paths[..i]), paths[i], p => FieldGranted(e, req, p, now));
  }

  /** One path that is not accepted fails the whole call. */
  method FilterPermittedFields(e: Engine, req: Request, paths: seq<string>, now: Time)
    returns (r: Result<seq<string>>)
    ensures r.Ok? ==> r.value == Permitted(e, req, paths, now) && NoDuplicates(r.value)
    ensures (exists p :: p in paths && !AcceptsPath(p)) ==> r.Err?
    ensures r.Err? ==> (exists p :: p in paths && !AcceptsPath(p)) || CannotDecide(e, req, now)
  {
    var result: seq<string> := [];
    var seen: set<string> := {};
    for i := 0 to |paths|
      invariant result == Permitted(e, req, paths[..i], now) && seen == Elements(paths[..i])
      invariant forall p :: p in paths[..i] ==> AcceptsPath(p)
    {
      PrefixGrows(paths, i);
      PermittedGrows(e, req, paths, i, now);
      assert paths[i] in seen <==> paths[i] in paths[..i];
      if paths[i] in seen {
        continue;
      }
      seen := seen + {paths[i]};
      var allowed := HasFieldPermission(e, req, paths[i], now);
      if allowed.Err? {
        return Err;
      }
      if allowed.value {
        result := result + [paths[i]];
      }
    }
    WholePrefix(paths);
    FilterKeepsNoDuplicates(Distinct(paths), p => FieldGranted(e, req, p, now));
    r := Ok(result);
  }

  /** Denies reach down, allows reach up: from the whole object to a path ... */
  lemma WholeOverField(w: Service, held: set<RoleAssignment>, req: Request, path: string, now: Time)
    ensures Denied(w, held, req, None, now) ==> Denied(w, held, req, Some(path), now)
    ensures Allowed(w, held, req, Some(path), now) ==> Allowed(w, held, req, None, now)
  {
    forall b: Grant
      ensures b.IsDeny() && Applicable(b, req, None) ==> Applicable(b, req, Some(path))
      ensures !b.IsDeny() && Applicable(b, req, Some(path)) ==> Applicable(b, req, None)
    {
    }
  }

  /** ... and from an ancestor to what is below it. */
  lemma AncestorOverPath(w: Service, held: set<RoleAssignment>, req: Request, up: string, path: string, now: Time)
    requires DottedAncestor(up, path)
    ensures Denied(w, held, req, Some(up), now) ==> Denied(w, held, req, Some(path), now)
    ensures Allowed(w, held, req, Some(path), now) ==> Allowed(w, held, req, Some(up), now)
  {
    forall b: Grant
      ensures b.IsDeny() && Applicable(b, req, Some(up)) ==> Applicable(b, req, Some(path))
      ensures !b.IsDeny() && Applicable(b, req, Some(path)) ==> Applicable(b, req, Some(up))
    {
      FieldOrder(b, req, up, path);
    }
  }

  // --- what a restriction names ------------------------------------------------------

  /** A restriction names a path if and only if its parts begin the path's. */
  lemma FieldPathMatchesExactly(field: string, path: string)
    ensures FieldPathMatches(field, path) <==> Policy.AtOrBelow(field, path)
  {
    PartsBegin(TrimSpace(field), TrimSpace(path));
  }

  /** No field check at or below the field of a deny is granted. */
  lemma FieldDenyRefuses(e: Engine, req: Request, path: string, now: Time, b: Grant, field: string)
    requires Bears(Answers(e), Elements(Held(Answers(e), req.user)), req, now, b)
    requires Policy.Denies(b) && Policy.Meets(b, req) && field in b.restricted && Policy.AtOrBelow(field, path)
    ensures !Grants(e, req, Some(path), now)
  {
    FieldPathMatchesExactly(field, path);
    assert Restricts(b, path);
    assert Applicable(b, req, Some(path));
  }

  /** An allow of fields applies exactly to the paths that are none of these
      fields and below none. */
  lemma FieldAllowApplies(b: Grant, req: Request, path: string)
    requires !Policy.Denies(b) && Policy.Meets(b, req) && b.restricted != []
    ensures Applicable(b, req, Some(path)) <==> forall field :: field in b.restricted ==> !Policy.AtOrBelow(field, path)
  {
    forall field | field in b.restricted
      ensures FieldPathMatches(field, path) <==> Policy.AtOrBelow(field, path)
    {
      FieldPathMatchesExactly(field, path);
    }
  }

  /** So a granted field check answers true on every ancestor it accepts as a
      path at all, and refuses exactly the indexed ones. */
  lemma FieldChecksAreOrdered(e: Engine, req: Request, up: string, path: string, now: Time)
    requires DottedAncestor(up, path)
    ensures FieldGranted(e, req, path, now) ==>
              && (FieldGranted(e, req, up, now) <==> !Indexed(up))
              && Grants(e, req, None, now)
  {
    var w := Answers(e);
    TrimmedIsFixed(up);
    AncestorOverPath(w, Elements(Held(w, req.user)), req, up, path, now);
    WholeOverField(w, Elements(Held(w, req.user)), req, path, now);
  }

  /** An indexed ancestor needs untrimmed input: a trimmed path that passes the
      index test passes it at every ancestor. */
  lemma TrimmedPathsHaveNoIndexedAncestor(up: string, path: string)
    requires DottedAncestor(up, path) && Trimmed(path) && !Indexed(path)
    ensures !Indexed(up)
  {
    TrimmedIsFixed(path);
    var rest := path[|up| + 1..];
    assert path == up + "." + rest;
    SplitJoin(up, rest);
    assert forall part :: part in Split(up) ==> part in Split(path);
  }

  /** The case left over: " 1.x" is accepted, its ancestor "1" is refused. */
  lemma UntrimmedPathHidesIndex()
    ensures DottedAncestor("1", " 1.x") && !Indexed(" 1.x") && Indexed("1")
  {
    assert " 1.x"[1..] == "1.x" && "1.x"[1..] == ".x" && ".x"[1..] == "x" && "x"[1..] == "" && "1"[1..] == "";
    assert "x"[0] == 'x' && "1.x"[0] == '1' && " 1.x"[0] == ' ' && "1"[0] == '1';
    assert ['x'] + "" == "x" && ['1'] + "" == "1" && [' '] + "1" == " 1";
    assert Split("x") == ["x"];
    assert Split(".x") == ["", "x"];
    assert Split("1.x") == ["1", "x"];
    assert Split(" 1.x") == [" 1", "x"];
    assert Split("1") == ["1"];
    assert "1" in Split("1") && AllDigits("1");
    assert !IsDigit(" 1"[0]) && !IsDigit("x"[0]);
    assert TrimLeft("1.x") == "1.x";
    assert TrimRight("1.x") == "1.x";
    assert "1" + "." <= "1.x";
  }
}
