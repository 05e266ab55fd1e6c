// Role assignments of the bootstrap store: lists keyed by a printed principal,
// appended to and filtered in place.
module Assignments {
  import opened Types
  import opened Text
  import opened Collections
  import opened Matching
  import opened AssignmentKeys
  import opened Slices

  type Table = map<string, seq<RoleAssignment>>

  // --- principal keys ------------------------------------------------------------

  function PrincipalKey(p: Principal): string {
    p.kind + ":" + p.id
  }

  function ParsePrincipalKey(key: string): Result<Principal> {
    var i := IndexOf(':', key);
    if i >= |key| || !ValidKind(key[..i]) then Err else Ok(Principal(key[..i], key[i + 1..]))
  }

  lemma ValidKindHasNoColon(kind: string)
    requires ValidKind(kind)
    ensures ':' !in kind && kind in {"user", "group", "team", "role"}
  {
  }

  lemma KeyRoundTrip(p: Principal)
    requires ValidKind(p.kind)
    ensures ParsePrincipalKey(PrincipalKey(p)) == Ok(p)
  {
    ValidKindHasNoColon(p.kind);
    IndexOfFirst(':', p.kind, p.id);
    assert PrincipalKey(p) == p.kind + [':'] + p.id;
    assert PrincipalKey(p)[..|p.kind|] == p.kind;
  }

  lemma KeysAreInjective(p: Principal, q: Principal)
    requires ValidKind(p.kind) && ValidKind(q.kind)
    ensures PrincipalKey(p) == PrincipalKey(q) <==> p == q
  {
    KeyRoundTrip(p);
    KeyRoundTrip(q);
  }

  // --- the operations on values -----------------------------------------------------

  /** mapEquals: the same keys with values that print alike. */
  predicate MapEquals(a: Bindings, b: Bindings) {
    |a| == |b| && forall k :: k in a ==> k in b && Sprint(a[k]) == Sprint(b[k])
  }

  predicate SamePair(a: RoleAssignment, b: RoleAssignment) {
    a.role == b.role && MapEquals(a.bindings, b.bindings)
  }

  function Listing(t: Table, p: Principal): seq<RoleAssignment> {
    if PrincipalKey(p) in t then t[PrincipalKey(p)] else []
  }

  /** AssignRole; `known` are the built-in and stored role IDs. */
  function Assign(t: Table, p: Principal, role: RoleId, known: set<RoleId>, bindings: Bindings): Result<Table> {
    var a := RoleAssignment(role, bindings);
    if !ValidPrincipal(p) || role == "" || role !in known then Err
    else if exists e :: e in Listing(t, p) && SamePair(e, a) then Ok(t)
    else Ok(t[PrincipalKey(p) := Listing(t, p) + [a]])
  }

  /** UnassignRole. It compares bindings by reflect.DeepEqual, not by mapEquals,
      and does not ask whether the role exists. */
  function Unassign(t: Table, p: Principal, role: RoleId, bindings: Bindings): Result<Table> {
    var a := RoleAssignment(role, bindings);
    if !ValidPrincipal(p) || role == "" || a !in Listing(t, p) then Err
    else
      var rest := Without(Listing(t, p), a);
      Ok(if rest == [] then t - {PrincipalKey(p)} else t[PrincipalKey(p) := rest])
  }

  function WithoutRole(s: seq<RoleAssignment>, role: RoleId): seq<RoleAssignment> {
    Filter(s, (x: RoleAssignment) => x.role != role)
  }

  /** DeleteRole's part. */
  function DropRole(t: Table, role: RoleId): Table {
    map key | key in t :: WithoutRole(t[key], role)
  }

  datatype Op =
    | AssignOp(p: Principal, role: RoleId, known: set<RoleId>, bindings: Bindings)
    | UnassignOp(p: Principal, role: RoleId, bindings: Bindings)
    | DropOp(role: RoleId)

  /** One call; a failed call changes nothing. */
  function Apply(t: Table, op: Op): Table {
    match op
    case AssignOp(p, role, known, b) => var r := Assign(t, p, role, known, b); if r.Ok? then r.value else t
    case UnassignOp(p, role, b) => var r := Unassign(t, p, role, b); if r.Ok? then r.value else t
    case DropOp(role) => DropRole(t, role)
  }

  function RunOps(ops: seq<Op>): Table {
    if ops == [] then map[] else Apply(RunOps(ops[..|ops| - 1]), ops[|ops| - 1])
  }

  // --- the invariant -----------------------------------------------------------------

  ghost predicate PairwiseDistinct(s: seq<RoleAssignment>) {
    forall i, j :: 0 <= i < |s| && 0 <= j < |s| && SamePair(s[i], s[j]) ==> i == j
  }

  /** Every key is a principal's, and no principal holds a pair twice. */
  ghost predicate Good(t: Table) {
    forall key :: key in t ==>
      && ParsePrincipalKey(key).Ok?
      && ValidPrincipal(ParsePrincipalKey(key).value) && PrincipalKey(ParsePrincipalKey(key).value) == key
      && PairwiseDistinct(t[key])
      && forall a :: a in t[key] ==> a.role != ""
  }

  lemma MapEqualsSymmetric(a: Bindings, b: Bindings)
    requires MapEquals(a, b)
    ensures MapEquals(b, a) && a.Keys == b.Keys
  {
    assert a.Keys <= b.Keys;
    SubsetOfSameSize(a.Keys, b.Keys);
  }

  lemma SubsetOfSameSize<T>(a: set<T>, b: set<T>)
    requires a <= b && |a| == |b|
    ensures a == b
  {
    assert b == a + (b - a);
  }

  /** Among string bindings mapEquals is equality. */
  lemma StringBindingsExactly(a: Bindings, b: Bindings)
    requires forall k :: k in a ==> a[k].Str?
    requires forall k :: k in b ==> b[k].Str?
    ensures MapEquals(a, b) <==> a == b
  {
    if MapEquals(a, b) {
      MapEqualsSymmetric(a, b);
      assert forall k :: k in a ==> a[k] == b[k];
    }
  }

  lemma MapEqualsSelf(a: Bindings)
    ensures MapEquals(a, a)
  {
  }

  lemma {:induction false} FilterKeepsDistinct(s: seq<RoleAssignment>, p: RoleAssignment -> bool)
    requires PairwiseDistinct(s)
    ensures PairwiseDistinct(Filter(s, p))
  {
    if s != [] {
      var front, last := s[..|s| - 1], s[|s| - 1];
      FilterKeepsDistinct(front, p);
      assert forall i :: 0 <= i < |Filter(front, p)| ==> Filter(front, p)[i] in front;
    }
  }

  lemma {:induction false} WithoutKeepsDistinct(s: seq<RoleAssignment>, a: RoleAssignment)
    requires PairwiseDistinct(s)
    ensures PairwiseDistinct(Without(s, a))
  {
    if s != [] {
      var front, last := s[..|s| - 1], s[|s| - 1];
      WithoutKeepsDistinct(front, a);
      forall i | 0 <= i < |Without(front, a)|
        ensures Without(front, a)[i] in front
      {
        WithoutMembers(front, a, Without(front, a)[i]);
      }
    }
  }

  lemma SamePairSymmetric(a: RoleAssignment, b: RoleAssignment)
    ensures SamePair(a, b) <==> SamePair(b, a)
  {
    if SamePair(a, b) {
      MapEqualsSymmetric(a.bindings, b.bindings);
    } else if SamePair(b, a) {
      MapEqualsSymmetric(b.bindings, a.bindings);
    }
  }

  lemma DistinctIsNew(s: seq<RoleAssignment>, i: nat)
    requires PairwiseDistinct(s) && i < |s|
    ensures s[i] !in s[..i]
  {
    MapEqualsSelf(s[i].bindings);
    assert forall j :: 0 <= j < i ==> (SamePair(s[j], s[i]) ==> j == i);
  }

  lemma AppendKeepsDistinct(s: seq<RoleAssignment>, a: RoleAssignment)
    requires PairwiseDistinct(s) && forall e :: e in s ==> !SamePair(e, a)
    ensures PairwiseDistinct(s + [a])
  {
    forall e
      ensures SamePair(a, e) <==> SamePair(e, a)
    {
      SamePairSymmetric(a, e);
    }
    MapEqualsSelf(a.bindings);
  }

  /** One row replaced by a good one, or taken out. */
  lemma RowStaysGood(t: Table, p: Principal, list: seq<RoleAssignment>)
    requires Good(t) && ValidPrincipal(p)
    requires PairwiseDistinct(list) && forall a :: a in list ==> a.role != ""
    ensures Good(t[PrincipalKey(p) := list]) && Good(t - {PrincipalKey(p)})
  {
    KeyRoundTrip(p);
  }

  lemma AppliesStayGood(t: Table, op: Op)
    requires Good(t)
    ensures Good(Apply(t, op))
  {
    match op
    case AssignOp(p, role, known, b) =>
      var a := RoleAssignment(role, b);
      if Assign(t, p, role, known, b).Ok? && !exists e :: e in Listing(t, p) && SamePair(e, a) {
        AppendKeepsDistinct(Listing(t, p), a);
        RowStaysGood(t, p, Listing(t, p) + [a]);
      }
    case UnassignOp(p, role, b) =>
      if Unassign(t, p, role, b).Ok? {
        var rest := Without(Listing(t, p), RoleAssignment(role, b));
        WithoutKeepsDistinct(Listing(t, p), RoleAssignment(role, b));
        forall x | x in rest
          ensures x in Listing(t, p)
        {
          WithoutMembers(Listing(t, p), RoleAssignment(role, b), x);
        }
        RowStaysGood(t, p, rest);
      }
    case DropOp(role) =>
      forall key | key in t
        ensures PairwiseDistinct(DropRole(t, role)[key])
      {
        FilterKeepsDistinct(t[key], (x: RoleAssignment) => x.role != role);
      }
  }

  /** Every table a run of assigns, unassigns and role deletions can lead to. */
  lemma {:induction false} TablesAreGood(ops: seq<Op>)
    ensures Good(RunOps(ops))
  {
    if ops != [] {
      TablesAreGood(ops[..|ops| - 1]);
      AppliesStayGood(RunOps(ops[..|ops| - 1]), ops[|ops| - 1]);
    }
  }

  // --- the two listings ------------------------------------------------------------------

  /** What RoleAssignmentsForRoleID lists, in some order. */
  ghost function HitsOf(t: Table, role: RoleId): set<AssignmentHit> {
    set key, a | key in t && a in t[key] && a.role == role && ParsePrincipalKey(key).Ok? ::
      AssignmentHit(role, a.bindings, ParsePrincipalKey(key).value)
  }

  lemma ListingsAgree(t: Table, role: RoleId, p: Principal, b: Bindings)
    requires Good(t)
    ensures ValidKind(p.kind) ==>
              (AssignmentHit(role, b, p) in HitsOf(t, role) <==> RoleAssignment(role, b) in Listing(t, p))
    ensures AssignmentHit(role, b, p) in HitsOf(t, role) ==> ValidPrincipal(p)
  {
    if ValidKind(p.kind) {
      KeyRoundTrip(p);
    }
    if AssignmentHit(role, b, p) in HitsOf(t, role) {
      var key, a :| key in t && a in t[key] && a.role == role && ParsePrincipalKey(key).Ok?
                 && AssignmentHit(role, b, p) == AssignmentHit(role, a.bindings, ParsePrincipalKey(key).value);
    }
  }

  /** The hits of one holder. */
  ghost predicate HitsFrom(list: seq<RoleAssignment>, role: RoleId, p: Principal, hits: seq<AssignmentHit>) {
    forall h :: h in hits <==> h.role == role && h.holder == p && RoleAssignment(role, h.bindings) in list
  }

  /** The hits of the holders visited, each once. */
  ghost predicate HitsSoFar(t: Table, role: RoleId, visited: set<string>, hits: seq<AssignmentHit>) {
    && NoDuplicates(hits)
    && forall h :: h in hits <==> h in HitsOf(t, role) && PrincipalKey(h.holder) in visited
  }

  lemma HitsAccumulate(t: Table, role: RoleId, visited: set<string>, hits: seq<AssignmentHit>,
                       key: string, here: seq<AssignmentHit>)
    requires Good(t) && HitsSoFar(t, role, visited, hits) && key in t && key !in visited
    requires HitsFrom(t[key], role, ParsePrincipalKey(key).value, here) && NoDuplicates(here)
    ensures HitsSoFar(t, role, visited + {key}, hits + here)
  {
    var p := ParsePrincipalKey(key).value;
    forall h
      ensures h in here <==> h in HitsOf(t, role) && PrincipalKey(h.holder) == key
    {
      if h in HitsOf(t, role) {
        ListingsAgree(t, role, h.holder, h.bindings);
        KeyRoundTrip(h.holder);
      }
      ListingsAgree(t, role, p, h.bindings);
    }
    forall i, j | 0 <= i < |hits| && 0 <= j < |here|
      ensures hits[i] != here[j]
    {
      assert hits[i] in hits && here[j] in here;
    }
  }

  lemma HitsComplete(t: Table, role: RoleId, hits: seq<AssignmentHit>)
    requires Good(t) && HitsSoFar(t, role, t.Keys, hits)
    ensures Elements(hits) == HitsOf(t, role)
  {
    forall h | h in HitsOf(t, role)
      ensures PrincipalKey(h.holder) in t
    {
      var key, a :| key in t && a in t[key] && a.role == role && ParsePrincipalKey(key).Ok?
                 && h == AssignmentHit(role, a.bindings, ParsePrincipalKey(key).value);
    }
  }

  // --- undoing an assignment -----------------------------------------------------------------

  lemma UnassignLast(t: Table, p: Principal, role: RoleId, b: Bindings)
    requires ValidPrincipal(p) && role != "" && RoleAssignment(role, b) !in Listing(t, p)
    ensures var key := PrincipalKey(p);
      Unassign(t[key := Listing(t, p) + [RoleAssignment(role, b)]], p, role, b)
      == Ok(if Listing(t, p) == [] then t - {key} else t[key := Listing(t, p)])
  {
    var key, a, held := PrincipalKey(p), RoleAssignment(role, b), Listing(t, p);
    var t1 := t[key := held + [a]];
    WithoutAbsent(held, a);
    WithoutLast(held, a);
    UnassignPresent(t1, p, a);
    LastUpdateStays(t, key, held + [a], held);
  }

  lemma LastUpdateStays<K, V>(m: map<K, V>, k: K, v: V, w: V)
    ensures m[k := v][k := w] == m[k := w] && m[k := v] - {k} == m - {k}
  {
  }

  lemma UnassignPresent(t: Table, p: Principal, a: RoleAssignment)
    requires ValidPrincipal(p) && a.role != "" && a in Listing(t, p)
    ensures var rest := Without(Listing(t, p), a);
      Unassign(t, p, a.role, a.bindings) == Ok(if rest == [] then t - {PrincipalKey(p)} else t[PrincipalKey(p) := rest])
  {
  }

  /** Assigning an absent pair and unassigning it again restores every listing. */
  lemma AssignThenUnassign(t: Table, p: Principal, role: RoleId, known: set<RoleId>, b: Bindings)
    requires Assign(t, p, role, known, b).Ok? && Assign(t, p, role, known, b).value != t
    ensures var t1 := Assign(t, p, role, known, b).value;
      Unassign(t1, p, role, b).Ok? &&
      forall q :: Listing(Unassign(t1, p, role, b).value, q) == Listing(t, q)
  {
    MapEqualsSelf(b);
    assert RoleAssignment(role, b) !in Listing(t, p);
    UnassignLast(t, p, role, b);
    ListingsRestored(t, p);
  }

  lemma ListingsRestored(t: Table, p: Principal)
    ensures var key, held := PrincipalKey(p), Listing(t, p);
      forall q :: Listing(if held == [] then t - {key} else t[key := held], q) == Listing(t, q)
  {
  }

  /** Assign compares bindings as text and unassign compares them as values, so
      an accepted assignment can be undone with the same bindings exactly when
      no pair that only prints alike was there before. */
  lemma AcceptedAssignmentIsUndone(t: Table, p: Principal, role: RoleId, known: set<RoleId>, b: Bindings)
    requires Good(t) && Assign(t, p, role, known, b).Ok?
    ensures Unassign(Assign(t, p, role, known, b).value, p, role, b).Ok?
       <==> forall e :: e in Listing(t, p) && e.role == role && MapEquals(e.bindings, b) ==> e.bindings == b
  {
    var a := RoleAssignment(role, b);
    MapEqualsSelf(b);
    forall e | e in Listing(t, p) && SamePair(e, a) && a in Listing(t, p)
      ensures e == a
    {
      MapEqualsSymmetric(e.bindings, b);
      var s := Listing(t, p);
      var i, j :| 0 <= i < |s| && s[i] == e && 0 <= j < |s| && s[j] == a;
    }
    if forall e :: e in Listing(t, p) && e.role == role && MapEquals(e.bindings, b) ==> e.bindings == b {
      if exists e :: e in Listing(t, p) && SamePair(e, a) {
        var e :| e in Listing(t, p) && SamePair(e, a);
        assert e == a;
      }
    }
  }

  /** The number 1 is taken for the text "1" on the way in, not on the way out. */
  lemma NumberAndTextAreConfused(p: Principal, role: RoleId)
    requires ValidPrincipal(p) && role != ""
    ensures var t := map[PrincipalKey(p) := [RoleAssignment(role, map["n" := Str("1")])]];
      Assign(t, p, role, {role}, map["n" := Int(1)]) == Ok(t)
      && Unassign(t, p, role, map["n" := Int(1)]).Err?
  {
    var held := RoleAssignment(role, map["n" := Str("1")]);
    var t: Table := map[PrincipalKey(p) := [held]];
    assert held in Listing(t, p);
    assert Itoa(1) == "1";
    assert SamePair(held, RoleAssignment(role, map["n" := Int(1)]));
    assert held.bindings["n"] == Str("1");
  }

  // --- the store's table, as Go keeps it ------------------------------------------------------

  type Slice = Slices.Slice<RoleAssignment>

  method HasPair(s: Slice, a: RoleAssignment) returns (present: bool)
    requires s.len <= s.buf.Length
    ensures present <==> exists e :: e in s.buf[..s.len] && SamePair(e, a)
  {
    for i := 0 to s.len
      invariant forall j :: 0 <= j < i ==> !SamePair(s.buf[j], a)
    {
      if SamePair(s.buf[i], a) {
        assert s.buf[i] in s.buf[..s.len];
        return true;
      }
    }
    present := false;
  }

  ghost predicate RowsShown(rows: map<string, Slice>, owner: map<array<RoleAssignment>, string>, shown: Table)
    reads owner.Keys
  {
    && rows.Keys <= shown.Keys
    && forall k :: k in rows ==> rows[k].buf in owner && owner[rows[k].buf] == k && Shows(rows[k], shown[k])
  }

  lemma RowAdded(rows: map<string, Slice>, owner: map<array<RoleAssignment>, string>, shown: Table, key: string,
                 row: Slice)
    requires RowsShown(rows, owner, shown)
    requires key in shown && key !in rows && row.buf !in owner && Shows(row, shown[key])
    ensures RowsShown(rows[key := row], owner[row.buf := key], shown)
  {
  }

  class AssignmentTable {
    var rows: map<string, Slice>

    /** The lists the slices show, and which key each backing array belongs to. */
    ghost var table: Table
    ghost var owner: map<array<RoleAssignment>, string>

    /** Every backing array the table has used. */
    ghost function Buffers(): set<object>
      reads this
    {
      owner.Keys
    }

    /** Every slice shows its list, and no two keys share a backing array. */
    ghost predicate Valid()
      reads this, Buffers()
    {
      && rows.Keys == table.Keys
      && forall key :: key in rows ==> Owns(key, rows[key].buf) && Shows(rows[key], table[key])
    }

    ghost predicate Owns(key: string, buf: array<RoleAssignment>)
      reads this
    {
      buf in owner && owner[buf] == key
    }

    /** Valid but for one row. */
    ghost predicate ValidBut(key: string)
      reads this, Buffers()
    {
      && rows.Keys == table.Keys
      && forall k :: k in rows && k != key ==> Owns(k, rows[k].buf) && Shows(rows[k], table[k])
    }

    constructor ()
      ensures Valid() && fresh(Buffers()) && table == map[]
    {
      rows, table, owner := map[], map[], map[];
    }

    /** s.assignments[key] = slice */
    method PutRow(key: string, s: Slice, ghost shown: seq<RoleAssignment>)
      requires ValidBut(key) && Shows(s, shown)
      requires forall k :: k in rows && k != key ==> rows[k].buf != s.buf
      modifies this
      ensures Valid() && rows == old(rows)[key := s] && table == old(table)[key := shown]
      ensures owner == old(owner)[s.buf := key]
    {
      rows := rows[key := s];
      table := table[key := shown];
      owner := owner[s.buf := key];
    }

    /** append: in place while the capacity lasts, else into a larger array. */
    method Append(key: string, a: RoleAssignment)
      requires Valid()
      modifies this, Buffers()
      ensures Valid() && fresh(Buffers() - old(Buffers()))
      ensures table == old(table)[key := (if key in old(table) then old(table)[key] else []) + [a]]
    {
      if key in rows && rows[key].len < rows[key].buf.Length {
        var s := rows[key];
        s.buf[s.len] := a;
        assert s.buf[..s.len + 1] == table[key] + [a];
        PutRow(key, MkSlice(s.buf, s.len + 1), table[key] + [a]);
      } else {
        var none := new RoleAssignment[0];
        ghost var was := if key in rows then table[key] else [];
        var grown := Grown(if key in rows then rows[key] else MkSlice(none, 0), a);
        PutRow(key, grown, was + [a]);
      }
    }

    method AssignRole(p: Principal, role: RoleId, known: set<RoleId>, bindings: Bindings) returns (r: Result<()>)
      requires Valid()
      modifies this, Buffers()
      ensures Valid() && fresh(Buffers() - old(Buffers()))
      ensures r.Ok? <==> Assign(old(table), p, role, known, bindings).Ok?
      ensures table == Apply(old(table), AssignOp(p, role, known, bindings))
    {
      if !ValidPrincipal(p) || role == "" || role !in known {
        return Err;
      }
      var key := PrincipalKey(p);
      var a := RoleAssignment(role, bindings);
      assert Listing(table, p) == if key in rows then table[key] else [];
      if key in rows {
        var present := HasPair(rows[key], a);
        if present {
          assert Assign(table, p, role, known, bindings) == Ok(table);
          return Ok(());
        }
      }
      assert Assign(table, p, role, known, bindings) == Ok(table[key := Listing(table, p) + [a]]);
      Append(key, a);
      r := Ok(());
    }

    /** The same slices over the same cells, those beyond the lengths included. */
    twostate predicate CellsKept()
      reads this, Buffers()
    {
      && rows == old(rows) && owner == old(owner)
      && forall buf, j :: buf in owner && 0 <= j < buf.Length ==> buf[j] == old(buf[j])
    }

    /** A failed call leaves every cell as it was, although the filter has run. */
    method UnassignRole(p: Principal, role: RoleId, bindings: Bindings) returns (r: Result<()>)
      requires Valid()
      modifies this, Buffers()
      ensures Valid() && Buffers() <= old(Buffers())
      ensures r.Ok? <==> Unassign(old(table), p, role, bindings).Ok?
      ensures table == Apply(old(table), UnassignOp(p, role, bindings))
      ensures r.Err? ==> CellsKept()
    {
      if !ValidPrincipal(p) || role == "" {
        return Err;
      }
      var key := PrincipalKey(p);
      if key !in rows {
        return Err;
      }
      var a := RoleAssignment(role, bindings);
      var s := rows[key];
      var kept, found := RemoveInPlace(s, a);
      if !found {
        return Err;
      }
      if kept == 0 {
        DeleteRow(key);
      } else {
        PutRow(key, MkSlice(s.buf, kept), Without(table[key], a));
      }
      r := Ok(());
    }

    /** delete(s.assignments, key) */
    method DeleteRow(key: string)
      requires ValidBut(key) && key in rows
      modifies this
      ensures Valid() && owner == old(owner)
      ensures table == old(table) - {key}
    {
      rows := rows - {key};
      table := table - {key};
    }

    method RoleAssignmentsForPrincipal(p: Principal) returns (r: Result<seq<RoleAssignment>>)
      requires Valid()
      ensures r == if ValidPrincipal(p) then Ok(Listing(table, p)) else Err
    {
      if !ValidPrincipal(p) {
        return Err;
      }
      var key := PrincipalKey(p);
      var s: seq<RoleAssignment> := [];
      if key in rows {
        for i := 0 to rows[key].len
          invariant s == table[key][..i]
        {
          PrefixGrows(table[key], i);
          s := s + [rows[key].buf[i]];
        }
        WholePrefix(table[key]);
      }
      r := Ok(s);
    }

    /** All holders of a role, in any order of the keys; a key that does not
        parse would fail the call. */
    method RoleAssignmentsForRoleID(role: RoleId) returns (r: Result<seq<AssignmentHit>>)
      requires Valid()
      ensures Good(table) ==> r.Ok? && NoDuplicates(r.value) && Elements(r.value) == HitsOf(table, role)
    {
      var hits: seq<AssignmentHit> := [];
      var pending := rows.Keys;
      while pending != {}
        invariant pending <= rows.Keys
        invariant Good(table) ==> HitsSoFar(table, role, rows.Keys - pending, hits)
      {
        var key :| key in pending;
        var p := ParsePrincipalKey(key);
        if p.Err? {
          return Err;
        }
        var here := HitsInRow(key, role, p.value);
        if Good(table) {
          HitsAccumulate(table, role, rows.Keys - pending, hits, key, here);
          assert rows.Keys - (pending - {key}) == (rows.Keys - pending) + {key};
        }
        hits := hits + here;
        pending := pending - {key};
      }
      if Good(table) {
        HitsComplete(table, role, hits);
      }
      r := Ok(hits);
    }

    method HitsInRow(key: string, role: RoleId, p: Principal) returns (hits: seq<AssignmentHit>)
      requires Valid() && key in rows
      ensures HitsFrom(table[key], role, p, hits)
      ensures PairwiseDistinct(table[key]) ==> NoDuplicates(hits)
    {
      hits := [];
      ghost var list := table[key];
      for i := 0 to rows[key].len
        invariant HitsFrom(list[..i], role, p, hits)
        invariant PairwiseDistinct(list) ==> NoDuplicates(hits)
      {
        PrefixGrows(list, i);
        var a := rows[key].buf[i];
        if a.role == role {
          var hit := AssignmentHit(role, a.bindings, p);
          if PairwiseDistinct(list) {
            DistinctIsNew(list, i);
          }
          AppendNew(hits, hit);
          hits := hits + [hit];
        }
      }
      WholePrefix(list);
    }

    /** DeleteRole's part: every row is filtered into a new array. */
    method DropRoleEverywhere(role: RoleId)
      requires Valid()
      modifies this
      ensures Valid() && fresh(Buffers() - old(Buffers()))
      ensures table == DropRole(old(table), role)
    {
      ghost var shown := DropRole(table, role);
      var copies, owners := FilteredRows(role, shown);
      ReplaceRows(copies, owners, shown);
    }

    method ReplaceRows(copies: map<string, Slice>, ghost owners: map<array<RoleAssignment>, string>, ghost shown: Table)
      requires copies.Keys == shown.Keys && RowsShown(copies, owners, shown)
      modifies this
      ensures Valid() && rows == copies && table == shown && owner == owners
    {
      rows, owner, table := copies, owners, shown;
    }

    method FilteredRows(role: RoleId, ghost shown: Table)
      returns (copies: map<string, Slice>, ghost owners: map<array<RoleAssignment>, string>)
      requires Valid() && shown == DropRole(table, role)
      ensures copies.Keys == shown.Keys && RowsShown(copies, owners, shown) && fresh(owners.Keys)
    {
      copies, owners := map[], map[];
      var pending := rows.Keys;
      while pending != {}
        invariant pending <= rows.Keys && copies.Keys == rows.Keys - pending
        invariant RowsShown(copies, owners, shown) && fresh(owners.Keys)
      {
        var key :| key in pending;
        var copy := CopyRow(key, role, shown);
        RowAdded(copies, owners, shown, key, copy);
        copies := copies[key := copy];
        owners := owners[copy.buf := key];
        pending := pending - {key};
      }
    }

    method CopyRow(key: string, role: RoleId, ghost shown: Table) returns (copy: Slice)
      requires Valid() && key in rows && shown == DropRole(table, role)
      ensures fresh(copy.buf) && Shows(copy, shown[key])
    {
      copy := FilteredCopy(rows[key], (x: RoleAssignment) => x.role != role);
    }
  }
}
