// ListGrants of the bootstrap and in-memory stores: filtering, and pages
// addressed by a printed offset.
module Pagination {
  import opened Types
  import opened Text
  import opened Collections

  datatype Query = Query(
    principals: seq<Principal>,
    teamScopes: seq<string>,
    objectScopes: seq<string>,
    permissions: seq<string>,
    prefix: string,
    limit: int,
    cursor: string)

  predicate Selected(g: Grant, q: Query) {
    && (q.principals != [] ==> g.Owner() in q.principals)
    && (q.teamScopes != [] ==> g.teamScope in q.teamScopes)
    && (q.objectScopes != [] ==> g.objectScope.Some? && g.objectScope.value in q.objectScopes)
    && (q.permissions != [] ==> g.permission in q.permissions)
    && HasPrefix(g.permission, q.prefix)
  }

  /** One answer; a slice expression out of range would panic instead. */
  datatype Answer =
    | Page(grants: seq<Grant>, next: string, total: nat)
    | Panics

  function Clamped(limit: int): nat {
    if limit <= 0 then 50 else if limit > 1000 then 1000 else limit
  }

  function Offset(cursor: string): int {
    if cursor == "" then 0
    else match Atoi(cursor) { case Ok(n) => n case Err => 0 }
  }

  /** 64-bit addition. */
  function Add(a: int, b: int): int {
    (a + b - MIN_INT) % 0x1_0000_0000_0000_0000 + MIN_INT
  }

  lemma AddIsExact(a: int, b: int)
    requires MIN_INT <= a + b <= MAX_INT
    ensures Add(a, b) == a + b
  {
  }

  /** The page of the filtered grants that a cursor asks for. */
  function PageOf(filtered: seq<Grant>, limit: int, cursor: string): Answer {
    var offset := Offset(cursor);
    var sum := Add(offset, Clamped(limit));
    var end := if sum > |filtered| then |filtered| else sum;
    var next := if end < |filtered| then Itoa(end) else "";
    if offset >= |filtered| then Page([], next, |filtered|)
    else if 0 <= offset <= end then Page(filtered[offset..end], next, |filtered|)
    else Panics
  }

  method SelectGrants(grants: seq<Grant>, q: Query) returns (filtered: seq<Grant>)
    ensures filtered == Filter(grants, g => Selected(g, q))
  {
    filtered := [];
    ghost var chosen := (g: Grant) => Selected(g, q);
    for i := 0 to |grants|
      invariant filtered == Filter(grants[..i], chosen)
    {
      FilterGrows(grants, i, chosen);
      if Selected(grants[i], q) {
        filtered := filtered + [grants[i]];
      }
    }
    WholePrefix(grants);
  }

  method ListGrants(grants: seq<Grant>, q: Query) returns (r: Answer)
    ensures r == PageOf(Filter(grants, g => Selected(g, q)), q.limit, q.cursor)
  {
    var filtered := SelectGrants(grants, q);
    var offset := 0;
    if q.cursor != "" {
      var parsed := Atoi(q.cursor);
      if parsed.Ok? {
        offset := parsed.value;
      }
    }
    var limit := q.limit;
    if limit <= 0 {
      limit := 50;
    } else if limit > 1000 {
      limit := 1000;
    }
    var end := Add(offset, limit);
    if end > |filtered| {
      end := |filtered|;
    }
    var page: seq<Grant> := [];
    if offset < |filtered| {
      if offset < 0 || offset > end {
        return Panics;
      }
      page := filtered[offset..end];
    }
    var next := "";
    if end < |filtered| {
      next := Itoa(end);
    }
    r := Page(page, next, |filtered|);
  }

  // --- following the cursors -------------------------------------------------------------

  /** More grants than any Go slice of them could hold. */
  const MAX_GRANTS := MAX_INT - 1000

  function Min(a: nat, b: nat): nat {
    if a <= b then a else b
  }

  /** A client following NextCursor: where it stands and what it has collected. */
  datatype Walk = Going(cursor: string, got: seq<Grant>) | Ended(got: seq<Grant>)

  function Follow(ask: string -> Answer, w: Walk): Walk {
    match w
    case Ended(_) => w
    case Going(cursor, got) =>
      match ask(cursor)
      case Panics => Ended(got)
      case Page(grants, next, _) => if next == "" then Ended(got + grants) else Going(next, got + grants)
  }

  /** After k calls, starting from the empty cursor. */
  function After(ask: string -> Answer, k: nat): Walk {
    if k == 0 then Going("", []) else Follow(ask, After(ask, k - 1))
  }

  /** The page behind a printed offset. */
  lemma PageAtOffset(filtered: seq<Grant>, limit: int, offset: nat, cursor: string)
    requires |filtered| <= MAX_GRANTS && offset <= |filtered|
    requires cursor == Itoa(offset) || (cursor == "" && offset == 0)
    ensures var end := Min(offset + Clamped(limit), |filtered|);
      PageOf(filtered, limit, cursor)
      == Page(filtered[offset..end], if end < |filtered| then Itoa(end) else "", |filtered|)
  {
    AtoiItoa(offset);
    AddIsExact(offset, Clamped(limit));
    if offset == |filtered| {
      assert filtered[offset..Min(offset + Clamped(limit), |filtered|)] == [];
    }
  }

  /** Everything before `offset` collected, and its cursor at hand. */
  function Standing(filtered: seq<Grant>, offset: nat): Walk
    requires offset <= |filtered|
  {
    Going(if offset == 0 then "" else Itoa(offset), filtered[..offset])
  }

  /** One page taken from there. */
  lemma FollowPage(filtered: seq<Grant>, ask: string -> Answer, offset: nat, end: nat)
    requires offset <= end <= |filtered| && (end < |filtered| ==> end > 0 && Itoa(end) != "")
    requires ask(Standing(filtered, offset).cursor)
          == Page(filtered[offset..end], if end < |filtered| then Itoa(end) else "", |filtered|)
    ensures Follow(ask, Standing(filtered, offset))
         == if end < |filtered| then Standing(filtered, end) else Ended(filtered)
  {
    assert filtered[..offset] + filtered[offset..end] == filtered[..end];
    assert filtered[..|filtered|] == filtered;
  }

  lemma FollowFrom(filtered: seq<Grant>, limit: int, ask: string -> Answer, offset: nat)
    requires |filtered| <= MAX_GRANTS && offset <= |filtered|
    requires forall c :: ask(c) == PageOf(filtered, limit, c)
    ensures var end := offset + Clamped(limit);
      Follow(ask, Standing(filtered, offset))
      == if end < |filtered| then Standing(filtered, end) else Ended(filtered)
  {
    var end := Min(offset + Clamped(limit), |filtered|);
    PageAtOffset(filtered, limit, offset, Standing(filtered, offset).cursor);
    if end < |filtered| {
      AtoiItoa(end);
    }
    FollowPage(filtered, ask, offset, end);
  }

  /** How many pages of `size` it takes from `offset` to the end; an empty list
      still takes one. */
  function PagesFrom(total: nat, offset: nat, size: nat): nat
    requires size > 0
    decreases total - offset
  {
    if offset + size >= total then 1 else 1 + PagesFrom(total, offset + size, size)
  }

  /** From the o-th place one page leads `size` places on, or to the end. */
  ghost predicate Leads(ask: string -> Answer, places: seq<Walk>, all: seq<Grant>, size: nat, o: nat)
    requires o < |places|
  {
    places[o].Going?
    && Follow(ask, places[o]) == (if o + size < |places| - 1 then places[o + size] else Ended(all))
  }

  lemma {:induction false} WalkFrom(ask: string -> Answer, places: seq<Walk>, all: seq<Grant>, size: nat,
                                    k: nat, offset: nat, last: nat)
    requires size > 0 && offset < |places| && last == k + PagesFrom(|places| - 1, offset, size)
    requires forall o :: 0 <= o < |places| ==> Leads(ask, places, all, size, o)
    requires After(ask, k) == places[offset]
    ensures After(ask, last) == Ended(all)
    ensures forall i :: k <= i < last ==> After(ask, i).Going?
    decreases |places| - offset
  {
    assert Leads(ask, places, all, size, offset);
    assert After(ask, k + 1) == Follow(ask, places[offset]);
    if offset + size < |places| - 1 {
      WalkFrom(ask, places, all, size, k + 1, offset + size, last);
    }
  }

  /** Following the cursors ends, after as many pages as it takes and no sooner,
      and has then listed every filtered grant once and in order. */
  lemma WalkIsComplete(filtered: seq<Grant>, limit: int, ask: string -> Answer)
    requires |filtered| <= MAX_GRANTS && forall c :: ask(c) == PageOf(filtered, limit, c)
    ensures var n := PagesFrom(|filtered|, 0, Clamped(limit));
      && (forall k :: 0 <= k < n ==> After(ask, k).Going?)
      && After(ask, n) == Ended(filtered)
  {
    var places := Places(filtered);
    forall o | 0 <= o < |places|
      ensures Leads(ask, places, filtered, Clamped(limit), o)
    {
      FollowFrom(filtered, limit, ask, o);
    }
    WalkFrom(ask, places, filtered, Clamped(limit), 0, 0, PagesFrom(|filtered|, 0, Clamped(limit)));
  }

  function Places(filtered: seq<Grant>): (places: seq<Walk>)
    ensures |places| == |filtered| + 1 && forall o :: 0 <= o < |places| ==> places[o] == Standing(filtered, o)
  {
    seq(|filtered| + 1, o requires 0 <= o <= |filtered| => Standing(filtered, o))
  }

  /** A page holds at most 50 grants unless another limit up to 1000 is asked for,
      and the pages before the last are full. */
  lemma PagesAreShort(filtered: seq<Grant>, limit: int, cursor: string)
    ensures PageOf(filtered, limit, cursor).Page? ==>
              var page := PageOf(filtered, limit, cursor);
              var size := if limit <= 0 then 50 else if limit > 1000 then 1000 else limit;
              |page.grants| <= size && page.total == |filtered|
              && (cursor == "" && |filtered| <= MAX_GRANTS ==>
                    |page.grants| == (if |filtered| < size then |filtered| else size)
                    && (page.next == "" <==> |filtered| <= size))
  {
    var offset := Offset(cursor);
    if 0 <= offset <= MAX_INT - 1000 {
      AddIsExact(offset, Clamped(limit));
    }
    if cursor == "" && Clamped(limit) < |filtered| <= MAX_GRANTS {
      AtoiItoa(Clamped(limit));
    }
  }

  /** A cursor that is no number starts over. */
  lemma MalformedCursorStartsOver(filtered: seq<Grant>, limit: int, cursor: string)
    requires Atoi(cursor).Err?
    ensures PageOf(filtered, limit, cursor) == PageOf(filtered, limit, "")
  {
  }

  /** What a query selects: each list given restricts one field, an empty list
      restricts nothing, and a grant without an object is in no object scope. */
  lemma SelectedExactly(g: Grant, q: Query)
    ensures Selected(g, q) <==>
              && (|q.principals| == 0 || exists p :: p in q.principals && p.kind == g.ownerKind && p.id == g.ownerId)
              && (|q.teamScopes| == 0 || exists t :: t in q.teamScopes && t == g.teamScope)
              && (|q.objectScopes| == 0 || exists o :: o in q.objectScopes && g.objectScope == Some(o))
              && (|q.permissions| == 0 || exists p :: p in q.permissions && p == g.permission)
              && q.prefix <= g.permission
  {
    assert forall p :: p in q.principals && p.kind == g.ownerKind && p.id == g.ownerId ==> p == g.Owner();
  }
}
