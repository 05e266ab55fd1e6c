// The five-second cache of disabled built-in roles (service.go): lookups with
// double-checked locking run beside disables and enables, one lock-level step
// at a time, in any interleaving.
module DisabledCache {
  import opened Types

  type Thread = nat

  const FIVE_SECONDS: Time := 5_000_000_000

  /** Where a thread stands between two steps. */
  datatype Phase =
    | Looking                       // about to look under the read lock
    | Missed                        // about to look again under the write lock
    | Filling                       // write lock held, store not yet read
    | Stamping(read: set<RoleId>)   // write lock held, store read
    | Answered(answer: set<RoleId>)
    | Changing(role: RoleId, disable: bool)   // about to change the store
    | Changed(role: RoleId, disable: bool)    // about to invalidate the cache
    | Returned(role: RoleId, disable: bool)

  /** cacheAt is None for the zero time. */
  datatype State = State(
    clock: Time,
    store: set<RoleId>,
    cache: Option<set<RoleId>>,
    cacheAt: Option<Time>,
    writer: Option<Thread>,
    threads: map<Thread, Phase>)

  datatype Event =
    | Tick(elapsed: nat)
    | Begin(t: Thread, call: Phase)       // a lookup, a disable or an enable is called
    | ReadLook(t: Thread)
    | WriteLook(t: Thread)
    | ReadStore(t: Thread)
    | Stamp(t: Thread)
    | ChangeStore(t: Thread)
    | Invalidate(t: Thread)
    | Elsewhere(store: set<RoleId>)       // another process writes the store

  predicate Fresh(s: State) {
    s.cacheAt.Some? && s.clock - s.cacheAt.value < FIVE_SECONDS && s.cache.Some?
  }

  predicate At(s: State, t: Thread, p: Phase) {
    t in s.threads && s.threads[t] == p
  }

  function Goes(s: State, t: Thread, p: Phase): State {
    s.(threads := s.threads[t := p])
  }

  ghost predicate Next(s: State, e: Event, s': State) {
    match e
    case Tick(d) => s' == s.(clock := s.clock + d)
    case Begin(t, call) => t !in s.threads && (call.Looking? || call.Changing?) && s' == Goes(s, t, call)
    case ReadLook(t) =>
      && At(s, t, Looking) && s.writer.None?
      && s' == Goes(s, t, if Fresh(s) then Answered(s.cache.value) else Missed)
    case WriteLook(t) =>
      && At(s, t, Missed) && s.writer.None?
      && s' == if Fresh(s) then Goes(s, t, Answered(s.cache.value)) else Goes(s, t, Filling).(writer := Some(t))
    case ReadStore(t) => At(s, t, Filling) && s' == Goes(s, t, Stamping(s.store))
    case Stamp(t) =>
      && t in s.threads && s.threads[t].Stamping?
      && s' == Goes(s, t, Answered(s.threads[t].read))
                 .(cache := Some(s.threads[t].read), cacheAt := Some(s.clock), writer := None)
    case ChangeStore(t) =>
      && t in s.threads && s.threads[t].Changing?
      && var Changing(r, disable) := s.threads[t];
         s' == Goes(s, t, Changed(r, disable)).(store := if disable then s.store + {r} else s.store - {r})
    case Invalidate(t) =>
      && t in s.threads && s.threads[t].Changed? && s.writer.None?
      && s' == Goes(s, t, Returned(s.threads[t].role, s.threads[t].disable)).(cacheAt := None)
    case Elsewhere(store) => s' == s.(store := store)
  }

  /** A run: the states passed through, with the event between each two. */
  datatype Trace = Trace(states: seq<State>, events: seq<Event>)

  ghost predicate IsRun(r: Trace) {
    && |r.states| == |r.events| + 1
    && r.states[0].cacheAt.None? && r.states[0].writer.None? && r.states[0].threads == map[]
    && forall n :: 0 <= n < |r.events| ==> Next(r.states[n], r.events[n], r.states[n + 1])
  }

  /** Step n is the one that gives thread t its answer. */
  ghost predicate Answers(r: Trace, n: nat, t: Thread) {
    && IsRun(r) && n < |r.events|
    && t in r.states[n + 1].threads && r.states[n + 1].threads[t].Answered?
    && !(t in r.states[n].threads && r.states[n].threads[t].Answered?)
  }

  // --- the lock ------------------------------------------------------------------

  predicate HoldsLock(p: Phase) {
    p.Filling? || p.Stamping?
  }

  /** Only the recorded writer is inside the write-locked section. */
  ghost predicate Locked(s: State) {
    && (s.cacheAt.Some? ==> s.cache.Some?)
    && forall t :: t in s.threads && HoldsLock(s.threads[t]) ==> s.writer == Some(t)
  }

  lemma {:induction false} RunIsLocked(r: Trace, n: nat)
    requires IsRun(r) && n < |r.states|
    ensures Locked(r.states[n])
  {
    if n > 0 {
      RunIsLocked(r, n - 1);
      assert Next(r.states[n - 1], r.events[n - 1], r.states[n]);
    }
  }

  // --- what a change guarantees -----------------------------------------------------

  /** The store, an unexpired cache and a fill in progress agree that `role` is
      disabled (or, with `disabled` false, that it is not). */
  ghost predicate Settled(s: State, role: RoleId, disabled: bool) {
    && (role in s.store) == disabled
    && (s.cacheAt.Some? && s.cache.Some? ==> (role in s.cache.value) == disabled)
    && forall t :: t in s.threads && s.threads[t].Stamping? ==> (role in s.threads[t].read) == disabled
  }

  /** The store keeps saying so from state i to state k. */
  ghost predicate StoreKeeps(r: Trace, i: nat, k: nat, role: RoleId, disabled: bool)
    requires k < |r.states|
  {
    forall n :: i <= n <= k ==> (role in r.states[n].store) == disabled
  }

  lemma {:induction false} StaysSettled(r: Trace, j: nat, k: nat, role: RoleId, disabled: bool)
    requires IsRun(r) && j <= k < |r.states| && Settled(r.states[j], role, disabled)
    requires StoreKeeps(r, j, k, role, disabled)
    ensures Settled(r.states[k], role, disabled)
    decreases k
  {
    if j < k {
      StaysSettled(r, j, k - 1, role, disabled);
      assert Next(r.states[k - 1], r.events[k - 1], r.states[k]);
      assert (role in r.states[k].store) == disabled;
    }
  }

  /** Once DisableBuiltInRole (or EnableBuiltInRole) has returned, and for as
      long as no one changes the role's entry in the store again, every lookup
      answers accordingly, whatever was cached or being filled meanwhile. */
  lemma LookupSeesChange(r: Trace, j: nat, k: nat, actor: Thread, t: Thread)
    requires IsRun(r) && j < k < |r.events| && r.events[j] == Invalidate(actor)
    requires actor in r.states[j].threads && r.states[j].threads[actor].Changed?
    requires StoreKeeps(r, j, k, r.states[j].threads[actor].role, r.states[j].threads[actor].disable)
    requires Answers(r, k, t)
    ensures var Changed(role, disable) := r.states[j].threads[actor];
      role in r.states[k + 1].threads[t].answer <==> disable
  {
    var Changed(role, disable) := r.states[j].threads[actor];
    RunIsLocked(r, j);
    assert Next(r.states[j], r.events[j], r.states[j + 1]);
    assert (role in r.states[j + 1].store) == disable;
    StaysSettled(r, j + 1, k, role, disable);
    assert Next(r.states[k], r.events[k], r.states[k + 1]);
  }

  /** The store keeps saying so, from a change on, unless someone changes it:
      no other call on this role reaches the store and no other process touches
      the role. */
  ghost predicate Undisturbed(r: Trace, i: nat, k: nat, role: RoleId, disabled: bool)
    requires IsRun(r) && k <= |r.events|
  {
    forall n :: i < n < k ==>
      && (r.events[n].ChangeStore? && r.events[n].t in r.states[n].threads
          && r.states[n].threads[r.events[n].t].Changing? && r.states[n].threads[r.events[n].t].role == role
          ==> r.states[n].threads[r.events[n].t].disable == disabled)
      && (r.events[n].Elsewhere? ==> (role in r.events[n].store) == disabled)
  }

  lemma {:induction false} UndisturbedKeeps(r: Trace, i: nat, k: nat, actor: Thread)
    requires IsRun(r) && i < k <= |r.events| && r.events[i] == ChangeStore(actor)
    requires actor in r.states[i].threads && r.states[i].threads[actor].Changing?
    requires Undisturbed(r, i, k, r.states[i].threads[actor].role, r.states[i].threads[actor].disable)
    ensures StoreKeeps(r, i + 1, k, r.states[i].threads[actor].role, r.states[i].threads[actor].disable)
    decreases k
  {
    if i + 1 < k {
      UndisturbedKeeps(r, i, k - 1, actor);
    }
    assert Next(r.states[k - 1], r.events[k - 1], r.states[k]);
  }

  /** From the calls' point of view: `actor` disables a role and returns; until the
      lookup answers, no call on that role does the opposite. */
  lemma DisableIsSeen(r: Trace, i: nat, j: nat, k: nat, actor: Thread, t: Thread, role: RoleId)
    requires IsRun(r) && i < j < k < |r.events|
    requires r.events[i] == ChangeStore(actor) && At(r.states[i], actor, Changing(role, true))
    requires r.events[j] == Invalidate(actor) && At(r.states[j], actor, Changed(role, true))
    requires Undisturbed(r, i, k, role, true) && Answers(r, k, t)
    ensures role in r.states[k + 1].threads[t].answer
  {
    UndisturbedKeeps(r, i, k, actor);
    LookupSeesChange(r, j, k, actor, t);
  }

  // --- how old an answer can be --------------------------------------------------------

  /** `value` is the store's set as some thread read it at step m and stamped at
      step n, and nothing has filled or invalidated the cache since, up to k. */
  ghost predicate LastFill(r: Trace, m: nat, n: nat, k: nat, value: set<RoleId>)
    requires IsRun(r)
  {
    && m < n < k <= |r.events|
    && r.events[n].Stamp? && r.events[m] == ReadStore(r.events[n].t)
    && value == r.states[m].store
    && forall x :: n < x < k ==> !r.events[x].Stamp? && !r.events[x].Invalidate?
  }

  /** The last fill before k gave `value`, less than five seconds before `now`. */
  ghost predicate RecentFill(r: Trace, k: nat, value: set<RoleId>, now: Time)
    requires IsRun(r)
  {
    exists m: nat, n: nat :: LastFill(r, m, n, k, value) && now - r.states[n].clock < 5_000_000_000
  }

  ghost predicate ReadAt(r: Trace, m: nat, k: nat, t: Thread, value: set<RoleId>)
    requires IsRun(r)
  {
    m < k <= |r.events| && r.events[m] == ReadStore(t) && value == r.states[m].store
  }

  lemma {:induction false} FillsAreReads(r: Trace, k: nat, t: Thread)
    requires IsRun(r) && k < |r.states|
    requires t in r.states[k].threads && r.states[k].threads[t].Stamping?
    ensures exists m :: ReadAt(r, m, k, t, r.states[k].threads[t].read)
  {
    if k > 0 {
      assert Next(r.states[k - 1], r.events[k - 1], r.states[k]);
      if t in r.states[k - 1].threads && r.states[k - 1].threads[t] == r.states[k].threads[t] {
        FillsAreReads(r, k - 1, t);
        var m :| ReadAt(r, m, k - 1, t, r.states[k].threads[t].read);
        assert ReadAt(r, m, k, t, r.states[k].threads[t].read);
      } else {
        assert ReadAt(r, k - 1, k, t, r.states[k].threads[t].read);
      }
    }
  }

  lemma {:induction false} CacheIsLastFill(r: Trace, k: nat)
    requires IsRun(r) && k < |r.states| && r.states[k].cacheAt.Some?
    ensures r.states[k].cache.Some?
    ensures exists m: nat, n: nat ::
              LastFill(r, m, n, k, r.states[k].cache.value) && r.states[k].cacheAt.value == r.states[n].clock
  {
    if k > 0 {
      var s, e := r.states[k - 1], r.events[k - 1];
      assert Next(s, e, r.states[k]);
      if e.Stamp? {
        FillsAreReads(r, k - 1, e.t);
        var m :| ReadAt(r, m, k - 1, e.t, s.threads[e.t].read);
        assert LastFill(r, m, k - 1, k, r.states[k].cache.value);
      } else {
        CacheIsLastFill(r, k - 1);
        var m: nat, n: nat :| LastFill(r, m, n, k - 1, s.cache.value) && s.cacheAt.value == r.states[n].clock;
        assert LastFill(r, m, n, k, r.states[k].cache.value);
      }
    }
  }

  /** Every answer is the store's set as the last fill read it, and that fill was
      stamped less than five seconds ago. */
  lemma AnswersAreFresh(r: Trace, k: nat, t: Thread)
    requires Answers(r, k, t)
    ensures RecentFill(r, k + 1, r.states[k + 1].threads[t].answer, r.states[k].clock)
  {
    var s, e, s' := r.states[k], r.events[k], r.states[k + 1];
    assert Next(s, e, s');
    CacheIsLastFill(r, k + 1);
    var m: nat, n: nat :| LastFill(r, m, n, k + 1, s'.cache.value) && s'.cacheAt.value == r.states[n].clock;
  }
}
