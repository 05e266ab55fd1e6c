# Verified model of the permission engine

This project models a Go authorization engine: roles that inherit from each
other, role assignments with bindings, allow and deny grants with team, object
and field scopes, the procedure that decides a request from them, the caches in
front of it and the manager that guards who may assign what. It proves what the
engine's parts promise, over every input, every run of operations or every
interleaving.

`dafny verify dfyconfig.toml` checks everything.

## How it is laid out

| files | what they hold |
|---|---|
| `Types`, `Text`, `Collections`, `Sorting`, `Slices` | values, trimming, dotted paths and decimal text, lists, sorting, Go slices over shared arrays |
| `RoleGraph`, `RoleIndex`, `Worklist`, `RoleExpansion` | reachability; the incrementally kept closure (a class over shared, live sets); the breadth-first form; the two expansion layers together |
| `Matching`, `AssignmentKeys`, `Decision`, `DecisionLaws`, `FieldChecks`, `Effective`, `Witnesses` | binding and matching one grant; deduplication keys; the decision procedure, with queries that fail, and its order-free verdict; what the verdict does not depend on; field checks; the listing of effective permissions; small services that show what the laws leave open |
| `Assignments`, `StoreModel`, `BootstrapStore`, `BuiltInRegistry`, `GrantScan`, `Pagination`, `Seeding`, `StoreLaws`, `SeedingLaws` | the bootstrap store and the built-in registry, as classes whose methods are proved against value functions; what each write means to the queries; what an equivalent grant is good for |
| `CachedStore`, `CacheLaws`, `DisabledCache` | the flushing read-through cache; its transparency; the five-second cache as interleaved lock-level steps |
| `ManagerRules`, `RuleLaws`, `InstanceBounds`, `ScopeIsolation`, `Removals`, `RoleManager` | the role assignment manager: rules, runs of changes, when each rule refuses, what the bounds on holders keep, what other scopes see, cleanups, and the class itself |
| `Policy`, `EndToEnd` | who holds what, what a grant says once bound and when a request is granted, said without any of the procedures; from writes to verdicts and listings: the procedures against that policy |

State that the Go code changes in place is a class here: the closure rows are
shared set objects (`RoleIndex.RoleSet`), and the loop that spreads descendants
reads the child's row while it may be writing it; assignment lists are slices of
backing arrays, filtered in place and appended to while the capacity lasts. Each
such method is proved against a function on values, and the laws are proved
about those functions.

Conventions. Map iteration order is an arbitrary choice (`:|`). Time is a
parameter. A binding value is a string, an integer, a float (its whole part and
its printed text) or any other value, told apart as `reflect.DeepEqual` does,
with its printed text. "Granted" means the call returned true without an error.
Errors carry no text. Cache keys are a datatype of operation and arguments.

## What came out

* The closure is reachability over the recorded edges as long as no role is
  deleted. `DeleteRole` restricts the rows and does not recompute them, so from
  then on they are reachability in the graph in which the deleted role is
  bypassed: `a -> r -> b` leaves `a` inheriting `b` with no edge recorded
  (`RoleIndex.DeletedRoleStaysBypassed`). A deletion leaves the rows equal to
  reachability over the recorded edges exactly when each parent of the role
  reaches each of its children some other way
  (`RoleIndex.DropKeepsReachability`).
* Store-then-registry expansion reaches what both edge sets reach exactly when
  no store edge leaves a built-in role. `Service.AddRoleInheritance` sends
  such an edge (built-in parent, custom child) to the store, which accepts it;
  expanding the built-in root then misses the child
  (`RoleExpansion.ExpandsFullyExactly`).
* The scope pre-filter drops grants that would have matched only for bindings
  printed as empty or `*` and for empty object scopes
  (`Matching.DroppedGrantMatches`). Otherwise all it can change is that a grant
  that does not bind goes unseen, so the filtered store grants a request the
  unfiltered one fails (`DecisionLaws.PreFilterKeepsVerdict`,
  `Witnesses.PreFilterHidesUnboundGrant`).
* `AssignRole` compares bindings as text and `UnassignRole` compares them as
  values: an accepted assignment cannot be undone with the same bindings when
  a pair that only prints alike was there before
  (`Assignments.AcceptedAssignmentIsUndone`).
* The comment on `EnsureGrantsForOwners` promises that each grant exists once. One call does not
  compare its new grants with each other: it writes equivalents exactly when
  two equivalent entries of its list are both missing
  (`Seeding.RepetitionIsWrittenExactly`).
* `CreateGrants` of the store keeps the grants before the first bad one.
* `RequireAtLeastRule` prints its minimum and never compares with it: what it
  keeps is one holder (`ManagerRules.MinimumIsOne`). Holders of the kind `role`
  are not counted, so a rule about that kind keeps nothing
  (`ManagerRules.OnlyRolesAreUnprotected`).
* `MinMaxInstancesRule` counts the holders of the assignee's ID only. A positive
  maximum is kept only where the rule refuses everything or nobody can be
  counted (`InstanceBounds.MinMaxKeepsMaxExactly`). The minimum is kept for every
  kind but `role` (`InstanceBounds.MinMaxKeepsMinExactly`), and bluntly: with a
  minimum of one or more nobody new comes to hold the role
  (`InstanceBounds.MinMaxAdmitsNobodyNew`) and nobody loses it
  (`InstanceBounds.MinMaxReleasesNobody`).
* A list of disabled roles that cannot be read counts as empty, so a disabled role
  grants (`Witnesses.UnreadableListGrants`). Every other failing query but that of
  a definition keeps a request from being granted
  (`Decision.EvaluatePermission`).
* An identity provider that names a group or team by an empty ID gets its caller
  nothing on a bootstrap store (`EndToEnd.AnsweredExactly`).
* Where two assignments share a deduplication key, the order of the groups
  decides which is kept and whether a request is granted
  (`Witnesses.OrderMattersWhereKeysCollide`).
* `CleanupAllRoleAssignments` is documented to remove all assignments in scope.
  It unassigns with exactly the scope's bindings, so an assignment in scope with
  any further binding stays (`Removals.OnlyExactIsSwept`).
* A field path with surrounding space hides an index from the check: `" 1.x"` is
  accepted, its ancestor `"1"` is refused (`FieldChecks.UntrimmedPathHidesIndex`).
* Principal keys of invalid kinds collide, and a grant's owner kind is not
  validated (`GrantScan.InvalidKindsShareKeys`). The one-pass scan is right
  exactly when nobody it should name shares a key
  (`GrantScan.ScanIsRightExactly`).
* Who manages one object or team never changes who holds what in another
  (`ScopeIsolation.OtherScopesAreLeftAlone`). Where nobody
  holds the role yet, `RequireAtLeastRule` for any kind, or for users, groups or
  teams, refuses every removal and every addition that brings no such holder
  (`RuleLaws.AdditionExactly`, `RuleLaws.RemovalExactly`).
* Seeding is as good as writing the whole list: no request tells a seeded store
  from one that holds every entry (`SeedingLaws.SeedingDecidesAsWritten`).
* A granted request's allow is missing from the listing of effective permissions
  exactly when a deny of single fields has the same key
  (`Effective.GrantedIsListed`); an absent and an empty object scope share a key
  (`Effective.EmptyAndNoObjectShareKeys`).

## Model

| member | source | states |
|---|---|---|
| RoleGraph.AddedEdgeReach | bootstrap_store.go:167-187 | one more edge p -> c makes b reachable from a exactly when it was already, or a reached p and c reached b: the law the incremental update rests on |
| RoleGraph.BypassReach | bootstrap_store.go:116-125 | taking a role out and joining its parents to its children changes nothing between the other roles |
| RoleIndex.ClosureIndex.LinkRoles | bootstrap_store.go:140-190 | on shared live sets, with the descendants read from the very row being written: rejected exactly for empty or equal IDs; otherwise every ancestor's row gains the child's whole old row and nothing else changes |
| RoleIndex.ClosureIndex.DropRole | bootstrap_store.go:104-128 | the role's row, its edges and every mention of it go; everything else stays |
| RoleIndex.ClosureIndex.TouchRole | bootstrap_store.go:79-82 | a role gets a row holding itself, unless it has one |
| RoleIndex.ClosureIndex.ExpandRoles | bootstrap_store.go:469-495 | in whatever map order, each role once; exactly the trimmed roots and their rows |
| RoleIndex.Absorb | bootstrap_store.go:179-185 | ranging over a map while adding its keys to a map that may be the same one ends with the union of both old contents |
| RoleIndex.LinkTracks | bootstrap_store.go:164-187 | if the rows are reachability in a graph, the update makes them reachability in the graph with the new edge, cycles included |
| RoleIndex.ClosureIsReachability | bootstrap_store.go:140-190 | over every run of creations and links in any order, a row holds exactly the roles reachable by recorded edges, and a role without a row reaches only itself |
| RoleIndex.RecordedExactly | bootstrap_store.go:140-162 | without deletions an edge is recorded if and only if it was linked between two different non-empty IDs |
| RoleIndex.RunTracks | bootstrap_store.go:104-190 | with deletions in the run, the rows are reachability in the graph in which each deleted role was bypassed |
| RoleIndex.ClosureStaysConsistent | bootstrap_store.go:104-190 | in every run the rows stay reflexive, transitive, closed under their own keys and a superset of the recorded edges |
| RoleIndex.DropKeepsReachability | bootstrap_store.go:104-136 | deleting a role keeps the rows equal to reachability over the recorded edges if and only if each of its parents still reaches each of its children by recorded edges |
| RoleIndex.RunIsRecordedReachability | bootstrap_store.go:104-190 | after every run the rows are reachability over the recorded edges if and only if those lead along every bypass |
| RoleIndex.DeletedRoleStaysBypassed | bootstrap_store.go:104-136 | the concrete run after which a role inherits another with no recorded edge left |
| RoleIndex.ExpansionIsReachability | bootstrap_store.go:469-495 | expanding a set of roots answers exactly what some root reaches |
| Worklist.TransitiveExpand | jsonstore/store.go:426-452 | terminates on every finite graph; each reachable role once and nothing else |
| Worklist.EdgeStore.AddRoleInheritance | jsonstore/store.go:455-477 | same refusals as the closure stores; the child is listed once under its parent |
| Worklist.SameEdges | jsonstore/store.go:455-477 | the same calls record the same edges in the adjacency lists as in the closure stores |
| Worklist.WorklistAgreesWithClosure | jsonstore/store.go:426-482 | after the same calls the worklist and the closure answer the same set, for trimmed non-empty IDs |
| RoleExpansion.ExpandsFullyExactly | service.go:514-532 | store-then-registry expansion equals reachability in the union of both edge sets if and only if no store edge leaves a built-in role |
| RoleExpansion.UnionSplits | service.go:1370-1375 | without such edges a path through both layers is a store path followed by a registry path |
| RoleExpansion.ExpandedIsReachableMinusDisabled | service.go:514-548 | the expansion is what both edge sets reach less exactly the disabled roles, whose descendants stay |
| RoleExpansion.ExpandRoles | service.go:1577-1627 | each role once; exactly the enabled members of the layered expansion of the list |
| RoleExpansion.ListExpansionIsUnion | service.go:1577-1627 | expanding a list at once gives the union of the expansions of its members |
| Matching.ResolvingKeepsTheRest | service.go:841-882 | binding rewrites scopes only: expiry, effect, owner, permission and field restrictions survive it |
| Matching.FieldOrder | service.go:767-802 | a deny that applies to a dotted ancestor applies to the path, an allow that applies to the path applies to the ancestor |
| Matching.DroppedGrantMatches | bootstrap_store.go:335-375 | a dropped grant matches after binding if and only if its scope bound to an empty or `*` value that the request leaves open |
| Matching.PreFilterIsConservative | bootstrap_store.go:703-721 | with bindings neither empty nor `*` and a non-empty object scope, no dropped grant matches after binding |
| Matching.EmptyObjectScopeIsDropped | bootstrap_store.go:703-721 | the object-scope condition is needed |
| Matching.StarBindingIsDropped | bootstrap_store.go:703-721 | the binding condition is needed |
| AssignmentKeys.AssignmentKey | service.go:1042-1062 | whatever order the map yields its keys in, the text is the one over the sorted keys |
| AssignmentKeys.KeyInjective | service.go:1042-1062 | string bindings without the three separators: equal keys if and only if equal assignments |
| AssignmentKeys.KeysCollide | service.go:1042-1062 | each condition is needed: a comma in a value, a number beside its text, an equals sign in a key and a colon in a role make different assignments collide |
| Decision.ResolveNames | service.go:909-956 | fails exactly when the identity provider does, for a named caller; each group or team once, in order of first mention; none for an anonymous caller |
| Decision.DistinctKeepsOrder | service.go:909-956 | of two names that are kept the earlier is the one mentioned first |
| Decision.ResolveRoleAssignments | service.go:958-1040 | fails exactly when some listing of the caller's, a group's or a team's assignments does; otherwise the active assignments of user, groups, teams and synthetic roles, the first of each key |
| DecisionLaws.UnlistedRoleExactly | service.go:1064-1080 | a role that no listing assigns is held if and only if it is the public role, or the caller is named and it is the authenticated role, or the admin role with an admin group set that is among the caller's groups |
| Decision.ExpandRolesCached | service.go:514-548 | with a cache that tells the truth it fails exactly when the store cannot expand a custom root, answers the uncached expansion otherwise, and the cache stays truthful |
| Decision.FetchRoleGrants | service.go:438-459 | the registry's grants for built-in owners, then the store's for the others, failing exactly when the store fails for some |
| Decision.EvaluateDirect | service.go:354-377 | early deny exit or not, it reports exactly whether an unexpired applicable deny exists and, if none, whether an allow does |
| Decision.EvaluateRoleGrants | service.go:402-432 | fails only on a relevant unbindable grant, denies only on an applicable bound deny, and otherwise reports exactly whether an allow applies |
| Decision.EvaluatePermission | service.go:325-436 | grants if and only if every query it needs is answered, a permission is named, every fetched role grant in force binds, no applicable deny exists and an applicable allow does; errors only if a query fails, without a permission or with an unbindable grant |
| Decision.HasPermission | service.go:321-323 | the whole-object verdict; errors for the same causes only |
| DecisionLaws.UnreadableListDisablesNothing | service.go:519-522 | a list of disabled roles that cannot be read decides every request as an empty list would |
| Witnesses.UnreadableListGrants | service.go:519-522 | a request that a disabled role grants when the list of disabled roles cannot be read |
| DecisionLaws.SameVerdict | service.go:325-436 | stores that answer alike up to order, repetition, expired grants and nil against empty specs give the same verdict |
| DecisionLaws.DedupDropsOnlyRepetitions | service.go:958-1062 | deduplication drops nothing but repetitions if and only if no two of the caller's active assignments share a key |
| DecisionLaws.DedupIsHarmless | service.go:958-1040 | while the keys tell the caller's assignments apart, deduplication drops only repetitions and never changes a verdict |
| DecisionLaws.CleanKeysTellApart | service.go:1042-1062 | string bindings and no separators are enough for the keys to tell assignments apart |
| DecisionLaws.GrantingIsOrderFree | service.go:325-436 | while the keys tell the caller's assignments apart, the order of groups, teams, assignments, expanded roles and grants never changes a verdict |
| Witnesses.OrderMattersWhereKeysCollide | service.go:958-1040 | where two assignments share a key, the order of the groups decides a verdict |
| DecisionLaws.PreFilterKeepsVerdict | bootstrap_store.go:335-375 | with clean bindings and scopes the unfiltered store grants if and only if the filtered one does and every fetched grant binds |
| Witnesses.PreFilterHidesUnboundGrant | bootstrap_store.go:335-375 | a request that only the filtered store grants, the grant that does not bind being filtered away |
| FieldChecks.IsIndexedFieldPath | service.go:804-823 | some dot-separated part is a number |
| FieldChecks.HasFieldPermission | service.go:288-297 | grants exactly when the path is accepted and the verdict on it is; refuses indexed and blank paths, and errors otherwise only when the decision does |
| FieldChecks.FieldPathMatchesExactly | service.go:791-802 | a restriction names a path if and only if both trim to something and the parts of the first begin those of the second, the field itself included |
| FieldChecks.FieldDenyRefuses | service.go:767-802 | no check at or below the field of a deny that bears on the caller and meets the request is granted |
| FieldChecks.FieldAllowApplies | service.go:767-802 | an allow restricted to fields applies exactly to the paths that are none of them and below none of them |
| FieldChecks.IndexedExactly | service.go:804-823 | an indexed path is one with a dot-separated part of digits only |
| Text.PartsBegin | service.go:791-802 | the parts of one path begin those of another if and only if it is that path or is followed in it by a dot |
| Text.TrimSpaceExactly | service.go:791-802 | trimming cuts off spaces at both ends and leaves none there |
| FieldChecks.FilterPermittedFields | service.go:299-319 | the permitted paths, each once in order of first mention; any path not accepted fails the call, and otherwise only a decision that cannot be made |
| FieldChecks.FieldChecksAreOrdered | service.go:366-376 | a granted field check implies the whole-object grant, and a grant on each dotted ancestor if and only if that ancestor is not refused as indexed |
| FieldChecks.TrimmedPathsHaveNoIndexedAncestor | service.go:804-823 | for trimmed paths no ancestor is refused |
| FieldChecks.UntrimmedPathHidesIndex | service.go:804-823 | the untrimmed path for which one is |
| Effective.Accumulate | service.go:576-610 | a deny is final for its key and the first allow of a key stays: both maps mean what the contributions so far amount to |
| Effective.EffectivePermissions | service.go:553-681 | fails exactly without a user or when a query does; a key is listed if some contribution allows and none denies under it, and its entry, with name and description of the role, is made of its first allow |
| Effective.EntriesAreAllows | service.go:576-630 | an entry joins back to its key from its own team scope, object scope and permission, is no deny, and has owner, effect and restricted fields of an allow that contributes |
| Effective.AllowedTeamsForUser | service.go:683-704 | fails exactly without a permission or a user or when the listing does; otherwise each team once, exactly those a listed allow of the permission is scoped to |
| Effective.AllowedTeamsExactly | service.go:683-704 | with colon-free scopes that is: some contributing allow of the permission in the team is denied by no deny of the same object |
| Effective.ListingIsUnique | service.go:553-681 | the contributions determine the answer, entries included |
| Effective.ListedInAnyOrder | service.go:553-681 | which keys are listed does not depend on any order |
| Effective.KeysTellScopes | service.go:833-839 | without separators in the scopes, keys are equal if and only if team scope, object text and permission are |
| Effective.EmptyAndNoObjectShareKeys | service.go:833-839 | an absent and an empty object scope share a key |
| Effective.GrantedIsListed | service.go:553-681 | each matching allow of a granted request is in the listing if and only if no field-restricted deny has its key |
| Effective.SameListing | service.go:553-681 | stores that answer alike, in whatever order, list the same keys |
| Effective.SameAnswer | service.go:553-681 | stores whose grants come in the same order give the same answer, entry by entry, however roles are expanded |
| Assignments.KeyRoundTrip | bootstrap_store.go:497-521 | the printed key of a principal of valid kind parses back to it, colons in the ID included |
| Assignments.KeysAreInjective | bootstrap_store.go:497-499 | distinct principals of valid kinds have distinct keys |
| Assignments.TablesAreGood | bootstrap_store.go:192-311 | in every run every key parses back to its principal and nobody holds two assignments equal in role and printed bindings |
| Assignments.ListingsAgree | bootstrap_store.go:192-235 | the by-principal and the by-role listing describe the same pairs |
| Assignments.AssignThenUnassign | bootstrap_store.go:237-311 | assigning an absent pair and unassigning it restores every listing |
| Assignments.AcceptedAssignmentIsUndone | bootstrap_store.go:237-311 | an accepted assignment can be undone with the same bindings if and only if no pair that only prints alike was there |
| Assignments.StringBindingsExactly | bootstrap_store.go:523-534 | bindings to strings print alike if and only if they are equal |
| Assignments.NumberAndTextAreConfused | bootstrap_store.go:523-534 | the number 1 is taken for the text "1" when assigning and not when unassigning |
| Assignments.AssignmentTable.AssignRole | bootstrap_store.go:237-270 | on slices over shared arrays: the pair is appended unless one that prints alike is there, for a known role and a valid principal |
| Assignments.AssignmentTable.UnassignRole | bootstrap_store.go:272-311 | all equal pairs go; a failed call leaves every cell of every array as it was although the in-place filter has run |
| Assignments.AssignmentTable.RoleAssignmentsForPrincipal | bootstrap_store.go:192-210 | the principal's list |
| Assignments.AssignmentTable.RoleAssignmentsForRoleID | bootstrap_store.go:212-235 | in a well-formed table never fails and lists each holder's pair once |
| Assignments.AssignmentTable.DropRoleEverywhere | bootstrap_store.go:126-135 | every list loses the role and keeps its order |
| StoreModel.StoresAreSound | bootstrap_store.go:63-333 | in every run of writes the rows are reachability, the assignment table is well-formed, every stored role has a row and every grant passed the checks |
| StoreModel.DeletedRoleIsUnassigned | bootstrap_store.go:104-136 | after a deletion no definition, row, mention, edge or assignment of the role is left |
| StoreLaws.AssignableExactly | bootstrap_store.go:237-270 | assigning is refused exactly for a nameless principal, an unknown kind, an empty role, or a role neither stored nor in the built-in list |
| StoreLaws.UnassignableExactly | bootstrap_store.go:272-311 | unassigning is refused exactly for the same principals, an empty role, or a pair that is not there |
| StoreLaws.RefusedExactly | bootstrap_store.go:63-190 | the exact refusals of the other writes |
| StoreLaws.DefinitionAfter | bootstrap_store.go:63-136 | a definition is what was last created or updated under its ID, until it is deleted; no other write touches it |
| StoreLaws.GrantsAfter | bootstrap_store.go:313-417 | a principal's answer gains exactly a grant created for it while that is in force, is empty after a deletion for it, and is untouched by every other write |
| StoreLaws.DisabledAfter | bootstrap_store.go:572-590 | disabling and enabling move the one role and nothing else does |
| StoreLaws.ListingAfter | bootstrap_store.go:192-311 | no write but assigning, unassigning and deleting a role changes what a principal is assigned |
| StoreLaws.AssignedAfter | bootstrap_store.go:237-270 | an accepted assignment is listed last, or one with the same role that prints alike was there and nothing changed |
| BootstrapStore.Store.CreateRole | bootstrap_store.go:63-84 | refused exactly for a missing ID or name or an existing role, and then without effect |
| BootstrapStore.Store.DeleteRole | bootstrap_store.go:104-136 | refused exactly for an unknown role; otherwise definition, index entries and assignments go together |
| BootstrapStore.Store.AddRoleInheritance | bootstrap_store.go:140-190 | the store's state after it is the index step, nothing else changes |
| BootstrapStore.Store.AssignRole | bootstrap_store.go:237-270 | known are the built-in and the stored roles |
| BootstrapStore.Store.GrantsForPrincipal | bootstrap_store.go:313-333 | exactly the unexpired grants of a valid principal, in order |
| BootstrapStore.Store.GrantsForOwners | bootstrap_store.go:335-375 | exactly the unexpired grants of valid owners that match the permission, if named, and pass the pre-filter, in order |
| BootstrapStore.Store.CreateGrants | bootstrap_store.go:395-417 | writes the prefix before the first bad grant, all if there is none |
| BootstrapStore.Store.DeleteGrantsForOwner | bootstrap_store.go:557-570 | exactly the owner's grants go, the others keep their order |
| BootstrapStore.Store.PrincipalsWithGrant | bootstrap_store.go:419-467 | strictly sorted; names exactly the principals with an unexpired allow and no unexpired deny if and only if none of them shares its key with another grant in force, which valid owner kinds ensure |
| BootstrapStore.Store.DisabledBuiltInRoles | bootstrap_store.go:592-601 | the disabled set, sorted, each once |
| GrantScan.PrincipalsWithGrant | bootstrap_store.go:419-467 | one pass over the grants yields, sorted and each once, the first allow of every key that no deny speaks against |
| GrantScan.HitShowsFirstAllow | bootstrap_store.go:419-467 | a hit shows owner, scopes and permission of an allow in force, every earlier grant in force under its key being a deny |
| GrantScan.ScanIsRightExactly | bootstrap_store.go:419-467 | the answer names exactly the principals with an unexpired allow and no unexpired deny if and only if every grant in force under the key of such a principal is its own |
| GrantScan.ScanIsDenyWins | bootstrap_store.go:419-467 | for valid owner kinds, whatever the order, a principal is named if and only if it has an unexpired allow and no unexpired deny |
| GrantScan.InvalidKindsShareKeys | bootstrap_store.go:497-499 | such an input: two owners of invalid kinds with one key, the deny of one counting against the other |
| Pagination.ListGrants | bootstrap_store.go:603-701 | the page at the cursor's offset of the filtered grants, with 64-bit offsets and the clamped limit |
| Pagination.WalkIsComplete | bootstrap_store.go:603-701 | following NextCursor from the empty cursor ends after a stated number of pages with the filtered list, each grant once and in order |
| Pagination.PagesAreShort | bootstrap_store.go:603-701 | no page is longer than 50 grants, or the limit asked for up to 1000; the first page is full or the only one, and every page tells the total |
| Pagination.SelectedExactly | bootstrap_store.go:603-675 | each list a query gives restricts one part of the grant, an empty list nothing, the prefix the permission; without an object a grant is in no object scope |
| Pagination.MalformedCursorStartsOver | bootstrap_store.go:676-699 | a cursor that is no number asks for the first page |
| Text.AtoiItoa | bootstrap_store.go:676-699 | a printed offset parses back to itself, also within 64 bits |
| Seeding.CompareStringSets | service.go:1673-1694 | comparing sorted copies decides whether the lists hold the same strings, repetitions counted |
| Seeding.EnsureGrantsForOwners | service.go:1145-1190 | writes all missing grants in order or, on any error, none |
| SeedingLaws.EquivalentExactly | service.go:1637-1694 | grants are equivalent if and only if they agree in owner, effect, permission, scopes, expiry and variables and restrict the same fields, repetitions counted |
| SeedingLaws.EquivalenceHolds | service.go:1637-1694 | that is an equivalence relation |
| SeedingLaws.EquivalentsDecideAlike | service.go:1637-1694 | equivalent grants expire together, have one owner and effect, bind or fail alike to every assignment, and apply alike to every request and path, bound or not |
| SeedingLaws.SeedingDecidesAsWritten | service.go:1145-1190 | after seeding every request is decided as if the whole list had been written, whatever equivalents the store had |
| Seeding.SeedingEstablishes | service.go:1145-1190 | afterwards every input that is unexpired has an equivalent stored grant |
| Seeding.SeedingIsIdempotent | service.go:1145-1190 | while they are unexpired, repeating the call adds nothing |
| Seeding.RepetitionIsWrittenExactly | service.go:1145-1190 | one call writes two equivalent grants if and only if its list has two equivalent entries that are both not in force |
| Seeding.RepeatedEntryIsWrittenTwice | service.go:1145-1190 | such an input: a missing grant listed twice in one call is written twice |
| BuiltInRegistry.Registry.RegisterRole | builtin_registry.go:30-52 | refused exactly without built-in prefix, ID or name; registering again replaces the definition |
| BuiltInRegistry.Registry.AddRoleInheritance | builtin_registry.go:73-119 | only edges between built-in roles, kept as in the store |
| BuiltInRegistry.Registry.ExpandRoles | builtin_registry.go:121-145 | each role once; exactly the trimmed roots and their rows |
| BuiltInRegistry.Registry.AddGrant | builtin_registry.go:147-171 | an empty team scope becomes `*`; an equivalent grant is not added again |
| BuiltInRegistry.AddedStaysDistinct | builtin_registry.go:147-171 | no two equivalent grants are ever kept; adding one again changes nothing, a new one is appended with an empty team scope made `*` |
| BuiltInRegistry.Registry.GrantsForOwners | builtin_registry.go:173-199 | the unexpired grants of the role IDs, by permission, without looking at scopes |
| BuiltInRegistry.RegistryGrantsExactly | builtin_registry.go:173-199 | answered are the grants in force whose owner ID is that of a role asked for, of the permission if named, whatever their own owner kind and scopes |
| BuiltInRegistry.RegistryIndex | builtin_registry.go:73-119 | over every run the rows are reachability over edges between built-in roles |
| CachedStore.Store.Read | cachedstore/store.go:52-186 | every answer is what the base, as it is now, answered at a moment at most the time to live ago; an unexpired entry is used and kept, anything else is fetched and, if no error, kept for the time to live |
| CachedStore.Store.Write | cachedstore/store.go:188-266 | a failed write leaves base and cache alone, a successful one leaves nothing stale behind |
| CachedStore.CachedGrantsOnlyExpire | cachedstore/store.go:120-169 | of an earlier grant answer exactly what is still in force is what the base would answer now |
| CachedStore.CachedAnswersAreLive | cachedstore/store.go:52-118 | all answers that do not look at expiry are what the base would answer now |
| CacheLaws.ReadIsFetchedBefore | cachedstore/store.go:154-169 | what a cached read promises of a grant query is what the transparency result assumes of the cached store |
| CacheLaws.ReadServesRoles | cachedstore/store.go:70-152 | the same for assignments, definitions and expansions |
| CacheLaws.ReadServesRest | cachedstore/store.go:52-186 | and for the other queries: definitions, holders of a role, a principal's grants, who is entitled, and pages with cursor and total |
| CacheLaws.CacheIsTransparent | cachedstore/store.go:70-169 | behind the cache every request is decided, every failure met and every effective listing made, entry by entry, as on the base at that moment |
| DisabledCache.LookupSeesChange | service.go:464-510 | in every interleaving, after a disable or enable has returned and while the store keeps saying so, every lookup that began later answers so |
| DisabledCache.DisableIsSeen | service.go:1256-1271 | a lookup begun after a disable returned, with no enable of the role begun, reports the role disabled |
| DisabledCache.CacheIsLastFill | service.go:464-510 | the cache is the store's set as read by the last fill, with that fill's stamp |
| DisabledCache.AnswersAreFresh | service.go:464-510 | every answer is what the last fill read, less than five seconds before |
| ManagerRules.RemoveKeepsHolder | role_assignment_manager.go:632-704 | a removal the rule let pass leaves an in-scope holder, of the rule's kind if set |
| ManagerRules.HolderIsNeverLost | role_assignment_manager.go:117-275 | over every run of additions, removals and bulk removals under RequireAtLeastRule, whatever its minimum, a role that has an in-scope holder keeps one |
| ManagerRules.BulkKeepsHolder | role_assignment_manager.go:706-761 | bulk removal keeps a holder when guarded by the removal rule alone, whatever the assignment rules do meanwhile |
| ManagerRules.OnlyRolesAreUnprotected | role_assignment_manager.go:684-703 | the rule keeps a holder in every change if and only if its kind is not "role" |
| ManagerRules.MinimumIsOne | role_assignment_manager.go:624-704 | for every kind: the rule keeps its minimum if and only if it is at most one, at most zero for the kind "role", and anything for an unknown kind, which nobody has |
| InstanceBounds.MinMaxOfNewcomer | role_assignment_manager.go:500-622 | for an assignee whose ID does not hold the role, MinMaxInstancesRule passes if and only if its minimum is at most zero, whoever else holds the role and whatever the maximum |
| InstanceBounds.MinMaxAdmitsNobodyNew | role_assignment_manager.go:500-622 | over every run under MinMaxInstancesRule with a minimum of at least one, no ID comes to hold the role that did not hold it |
| InstanceBounds.MinMaxReleasesNobody | role_assignment_manager.go:500-622 | and over every such run no holder, of whatever kind, loses the role |
| InstanceBounds.MinMaxKeepsMinExactly | role_assignment_manager.go:500-622 | no change takes the holders below the minimum if and only if the kind is not "role" or the minimum is at most zero |
| InstanceBounds.MinMaxKeepsMaxExactly | role_assignment_manager.go:500-622 | no change takes the holders above a positive maximum if and only if the kind is not "role" and either the bounds exclude each other, so that everything is refused, or nobody is of the kind |
| ManagerRules.NeverCombined | role_assignment_manager.go:469-489 | over every run, changes that fail part-way included, a principal that does not hold both roles in scope never comes to |
| ManagerRules.SelfChangesAreRuled | role_assignment_manager.go:362-464 | over every run of a principal's own changes it gains and loses only roles the two self rules leave it; with both lists empty its in-scope roles never change |
| RuleLaws.AdditionExactly | role_assignment_manager.go:100-132 | adding roles does nothing if some rule refuses, and otherwise what it does without rules; a rule refuses: a new role the self rule prohibits, both roles of a pair held or added, no counted holder and none coming, a number of the assignee's own holdings out of bounds |
| RuleLaws.RemovalExactly | role_assignment_manager.go:134-167 | the same for removing: a held role the self rule protects, a pair still held, as many counted holders as go, the assignee's own holdings out of bounds |
| RuleLaws.BulkExactly | role_assignment_manager.go:228-285 | a bulk removal does nothing if a removal rule finds every holder it counts on the lists, nobody included, and otherwise what it does without removal rules |
| ManagerRules.InScopeExactly | role_assignment_manager.go:763-825 | an assignment is in scope if and only if it has every binding the manager makes whose value is not the wildcard, with that very value |
| ManagerRules.AssignAllGives | role_assignment_manager.go:117-132 | after adding known roles each is listed with bindings that print like the scope's |
| ScopeIsolation.RunLeavesOthers | role_assignment_manager.go:117-275 | over every run of changes, whatever is not bound exactly to the scope neither comes nor goes |
| ScopeIsolation.OtherScopesAreLeftAlone | role_assignment_manager.go:117-275 | over every run of a manager of one object, or team, the roles anybody holds in the scope of another never change |
| Removals.BulkSuccessLeavesNone | role_assignment_manager.go:228-275 | a bulk removal that reports success has left none of the listed users and groups any role in scope |
| Removals.TeamIsCleaned | role_assignment_manager.go:319-342 | afterwards the team holds no managed role and nobody else's assignments have changed |
| Removals.OnlyExactIsSwept | role_assignment_manager.go:290-314 | what goes is exactly what was bound exactly to the scope; a managed role has no in-scope holder left if and only if nothing was bound differently |
| RoleManager.FilterAssignmentsByScope | role_assignment_manager.go:795-825 | exactly the in-scope assignments, in order |
| RoleManager.DiffRoleAssignments | role_assignment_manager.go:833-866 | exactly the two set differences restricted to the filter, each ID once |
| RoleManager.CheckCannotAddSelf | role_assignment_manager.go:362-409 | refuses exactly when the assigner is the assignee and some newly proposed role is prohibited, all being so for an empty list |
| RoleManager.CheckCannotRemoveSelf | role_assignment_manager.go:418-464 | the same for roles missing from the proposal |
| RoleManager.RoleAssignmentManager.ComputeProposed | role_assignment_manager.go:195-226 | the two differences of the desired and the current in-scope roles |
| RoleManager.RoleAssignmentManager.Validate | role_assignment_manager.go:362-704 | the loops and counters of each of the five rules decide its condition on sets |
| RoleManager.RoleAssignmentManager.ValidateRemoval | role_assignment_manager.go:706-761 | the removal rule's counts decide its condition on sets |
| RoleManager.RoleAssignmentManager.CanMakeAssignmentChange | role_assignment_manager.go:58-98 | passes exactly when every rule permits going from the current to the desired roles |
| RoleManager.RoleAssignmentManager.AddRoles | role_assignment_manager.go:100-132 | nothing unless all rules pass, then role by role up to the first failure; succeeds exactly when the rules pass and all roles are known |
| RoleManager.RoleAssignmentManager.RemoveRoles | role_assignment_manager.go:134-167 | the same for removal; succeeds exactly when the rules pass and each listed role is held bound to the scope and listed once |
| RoleManager.RoleAssignmentManager.RemoveBulkUsers | role_assignment_manager.go:228-285 | the removal rules see the table before anything goes; then principal by principal, past refusals, up to an unreadable one; succeeds exactly when there was neither |
| RoleManager.RoleAssignmentManager.CleanupTeamRoleAssignments | role_assignment_manager.go:319-342 | fails only for an empty team ID, and then without effect |
| RoleManager.RoleAssignmentManager.CleanupAllRoleAssignments | role_assignment_manager.go:290-314 | succeeds exactly when every in-scope assignment of the managed roles was bound exactly to the scope |
| EndToEnd.VerdictIsPolicy | service.go:325-548 | on a bootstrap store and registry the procedure grants exactly what `Policy.Grants` grants to a caller the identity provider answers for without an empty ID, and nothing to others; the policy reads off edges, table, names and grants who holds what, what a bound grant says and what a field covers, and fails closed on a grant the store shows that does not bind |
| EndToEnd.HeldIsHeld | service.go:958-1080 | the caller's active assignments are exactly those of the policy: assigned by the table to user, groups or teams, or given to everybody, the named or the admin group, and of a role that counts |
| EndToEnd.BoundIsResolved | service.go:841-907 | resolving a grant answers exactly its bound form, and fails exactly when there is none |
| EndToEnd.AppliesAsPolicySays | service.go:746-802 | a bound grant applies if and only if it meets the request and covers the path |
| EndToEnd.ListingIsPolicy | service.go:553-681 | a key is listed as effective if and only if, by the policy, something allows and nothing denies under it, and its entry is that of such an allow |
| EndToEnd.AnsweredExactly | service.go:958-1040 | on a bootstrap store a query fails if and only if the identity provider fails or names a group or team by an empty ID |
| EndToEnd.EveryRunDecidesByPolicy | service.go:325-548 | so after every run of store writes and registry operations on trimmed IDs without a built-in parent in the store, the edges of the policy being those recorded with deleted roles bypassed |
| EndToEnd.ServedByPermission | bootstrap_store.go:335-375 | a grant query for one permission answers what the query for all does, less the others |
| EndToEnd.RegistryIsBySet | builtin_registry.go:121-199 | the registry answers by the set of owners and of roots, whatever their order |

## Left out

- I/O: JSON and SQL stores, files, drivers, `context.Context`, locking outside the five-second cache, error texts and aggregated errors.
- `SetStore` and `SetIdentityProvider` while requests run, and the identity providers themselves, which are parameters.
- Floats are a whole part and a printed text; NaN is not modelled, nor are writes through a returned map.
- Integer width: only the 64-bit offsets of pagination are bounded; lengths and counters are unbounded.
- Role scopes and tags, permission names and their registry, the report and `PrincipalsWithPermission`.
- The in-memory store beyond what it shares with the bootstrap store: the closure update (`inmemory/store.go:122-162`) and the pre-filter (`inmemory/store.go:544-562`). Its expansion does not trim, and its assignment lists are kept without comparing pairs.
- The jsonstore's pre-filter, which drops template scopes, and its copies, which turn absent specs into empty ones.
- Concurrent fills of the cache racing with a flush, and the cached `PrincipalsWithGrant`, which is not re-checked for expiry.
- Decision.EvaluatePermission: identical queries of one request are answered identically, and the disabled set stays the same during it. A definition that cannot be read is taken for one that is not there, as the Go code does: the assignment is dropped, or the expanded role counts as enabled.
- EndToEnd.VerdictIsPolicy: for callers whose assignments have distinct keys and bindings neither empty nor `*`, and grants without an empty object scope, each shown to be needed (`Witnesses.OrderMattersWhereKeysCollide`, `Matching.StarBindingIsDropped`, `Matching.EmptyObjectScopeIsDropped`); and for trimmed role IDs and grants of valid owner kinds, which are assumed.
- Effective.EffectivePermissions: the entries come by key; the order in which Go hands out a map is not modelled.
- RoleManager.RoleAssignmentManager.Validate: rules see role IDs; the bindings of proposed assignments, which no rule reads, are not built.
- ManagerRules.HolderIsNeverLost: about runs of the manager's own additions, removals and bulk removals; cleanups and writes past the manager are free to take the last holder.
- CachedStore.Store.Read: the base's answers whose order a store may choose are sets.
