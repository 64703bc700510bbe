# Octonomy, verified

Octonomy is a multi-tenant tag store. Applications of a tenant share tags, aliases and vocabularies,
each row optionally confined to an application and, below it, to a namespace; tags are assigned to
external resources; and every change is announced through a transactional outbox. This project models
the parts whose correctness rests on several functions and the database together, and proves what they
are for:

- **Outbox** (`Outbox`, `OutboxSafety`, `OutboxTheorems`, `OutboxProgress`, `OutboxScores`, `Dispatcher`): the
  claim, publish, complete and recover protocol as a state machine over any number of workers, and the
  sequential dispatcher as a class whose loops are proved to be runs of that machine.
- **Locking** (`Locking`, `LockingSafety`, `DeadlockFreedom`, `LockingTheorems`, `LockingWitnesses`,
  `LockingProgress`): the alias and tag services as interleaved transactions with a lock table.
- **Resolution** (`Ordering`, `Resolution`, `ResolutionTheorems`, `BulkAliases`): the queries, the
  specificity ladder, the single resolver and the bulk resolver.
- **Authorization** (`Grants`, `Visibility`): scope headers, grants, the permission check with its request
  cache, and what an admitted request can read.
- **Taxonomy** (`Taxonomy`, `TaxonomyMeaning`, `TaxonomyInvariants`, `TaxonomyReplay`, `TaxonomyScopes`,
  `TaxonomyActivity`, `TaxonomyResolution`, `TaxonomyWitnesses`, `TaxonomyStore`): create, update, reactivate and
  deactivate as functions on the database and as methods on a store, with the events they write; when each
  succeeds and what it writes, column by column.
- **Assignments** (`Assignments`, `AssignmentStore`, `ConcurrentAssign`): the idempotent operations as
  methods over a keyed table, and concurrent assignment as a state machine.

`Scopes` holds the application and namespace predicates all of them share. `dafny verify dfyconfig.toml`
checks the whole project.

## How the model is built

A queryset is a filter over a finite set of rows with a total order. Transactions that lock what they read
are atomic steps; in the interleaved models an unlocked read, or a publish outside a transaction, is a step
of its own. In the taxonomy a check the source makes without a lock is made on the caller's own copies of the
related rows, and an in-memory model instance is a value of its own; both may have been loaded at any earlier
time. Clock readings, publish outcomes and fresh identifiers are inputs. Unique and check constraints are the
conditions under which an insert or an update succeeds. Services that save an instance are methods over a
class with the instance as a second object; the functions they are proved against carry the theorems.

## Where the code and its comments disagree

- The comment above `unique_resolution_match` says that through HTTP only the type axis can match more than
  once and is settled by asking for `type`. The view passes `type=""` on unchanged: it filters nothing, yet
  counts as given, and the tie is reported as an ambiguity between applications. The model follows the
  code; `OnlyTypesTie` and `EmptyTypeIsAmbiguous` state exactly when.
- `reactivate_tag_alias` argues that locks are only ever taken tag before alias, so that no cycle exists. Tag
  before alias holds (`TagBeforeAlias`), but two deactivations can still wait for each other over aliases on a
  database that keeps locks on rows it rejects after waiting for them: exactly if one alias can be renamed and
  re-pointed, and another re-pointed, in between (`NoDeadlock`, `DeadlockNeedsBothEdits`).
- `deactivate_tag` notes that a deactivated tag cannot have assignable aliases left behind. `update_tag` saves
  the whole instance, so an instance loaded while the tag was inactive can (`NoActiveAliasOfInactiveTag`,
  `RunAndAliases`, `StaleTagUpdateBreaksActivity`); so can one that `deactivate_tag` itself marked inactive
  before its cascade was refused (`RefusedDeactivationBreaksActivity`). For the same reason an update from a
  stale instance makes changes its event does not carry (`UpdateReplays`, `StaleUpdateBreaksReplay`).
- The scope guard leaves `tenant_id` editable by a direct service call, and nothing checks what refers to the
  row (`TenantEditBreaksReferences`, `TenantEditBreaksScopes`). A later deactivation then misses the aliases
  left in the old tenant (`TenantEditBreaksActivity`, `AliasesStayHomed`).
- `create_tag` and `update_tag` refuse an inactive vocabulary, but look at the caller's copy of it, so a tag can
  end under one that was deactivated meanwhile; and an update that does not name the vocabulary saves the
  instance's, so a tag can be put back under an inactive one that it was moved away from. There is no third way
  (`PutUnderActive`, `OrphanNeedsStaleness`, `StaleVocabularyBreaksActivity`, `StaleInstanceBreaksActivity`).
- `validate_tag_for_assignment` refuses inactive tags, but looks at the caller's copy, so a tag deactivated
  meanwhile is assigned (`CreatedOverInactive`, `InactiveTagIsAssigned`).

## Model

| member | source | states |
|---|---|---|
| `Outbox.Clamp` | octonomy/events/dispatch.py:166-186 | A run's settings come through unchanged where they are in range, both flags always; otherwise at least one attempt, a base delay of at least one second, a cap no smaller than the base and a lease of at least one second |
| `Outbox.DelayMonotone` | octonomy/events/dispatch.py:549-555 | The retry delay never shrinks as the attempt number grows and stays between the base and the cap |
| `Outbox.DelayDoubles` | octonomy/events/dispatch.py:549-555 | The first delay is the base and each further one is twice the last, up to the cap |
| `Outbox.RecoveryBackoffFloor` | octonomy/events/dispatch.py:494-546 | A recovery waits the delay of max(attempts, recoveries), so the one that is an event's i-th release waits at least min(cap, base * 2^(ceil(i/2) - 1)) |
| `OutboxSafety.StepKeepsInv` | octonomy/events/dispatch.py:322-546 | Each claim, publish return, publish failure, completion (even one told to skip a locked row), recovery, crash and clock tick, by any worker, keeps the claim ledger, the delivery bound, token uniqueness and the shape of every row |
| `OutboxSafety.RunKeepsInv` | octonomy/events/dispatch.py:155-546 | So does every interleaving of any length |
| `OutboxSafety.ReachableInv` | octonomy/events/dispatch.py:155-546 | The invariant holds in every state reachable from an empty table |
| `OutboxTheorems.DeliveryBound` | octonomy/events/dispatch.py:350-393 | In every reachable state an event's normally returned publish calls are at most its recoveries, plus one if it is published or claimed; a published event has at least one; an event never recovered has at most one |
| `OutboxTheorems.ClaimConservation` | octonomy/events/dispatch.py:322-347 | Claims taken = attempts + recoveries + (1 if claimed), and the claim columns are set exactly while the event is claimed |
| `OutboxTheorems.ClaimIsExclusive` | octonomy/events/dispatch.py:409-417 | Two busy workers never both hold the claim on one event |
| `OutboxTheorems.ClaimIsFenced` | octonomy/events/dispatch.py:409-439 | A claimed row changes only by its holder's completion or after its lease ran out; a completion with a stale token, or one that skips, changes no row |
| `OutboxTheorems.LeaseHolds` | octonomy/events/dispatch.py:310-347 | After a claim, in every run that ends before the claim's timeout does, whatever the other workers, recoverers and configurations, the worker still holds the claim unless it completed or crashed itself |
| `OutboxTheorems.LeaseLasts` | octonomy/events/dispatch.py:310-341 | And from the end of its timeout on, while the write gate lets it, a fresh claim can be recovered, whatever the recovering run's settings |
| `OutboxTheorems.NewEventIsDue` | octonomy/events/models.py:40-62 | A new event is pending, unclaimed, with nothing counted against it, and due at once unless the write gate holds it back |
| `OutboxTheorems.CompletableIs` | octonomy/events/dispatch.py:350-393 | A worker with a claim can publish until its call has returned or raised, and complete from then on, whatever became of the claim |
| `OutboxTheorems.ClaimableIs` | octonomy/events/dispatch.py:294-347 | A free worker can claim an event if and only if it is pending, or failed with retries on, its available_at has come, and it is global or namespaced writes are on |
| `OutboxTheorems.RecoverableIs` | octonomy/events/dispatch.py:270-319 | In every reachable state an event can be recovered if and only if it is claimed, its lease has ended, and it is global or namespaced writes are on |
| `OutboxTheorems.RetryOffLeavesFailed` | octonomy/events/dispatch.py:294-307 | No run whose claims have retry_failed off changes a failed event |
| `OutboxTheorems.TerminalIsFinal` | octonomy/events/dispatch.py:396-417 | No run changes a published or dead-lettered row |
| `OutboxTheorems.AttemptLimit` | octonomy/events/dispatch.py:442-491 | With one limit throughout, every live event has fewer attempts than the limit, a dead letter exactly the limit, claims are bounded by limit + recoveries, and an event never recovered is finished once that many claims are spent |
| `OutboxTheorems.ScheduleIsEarned` | octonomy/events/dispatch.py:442-546 | In every run, the schedule of a live event that was ever released comes from one release of that run: the failure or recovery that left it its present counters, at that time plus the delay of the attempts or of the larger counter; a failed event's from a failure |
| `OutboxTheorems.RequeueIsLater` | octonomy/events/dispatch.py:457-530 | available_at changes exactly when an event is re-queued, and then to later than both its old value and the present by at least a base delay |
| `OutboxTheorems.EveryReleaseWaits` | octonomy/events/dispatch.py:442-546 | Between any two points of a run, an event released n times is put off by at least n base delays in total |
| `OutboxTheorems.SwitchOffFreezes` | octonomy/events/dispatch.py:294-319 | While namespaced writes are off, no run claims or recovers a namespaced event; it is untouched unless an earlier claim on it is still being completed |
| `OutboxProgress.NeverStuck` | octonomy/events/dispatch.py:155-225 | From every reachable state, an event neither published nor dead-lettered can still be delivered and published |
| `OutboxProgress.DeliveryBoundIsTight` | octonomy/events/dispatch.py:381-392 | For every n some run recovers an event n times and delivers it n + 1 times, so the delivery bound cannot be lowered |
| `Dispatcher.OutboxTable.Poll` | octonomy/events/dispatch.py:396-406 | The first row of a queue in (timestamp, created_at, id) order, or none exactly when the queue is empty |
| `Dispatcher.QueuesAre` | octonomy/events/dispatch.py:294-341 | On a run's own arguments: the due queue holds exactly the pending rows and, if failures are retried, the failed ones whose available_at has come, the expired queue exactly the processing rows whose lease has ended, gated by the namespace switch; and the columns each is ordered by |
| `Dispatcher.OutboxTable.ClaimNextEvent` | octonomy/events/dispatch.py:322-347 | Claims exactly the first due event under a token never used before and changes no other row |
| `Dispatcher.OutboxTable.PublishClaimedEvent` | octonomy/events/dispatch.py:350-439 | Settles the claim as published, failed or dead-lettered, and only if it is still held |
| `Dispatcher.OutboxTable.DispatchDue` | octonomy/events/dispatch.py:203-218 | The sequential loop is a run of the concurrent protocol; whatever the clock, published and dead_lettered are the growth in the number of published and dead-lettered rows, and one attempt was counted for each outcome; under a frozen clock it handles exactly the first min(limit, due) events in order, each settled by its own publish outcome |
| `Dispatcher.OutboxTable.RecoverExpiredClaims` | octonomy/events/dispatch.py:270-291 | Whatever the clock, the count is the growth of the total of recoveries and no other total moves; under a frozen clock the loop re-queues exactly the first min(limit, expired) claims in (claim_expires_at, created_at, id) order |
| `Dispatcher.OutboxTable.DispatchOutboxEvents` | octonomy/events/dispatch.py:155-225 | A whole run: deliveries first, then recoveries, all as one run of the protocol; whatever the clock, which every transaction reads once for its filter and once for its stamps, the four summary counts are what happened to the table's totals and gated rows are untouched; under a frozen clock also the final table row by row, on the run's own arguments: a delivery that returned is published; one that raised keeps its error and is dead-lettered if and only if its attempts reach max(1, max_attempts), otherwise failed until the present plus the capped doubling delay of max(1, retry_base) and max(that, retry_max); a recovery is pending again after the delay of its larger counter |
| `OutboxScores.TotalUpdate` | octonomy/events/dispatch.py:201-225 | Replacing a row moves the table's totals of published rows, dead letters, attempts and recoveries by exactly what the row gained |
| `Dispatcher.TurnLeads` | octonomy/events/dispatch.py:350-393 | Claim, publish and completion in sequence are reachable steps of the concurrent protocol with the same result |
| `Dispatcher.SweptAll` | octonomy/events/dispatch.py:396-406 | A loop that stops at its limit or at an empty queue took exactly the head of the queue, in queue order |
| `LockingSafety.StepKeepsInv` | octonomy/tags/alias_services.py:236-324 | Each step of interleaved create, update, reactivate and deactivate calls on tags and aliases, beside vocabularies created and saved, keeps the lock table exclusive and keeps true what each transaction has read under its locks |
| `LockingTheorems.TagBeforeAlias` | octonomy/tags/alias_services.py:236-324 | At the end of every interleaving from any quiet database no transaction waits for a tag row while it holds any row, hence never while it holds an alias; the re-point retry releases both locks first |
| `DeadlockFreedom.NoDeadlock` | octonomy/tags/services.py:342-381 | No interleaving deadlocks on a database that lets go of a row it locked but no longer selects; nor, on any database, one whose update_tag_alias commits keep to safe edits: no alias both renamed and re-pointed beside another re-pointed one. Renames alone and re-points alone never deadlock |
| `DeadlockFreedom.CircleOfSweeps` | octonomy/tags/services.py:342-361 | In any circle of waiting transactions every one is a tag deactivation locking its aliases |
| `DeadlockFreedom.EdgeIsLater` | octonomy/tags/services.py:355-361 | Along an edge of such a circle the listings of aliases were taken strictly later, which a circle cannot do |
| `LockingWitnesses.RenameCanDeadlock` | octonomy/tags/services.py:355-361 | On a database that keeps the locks of rejected rows, for any alias that may be renamed and re-pointed and any other that may be re-pointed, two deactivations do deadlock, from a database whose active aliases all have active tags |
| `LockingWitnesses.DeadlockNeedsBothEdits` | octonomy/tags/services.py:342-381 | So, for every set of aliases that may be re-pointed and every set that may be renamed, a deadlock is possible on such a database if and only if some alias is in both and another may be re-pointed: the claim that the lock order excludes cycles holds exactly without that |
| `LockingProgress.CallsComplete` | octonomy/tags/alias_services.py:31-359 | Every call that finds what it needs (an active tag in its tenant, its row, an active vocabulary) can be run alone to its commit, on either kind of database, and leaves exactly the rows it should and no lock: for a deactivated tag, exactly its active aliases in its tenant become inactive |
| `LockingProgress.ListingIs` | octonomy/tags/services.py:355-361 | Every tag has a listing to lock, in query order, of exactly its active aliases in its tenant |
| `LockingProgress.RetriesAreBounded` | octonomy/tags/alias_services.py:259-324 | In every interleaving a reactivation starts over at most twice |
| `LockingProgress.ReactivationGoesOn` | octonomy/tags/alias_services.py:269-284 | With both rows locked a reactivation starts over if and only if the alias points to another tag by now, is done if and only if it is active, and is checked otherwise if its tag is active and of its tenant |
| `LockingProgress.VocabularyIsAskedFor` | octonomy/tags/services.py:269-296 | With the tag locked a reactivation asks for its vocabulary if and only if the tag is inactive and has one, and is done otherwise |
| `LockingTheorems.ActivityStep` | octonomy/tags/alias_services.py:256-284 | A step keeps every active alias over an active tag if and only if it is neither an update_tag commit that saves an inactive row over a tag with active aliases nor a deactivate_tag commit of a tag with an active alias in another tenant |
| `LockingTheorems.NoActiveAliasOfInactiveTag` | octonomy/tags/services.py:342-381 | From any quiet database that meets it, an interleaving keeps that invariant throughout if and only if it contains no such commit |
| `LockingTheorems.HomedStep` | octonomy/tags/services.py:207-235 | Where aliases are also in the tenant of their tag, a step keeps both if and only if it is not an update_tag commit that saves a tenant or an activity that does not suit every alias of the tag |
| `LockingTheorems.AliasesStayHomed` | octonomy/tags/services.py:342-381 | From any quiet database in which that holds, an interleaving keeps it throughout if and only if every update_tag commit in it saves such a row: deactivations need no condition of their own |
| `LockingTheorems.RevivedUnderActiveVocabulary` | octonomy/tags/services.py:264-315 | In every interleaving reactivate_tag revives a tag only while its vocabulary is active |
| `LockingWitnesses.StaleTagUpdateBreaksActivity` | octonomy/tags/services.py:207-235 | A stale tag instance, loaded inactive and saved after a reactivation, does leave an active alias over an inactive tag |
| `LockingWitnesses.TenantEditBreaksActivity` | octonomy/tags/services.py:356-361 | An update that moves an active tag to another tenant, then its deactivation, whose cascade lists aliases of the new tenant only, do leave an active alias over an inactive tag |
| `Ordering.LessOrder` | octonomy/tags/alias_selectors.py:108-129 | The query order over slug, rung, type, name and id is a strict total order |
| `Ordering.FirstIsLeast` | octonomy/tags/alias_selectors.py:132-139 | Any non-empty set of rows has a first row and the ordered listing begins with it |
| `Resolution.TagRowsAre` | octonomy/tags/alias_selectors.py:87-139 | The tag query lists exactly the visible active tags of the slug (and of the type, when one is given), in query order |
| `Resolution.AliasRowsAre` | octonomy/tags/alias_selectors.py:142-195 | The alias query lists exactly the visible active aliases with an active, visible tag, in query order |
| `ResolutionTheorems.OwnTagsFirst` | octonomy/tags/alias_services.py:457-463 | When the named application has a match of its own, query order already puts one first, so the narrowing in the resolver agrees with the ladder |
| `ResolutionTheorems.RungsAreSpecificity` | octonomy/tags/alias_selectors.py:108-129 | The three annotated rungs are specificity: own application over shared, and within an application the request's namespace over global |
| `ResolutionTheorems.UnnamedRungs` | octonomy/tags/alias_selectors.py:47-65 | A request that names no application has two rungs: rows of its own namespace, and below them global ones |
| `ResolutionTheorems.ResolvesMostSpecific` | octonomy/tags/alias_services.py:433-489 | With an application named, the resolver returns a tag if and only if it is more specific than every other visible match, and an alias if and only if no tag matches and the alias is more specific than every other |
| `ResolutionTheorems.ResolvesToBestTag` | octonomy/tags/alias_services.py:362-366 | For any request, a tag is returned if and only if it is the one match on the lowest rung |
| `ResolutionTheorems.ResolvesToBestAlias` | octonomy/tags/alias_services.py:393-406 | For any request, an alias is returned with its tag if and only if no tag matches and it is the one alias on the lowest rung |
| `ResolutionTheorems.ResolutionErrors` | octonomy/tags/alias_services.py:409-430 | Exactly when each of no match, provide type and ambiguous is reported |
| `ResolutionTheorems.RungIsOneScope` | octonomy/tags/alias_services.py:369-378 | Two visible rows on one rung have the same application and namespace, because namespaced rows need an application |
| `ResolutionTheorems.OnlyTypesTie` | octonomy/tags/alias_services.py:380-392 | Under the unique constraints, with an application named or a global scope: aliases never tie, only types can, and the ambiguity error occurs if and only if the type parameter is present but empty and types tie |
| `ResolutionTheorems.AmbiguityNeedsEmptyType` | octonomy/tags/alias_services.py:433-489 | The same for the whole resolver under any scope qualifier: no ambiguity error without an empty type |
| `ResolutionTheorems.EmptyTypeIsAmbiguous` | octonomy/tags/alias_services.py:418-430 | An empty type on two shared tags of one slug does report ambiguity, in every scope and for every application, where an absent type asks for one |
| `ResolutionTheorems.PinsAreExact` | octonomy/tags/alias_services.py:74-100 | scope=global answers with global rows only and scope=merchant with rows of the request's namespace only; any other pin, or a merchant pin of a global request, is refused |
| `ResolutionTheorems.QualifierAccepted` | octonomy/tags/alias_services.py:74-100 | A scope qualifier is accepted if and only if it is absent, global from a request authorized for global rows, or merchant from a namespaced request; and which error each other one gets |
| `ResolutionTheorems.PinAnswers` | octonomy/tags/alias_services.py:433-489 | An accepted pin answers as the unpinned request it stands for: scope=global as the same request in the global scope, scope=merchant as the same request without the global fallback, no qualifier as the request itself |
| `ResolutionTheorems.VisibleIs` | octonomy/core/selectors.py:28-57 | A row is visible to a request if and only if it is in its tenant, in its namespace or, where it falls back, global, and shared, of its application or, where it names none, of the request's own namespace |
| `ResolutionTheorems.MatchesAre` | octonomy/tags/alias_selectors.py:87-195 | Which tags and which alias and tag pairs a slug matches, column by column |
| `ResolutionTheorems.TypeFilters` | octonomy/tags/alias_selectors.py:87-139 | A named type leaves exactly the matching tags of that type; an absent or empty one leaves them all |
| `ResolutionTheorems.QualifierNarrows` | octonomy/tags/alias_services.py:74-100 | No scope qualifier widens what a request sees |
| `ResolutionTheorems.NonInterference` | octonomy/tags/alias_services.py:433-489 | Two stores that agree on the visible tags, the visible aliases and the tags under those aliases give the same result or the same error, for every slug, type and qualifier |
| `BulkAliases.FirstHitIsBest` | octonomy/tags/alias_selectors.py:142-195 | Under the unique constraints, with an application named, the first row of the alias query is the unique most specific alias |
| `BulkAliases.ResolvableById` | octonomy/tags/alias_services.py:503-544 | Looking an assignable alias up by id succeeds if and only if it is an active alias of the tenant with an active tag, both in a namespace the request sees, and shared or of its application |
| `BulkAliases.IdRefusals` | octonomy/tags/alias_services.py:503-544 | And which error each other alias gives; one out of sight is not found, whatever else is wrong with it |
| `BulkAliases.SlugChecksNeverFire` | octonomy/tags/alias_services.py:516-544 | Looking an assignable alias up by slug fails only by finding nothing: the later activity and application checks never fire |
| `BulkAliases.SlugIsBestById` | octonomy/tags/alias_services.py:503-544 | The two ways of naming an alias agree: a slug is assigned a tag if and only if some alias of that slug would be assigned it by id and is more specific than every other alias of the slug that could be |
| `BulkAliases.BulkFirstIsSingleFirst` | octonomy/tags/alias_selectors.py:198-251 | The first row of a slug in the bulk query is the first row of the single query for that slug |
| `BulkAliases.FirstPerSlug` | octonomy/assignments/serializers.py:168-171 | The map the loop fills holds, for each slug, the tag of its first row |
| `BulkAliases.ResolveTagIds` | octonomy/assignments/serializers.py:146-182 | No slugs: the ids unchanged; too many: refused; otherwise the given ids followed in order by the tag of each slug's single lookup, or an error naming exactly the slugs whose lookup is empty |
| `BulkAliases.SingleIdsAre` | octonomy/assignments/serializers.py:179-182 | What that result is, position by position |
| `BulkAliases.MissingIsEmpty` | octonomy/assignments/serializers.py:173-177 | There is a missing slug if and only if some single lookup is empty |
| `Scopes.BlankIs` | octonomy/core/validators.py:10-13 | Text is blank if and only if it holds nothing but blanks |
| `Grants.ScopeFromHeaders` | octonomy/core/versioning.py:123-159 | Headers resolve if and only if both are absent or both are well formed and the type is not reserved, and then to exactly that namespace; a faulty pair answers with the first fault in the order they are checked |
| `Grants.GrantsPartitionScopes` | octonomy/core/auth.py:179-213 | A grant authorizes nothing outside its tenant, service scopes and application; an exact grant its own namespace and nothing else, global included; a global grant only global; a wildcard every namespace; and no grant a namespaced request without an application |
| `Grants.Request.ResolveScopeContext` | octonomy/core/versioning.py:51-92 | v1 is global only; a v2 request gets its headers' namespace; global is among the scopes it asks for if and only if it is its own scope, include_global is true in any letter case, or the resolution endpoint is sent scope=global; and which error each refusal gives |
| `Grants.Request.RequestTenantGrants` | octonomy/core/auth.py:300-318 | The cached list is always that of the client and tenant asked for, also on a request object reused for another principal |
| `Grants.TargetsAsNamed` | octonomy/core/auth.py:152-176 | The target set the check computes with is covered if and only if the query's application is covered where one is named, the body's where the method writes and one is named, and no application at all where none is |
| `Grants.Request.HasPermission` | octonomy/core/auth.py:326-433 | Past authentication and the tenant header, a request is admitted if and only if the grants cover, in its scope, the query's application if one is named, the body's if the method writes and one is named, and no application at all if none is, and a namespaced write is enabled; what it leaves authorized is exactly the requested scopes covered in the same way; and which denial each refusal gives. The body of a read plays no part |
| `Grants.Request.AuthorizedApplicationIds` | octonomy/core/auth.py:216-244 | For every application: the early-returning loop answers unrestricted or contains it if and only if some grant authorizes it in the request's scope |
| `Visibility.NamespaceFilterAgrees` | octonomy/core/selectors.py:28-57 | The row filter lets a namespace through if and only if the request asked for it and the grants cover it for every application named |
| `Visibility.NoApplicationIsTenantWide` | octonomy/core/auth.py:190-200 | Only a tenant-wide grant in the global scope covers a request that names no application, and it covers every application |
| `Visibility.ListsAreExact` | octonomy/tags/selectors.py:50-104 | A tag, vocabulary or alias list returns a row if and only if the request is entitled to it, asked for its namespace, and names its application, or names none, or the row is shared and shared rows are wanted |
| `Visibility.FetchesAreExact` | octonomy/tags/views.py:44-60 | So for a read or delete by id, over the applications of query and body; a delete finds rows of the request's own namespace only |
| `Visibility.PatchesAreExact` | octonomy/core/selectors.py:86-104 | A patch finds a row if and only if it is in the request's own namespace and in an application the caller is granted there, or shared where shared rows are wanted or the caller is unrestricted |
| `Visibility.AdmissionIsMonotone` | octonomy/core/auth.py:247-271 | More grants never refuse what fewer admit and never narrow the authorized scopes |
| `Visibility.AdmittedNamesApplication` | octonomy/core/auth.py:195-198 | An admitted namespaced request names its application |
| `Visibility.AdmittedResolution` | octonomy/tags/alias_views.py:249-280 | On the resolution endpoint an admitted request never meets the ambiguity error unless it sends an empty type; the tag or alias it is matched by is one it is entitled to, and so is the tag it is answered with if aliases reach their tags |
| `Visibility.Admit` | octonomy/core/versioning.py:32-48 | Scope resolution followed by the permission check admits a request exactly when its headers are served, it is authenticated, and the grants cover the applications it names in that namespace; what it leaves is exactly what the read theorems start from |
| `Taxonomy.PatchesAreInverse` | octonomy/tags/services.py:213-223 | patch(old, after) = new and patch(new, before) = old, and the diff is empty if and only if nothing changed |
| `TaxonomyMeaning.SlotsAreColumns` | octonomy/tags/models.py:271-307 | The three partial unique constraints together forbid exactly two active rows of a kind that agree on tenant, application, namespace, slug and, for tags, type |
| `TaxonomyMeaning.ReferencesAreChecked` | octonomy/tags/services.py:28-117 | A reference passes if and only if it names a row of the same tenant, application or shared, namespace or global, and active where that is asked for: never of a parent, of a canonical tag always; and which error each fault gives |
| `TaxonomyMeaning.CreateSucceeds` | octonomy/tags/services.py:129-180 | A creation succeeds if and only if its scope is proper, the write is enabled, its references fit, its key is new and, if it is active, its slot is free |
| `TaxonomyMeaning.CreateRefuses` | octonomy/tags/alias_services.py:103-153 | Which error a creation that fails answers with |
| `TaxonomyMeaning.CreatePuts` | octonomy/tags/vocabulary_services.py:20-61 | It stores one row, the data over the defaults, and appends at most one event: its tenant and scope columns, and a snapshot of the others |
| `TaxonomyMeaning.NewRowIs` | octonomy/tags/models.py:115-138 | A column left out of a creation holds its default: active, shared, global |
| `TaxonomyMeaning.UpdateSucceeds` | octonomy/tags/services.py:183-262 | An update succeeds if and only if the write is enabled, it leaves application and namespace alone, its references fit on the caller's copies (an inactive parent does, an inactive vocabulary it does not move to does), and, if it changes anything, the locked tag of an alias fits and the slot is free |
| `TaxonomyMeaning.UpdateRefuses` | octonomy/tags/alias_services.py:156-226 | Which error an update that fails answers with |
| `TaxonomyMeaning.UpdatePuts` | octonomy/tags/vocabulary_services.py:64-126 | It saves the whole instance with the new values and logs exactly the changed columns with both values; without a change it writes nothing |
| `TaxonomyMeaning.ReactivateSucceeds` | octonomy/tags/services.py:264-339 | A reactivation succeeds if and only if the write is enabled, the row is still in the instance's tenant, what it locks is there and, if it is inactive, its references fit (an inactive parent does) and its slot is free |
| `TaxonomyMeaning.ReactivateRefuses` | octonomy/tags/alias_services.py:236-324 | Which error a reactivation that fails answers with |
| `TaxonomyMeaning.ReactivatePuts` | octonomy/tags/vocabulary_services.py:129-184 | It makes the stored row active, leaves every other row as it was, and appends at most one event, from inactive to active; on an active row it writes nothing |
| `TaxonomyMeaning.DeactivateSucceeds` | octonomy/tags/alias_services.py:327-359 | An alias or vocabulary is deactivated whenever the write is enabled |
| `TaxonomyMeaning.DeactivatePuts` | octonomy/tags/vocabulary_services.py:187-219 | The stored row becomes inactive unless the instance already is, and the event carries the instance's columns |
| `TaxonomyMeaning.DeactivateTagSucceeds` | octonomy/tags/services.py:342-371 | A tag's deactivation is refused only by the kill-switch, for the tag itself or, if it is active, for any alias it would reach |
| `TaxonomyMeaning.CascadeIs` | octonomy/tags/services.py:355-361 | The aliases it reaches are exactly the active ones of that tag in the tag's tenant, each once |
| `TaxonomyMeaning.DeactivateTagLogs` | octonomy/tags/services.py:382-431 | The tag's event lists the cascaded aliases and no source; one event for each alias follows in that order and names the tag as its source; each carries the tenant and scope columns of the stored row it describes |
| `TaxonomyInvariants.CommitKeepsInv` | octonomy/tags/models.py:139-194 | Every create, update, reactivate and deactivate of a tag, alias or vocabulary keeps column types, check constraints, foreign keys and active-only slug uniqueness |
| `TaxonomyActivity.StepAndAliases` | octonomy/tags/alias_services.py:31-68 | A call keeps every active alias over an active tag if and only if it is neither a successful update that saves a tag inactive over an active alias nor a successful deactivation of a tag with an active alias in another tenant; alias creation, update and revival never break it, however old the caller's copies |
| `TaxonomyActivity.RunAndAliases` | octonomy/tags/services.py:342-384 | Over runs of all service calls from an empty store, active aliases have active tags throughout if and only if no such call is in the run |
| `TaxonomyActivity.UpdatesAndAliases` | octonomy/tags/services.py:188-262 | Where no call edits a tenant, if and only if no successful update saves a tag inactive over an active alias |
| `TaxonomyActivity.PutUnderActive` | octonomy/tags/services.py:129-144 | When a call puts a tag under a vocabulary that the stored tag is not under: where its data names the vocabulary, the tag lands under an active one if and only if the caller's copy tells its present activity; where a stale instance brings it back, nothing is checked, and it does if and only if the vocabulary is active |
| `TaxonomyActivity.OrphanNeedsStaleness` | octonomy/tags/services.py:201-233 | Over runs: a call puts a tag under an inactive vocabulary only if some call deactivated that vocabulary after the caller loaded its copy of it, or the caller's instance was loaded under it and some update has moved the tag away since |
| `TaxonomyInvariants.StaleVocabularyIsAccepted` | octonomy/tags/services.py:129-144 | And then, in any store with nothing else in the way, the creation goes through |
| `TaxonomyInvariants.CascadeIsComplete` | octonomy/tags/services.py:342-384 | Deactivating a tag leaves it and every active alias of it in its tenant inactive and every other row as it was |
| `TaxonomyReplay.CreateReplays` | octonomy/tags/services.py:129-180 | The snapshot in a created event, with the event's namespace columns, rebuilds the row |
| `TaxonomyReplay.UpdateReplays` | octonomy/tags/services.py:213-260 | An update's event rebuilds the stored row if and only if the saved instance was current on every field it did not change |
| `TaxonomyReplay.UpdateUndoes` | octonomy/tags/services.py:241-260 | An update appends one event, and its old values take the rows back to what they were if and only if the instance was wholly current |
| `TaxonomyReplay.DeactivateTagReplays` | octonomy/tags/services.py:382-431 | The tag event followed by one event per cascaded alias rebuilds the whole cascade |
| `TaxonomyReplay.StepReplays` | octonomy/tags/vocabulary_services.py:81-125 | One logged call keeps the replay right if and only if it is faithful: not a successful update from a stale instance |
| `TaxonomyReplay.RunReplays` | octonomy/events/services.py:65-76 | Replaying the outbox in commit order from nothing rebuilds every tag, alias and vocabulary row throughout a run of logged calls if and only if every call of the run is faithful |
| `TaxonomyReplay.LostUpdate` | octonomy/tags/alias_services.py:175-205 | Two callers that load one row and update different fields: the second puts the first one's field back with no event for it, and replay no longer rebuilds the row |
| `TaxonomyReplay.SoloUpdate` | octonomy/tags/services.py:183-235 | Such a stale update does succeed: with one shared tag in the store any update of its name or description goes through |
| `TaxonomyWitnesses.StaleUpdateBreaksReplay` | octonomy/tags/services.py:183-262 | A run of three logged, successful calls that replay does not rebuild: create a tag, rename it, describe it from the instance loaded before the rename |
| `TaxonomyScopes.ScopeIsImmutable` | octonomy/core/selectors.py:229-248 | No run of calls deletes a row or moves one to another application or namespace |
| `TaxonomyScopes.LoadedForever` | octonomy/tags/services.py:188-200 | So the scope read from an instance is the row's scope for as long as a caller keeps the instance |
| `TaxonomyScopes.EventsCarryScope` | octonomy/core/selectors.py:114-126 | After any run every event, those of a cascade included, carries the application and namespace of the row it describes, which are still that row's |
| `TaxonomyScopes.SwitchOffFreezesRows` | octonomy/tags/services.py:363-371 | With writes off no run of calls changes any namespaced tag, alias or vocabulary, not even through the cascade of a global tag |
| `TaxonomyScopes.RunStaysClosed` | octonomy/tags/services.py:28-117 | In every state reachable without editing a tenant, with instances and copies loaded at any earlier point of the run, every parent, vocabulary and canonical tag is in the tenant, in reach of the application and in reach of the namespace of the row that refers to it, and every row keeps its tenant |
| `TaxonomyScopes.AncestorsStayInScope` | octonomy/tags/services.py:28-66 | In every such state, following parents any number of links from a tag stays in its tenant, in its application or shared, and in its namespace or global, cycles or not |
| `TaxonomyScopes.TenantEditBreaksReferences` | octonomy/tags/services.py:201-211 | A successful update of any freshly loaded tag, alias or vocabulary keeps references in scope if and only if it leaves the tenant alone, or the saved row refers to nothing and nothing refers to it |
| `TaxonomyWitnesses.TenantEditBreaksScopes` | octonomy/tags/services.py:201-211 | A run of three successful calls that leaves a tag with a parent in another tenant |
| `TaxonomyWitnesses.StaleVocabularyBreaksActivity` | octonomy/tags/vocabulary_services.py:187-219 | A run of three successful calls that leaves an active tag under an inactive vocabulary |
| `TaxonomyWitnesses.StaleInstanceBreaksActivity` | octonomy/tags/services.py:201-233 | In a store that some run reaches, where a tag was moved from a deactivated vocabulary to an active one: a rename from the instance loaded before the move, with every copy current, puts the tag back under the inactive vocabulary, although nothing deactivated that since |
| `TaxonomyWitnesses.RefusedDeactivationBreaksActivity` | octonomy/tags/services.py:350-371 | In a store that some run reaches: a deactivation of a global tag with a namespaced alias, refused while namespaced writes are off, leaves the caller's instance inactive, and a rename from that instance succeeds and leaves the active alias over an inactive tag |
| `TaxonomyScopes.AliasFollowsMovedTag` | octonomy/tags/alias_services.py:170-196 | An edit of an alias's tenant, all else in order, succeeds if and only if the caller's copy still shows the tag in the old tenant while the locked tag has moved to the new one |
| `TaxonomyResolution.StoreIsUnique` | octonomy/tags/models.py:271-307 | The uniqueness that resolution relies on is an invariant of the taxonomy's rows |
| `TaxonomyResolution.ServedStoresResolve` | octonomy/tags/alias_services.py:380-392 | After any run of service calls, a request that names an application or resolves globally never meets the ambiguity error unless it sends an empty type |
| `TaxonomyResolution.ServedRequestsAreEntitled` | octonomy/tags/alias_views.py:249-280 | In every state reachable without editing a tenant, an admitted request that resolves a slug, by a tag or by an alias, is answered with a tag it is entitled to, found by a row it is entitled to |
| `TaxonomyResolution.AliasTagsAreAssignable` | octonomy/tags/alias_services.py:536-544 | In every such state, a tag that an alias, named by id or by slug, is resolved to is one the resource may be assigned: never another application's, tenant's or namespace's |
| `TaxonomyStore.Store.Create` | octonomy/tags/services.py:129-180 | Over a store whose constraints hold, the method commits what the call means, returns a fresh instance of the stored row or exactly the call's error, and keeps the constraints, every row's scope, the scope of every event, namespaced rows while writes are off, and the replay if it is logged |
| `TaxonomyStore.Store.SetChanged` | octonomy/tags/services.py:213-223 | The diff loop sets every changed field and collects both values |
| `TaxonomyStore.Store.Update` | octonomy/tags/alias_services.py:156-226 | The same, and an update keeps the replay if and only if it is faithful; its instance holds the new values exactly when the first checks pass, even when the save then fails |
| `TaxonomyStore.Store.Reactivate` | octonomy/tags/services.py:264-339 | The same; it succeeds exactly when the row can be revived; then an inactive row is stored as active with one event for that change, and nothing else is touched; the caller's instance is marked active exactly on success |
| `TaxonomyStore.Store.Deactivate` | octonomy/tags/vocabulary_services.py:187-219 | The same, on the word of the instance it was given, whose tenant and scope the event carries |
| `TaxonomyStore.Store.RetireTag` | octonomy/tags/services.py:342-431 | The body marks the caller's instance inactive once its own scope passes the kill-switch, then guards every cascaded alias, flips them and appends the tag's event and then one per alias, or changes no row; a refused cascade leaves the instance inactive |
| `TaxonomyStore.Store.DeactivateTag` | octonomy/tags/services.py:342-431 | The same guarantees for the whole cascade: constraints, scopes, kill-switch, events in scope, replay, and the caller's instance |
| `Assignments.GetAssignableTags` | octonomy/assignments/services.py:51-88 | A bulk request resolves if and only if it is within the limit and every tag is assignable; too many tags are refused first; tags the caller cannot see are reported as unknown, all of them and nothing else, before any other fault; an inactive tag or one of another application only then |
| `Assignments.DropThenMerge` | octonomy/assignments/services.py:450-512 | Dropping what is not requested and then merging what is, is a replacement, in contents, counts and log |
| `Assignments.FillMerges` | octonomy/assignments/services.py:300-318 | Filling the free slots of the listed tags one by one is a bulk assignment: contents, both counts and the log |
| `Assignments.ReplaceIsIdempotent` | octonomy/assignments/services.py:423-526 | A second identical replacement creates 0, removes 0, logs nothing and changes nothing |
| `AssignmentStore.Store.GetOrCreateAssignment` | octonomy/assignments/services.py:110-149 | Returns the row in the slot, or inserts one; guarded and validated under the permissive policy, and which error each refusal gives |
| `AssignmentStore.Store.AssignTag` | octonomy/assignments/services.py:152-217 | One slot, one row: a repeat returns the row that is there and logs nothing; a creation logs one audit row and one event; and which error each refusal gives |
| `AssignmentStore.Store.RemoveTagAssignment` | octonomy/assignments/services.py:220-274 | Removes exactly that slot of the exact scope and logs it, or returns 0 and logs nothing; refused only by the kill-switch |
| `AssignmentStore.Store.BulkAssignTags` | octonomy/assignments/services.py:277-354 | The resource holds the requested tags besides what it held; every row in a slot that was free carries the given author and an id never used before, no two the same; created and existing are the two set sizes; exactly those rows are logged as created; the returned rows are those in the table; and what each refusal means |
| `AssignmentStore.Store.BulkRemoveTags` | octonomy/assignments/services.py:357-420 | The resource holds what it held but for the named tags; the count and the log match; refused by the kill-switch, then by the limit |
| `AssignmentStore.Store.ReplaceResourceTags` | octonomy/assignments/services.py:423-526 | The exact-scope tag set equals the requested set; created and removed are the two differences; the listing returned is that of the resource's rows, one for each requested tag, the same row for a tag it held before; all other slots are as they were; every row in a slot that was free carries the given author and an id never used before, and is logged as created exactly as stored; one change is logged for each difference, and an audited log still rebuilds the table from nothing; and what each refusal means |
| `AssignmentStore.Store.Serve` | octonomy/assignments/services.py:110-526 | Over any sequence of the six calls, whatever tags exist at each: every accepted call moves exactly the tags of its resource that it should, a refused one nothing; with writes off no namespaced assignment comes, goes or moves, and if every call is logged the outbox still rebuilds the table |
| `ConcurrentAssign.AssignmentConservation` | octonomy/assignments/services.py:110-217 | In every interleaving and for every slot: calls that returned created = audit and event pairs for creations = removals + (1 if a row is there) |
| `ConcurrentAssign.OneWinner` | octonomy/assignments/services.py:179-217 | Without a removal, all calls that returned agree on the one row, exactly one of them created it, there is exactly one audit and event pair, and none failed |
| `ConcurrentAssign.EveryoneReturns` | octonomy/assignments/services.py:212-217 | Once the slot is quiet and unless a removal intervened, every call that was not refused and did not crash has returned that row |
| `ConcurrentAssign.OwnScopeOnly` | octonomy/assignments/services.py:91-107 | A call never returns a row of a sibling namespace or of any other slot, whatever happens around it |
| `ConcurrentAssign.RowsHaveOwnIds` | octonomy/assignments/services.py:110-149 | In every interleaving no two creations take one id, and rows of different slots have different ids |
| `ConcurrentAssign.FailureNeedsRemoval` | octonomy/assignments/services.py:145-149 | The lookups after a conflict come back empty only because of a removal |
| `ConcurrentAssign.NeverStuck` | octonomy/assignments/services.py:179-184 | While any call is unfinished some call can take a step: a waiting insert waits only for a transaction that can commit |
| `ConcurrentAssign.StepsAdvance` | octonomy/assignments/services.py:179-217 | Every such step brings one call nearer its end and moves no other |
| `ConcurrentAssign.CreatedOverInactive` | octonomy/assignments/services.py:44-45 | In every interleaving with deactivations and reactivations of tags, a call creates its row over an inactive tag if and only if the tag's activity has changed an odd number of times since the caller loaded it, so only if it was deactivated since |
| `ConcurrentAssign.InactiveTagIsAssigned` | octonomy/assignments/services.py:163-184 | And it does happen, for any slot: load the tag, deactivate it, assign it |

## Left out

- HTTP and logging transports, webhook signing and JSON encoding: a publish call is an outcome, returned or raised.
- The webhook transport's own check that the lease outlasts its timeout, and the dispatch metric: configuration and observability.
- Databases without `skip_locked`, foreign-key share locks and waits on unique indexes in the taxonomy: the lock order is argued for explicit row locks, one service call to a transaction.
- Admin bulk actions, which put several service calls in one transaction.
- Text collation: names and slugs are ordered by character code; the order in which a query lists rows matters only where it decides a result.
- `created_at`, `updated_at` and `assigned_at` of taxonomy and assignment rows, and the description of an audit log beyond its existence beside the event.
- Token parsing and hashing, client expiry and last-used stamps: authentication is a client or none.
- `IsBlank` knows the ASCII blanks only; slug patterns, resource type and id formats and `validate_metadata` are left to typed data.
- List parameters other than application, shared rows and namespace (slug, type, activity, search, paging): they only narrow.
- Usage counts and the namespace flag ladder: aggregates and configuration.
- In the locking model, the application and namespace checks of the alias services: they only refuse, and a refusal is an abort at any point.
- TaxonomyReplay.RunReplays: calls without an audit context write no event, so the runs it is about all have one.
- AssignmentStore.Store.Serve: the lookup helper itself logs nothing, so the replay half is about the other five calls.
- TaxonomyStore.Store.Reactivate: the three-attempt re-point loop is in the locking model, where another transaction can move the alias; alone, the first attempt succeeds.
- AssignmentStore.Store.ReplaceResourceTags: the final listing is by tag; its order is by `assigned_at`, which is left out.
- AssignmentStore.Store.AssignTag: the conflict branch is in the concurrent model, where another call can win the race.
- ConcurrentAssign.OneWinner: a crash stands for every way a call can end without returning; its open insert is rolled back.
