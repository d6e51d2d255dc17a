# Verified model of the production change registry

The registry is an append-only log of change events in PostgreSQL. Nothing is
ever updated or deleted: whether an operation is open, whether an event is
starred or alerted, what belongs to an event's activity, and every listing are
derived from the log by SQL and Go code. This project models that code and
proves what it computes.

There are two views of the stored data, linked by `Sql.Represents`:

- the **tables**: event rows with nullable columns and one tag row per entry of
  an event's tag map, unique by (event, key);
- the **log**: a sequence of rows in commit order, each an immutable event with
  the `ingest_sequence` it was given at insert.

Specifications speak about the log. The SQL and the readers run on the tables.

| part | modules | what is proved |
|---|---|---|
| texts, orders, events | `Text`, `Ordering`, `Model`, `Lookup` | trimming, cutting, byte order; a strictly ascending listing of a set is unique |
| SQL | `Sql`, `Relational`, `Clauses`, `Where`, `EventList` | three-valued logic over NULL, joins as bags, and the compilation of list parameters into clauses with shared placeholder numbers |
| the Current view | `Operations`, `Reduction`, `CurrentQuery` | the five-stage query equals "the least start of every operation that has no end"; locality, order independence, exact closes |
| concurrent writers | `Contents`, `Writers`, `WriterSteps`, `WriterTheorems`, `FaultFree`, `Traces`, `Sequential`, `Toggles` | a state machine of any number of creates, toggles and closes, interleaved statement by statement under READ COMMITTED, with row locks and the unique index; invariants over all runs, agreement, progress, alternation, and what each stored event says |
| readers with loops | `AnnotationReaders`, `Paging`, `Activity` | the walks, the page loop and the activity list against set and fold specifications; the page loop under commits between its statements, with the run that loses an event |
| the service in use | `Policy`, `Registry`, `Fixture` | the tag policy, the whole service as a class over its tables, and fixture runs |
| text forms | `RecordTags`, `Dashboard` | parser and printer round trips, tag links |

Times are integers in nanoseconds; truncation to a second is the floor. SHA-256
in hexadecimal is an arbitrary function `digest`, injective where a theorem says
so. New event ids, the clock, Go's `time.Parse` and the verdict of the link check
are parameters. External ids that start with `pcr:close:` are written by the close
path only (`Writers.JobAllowed`).

One comment in the code disagrees with the code, and the model follows the code:
`internal/handler/dashboard_params.go:86-89` says that an unset or unrecognized
range falls back to the last 24 hours. An unset one does, and an unrecognized one
has no time bounds at all: `Dashboard.FallbackOnlyWhenUnset` gives the exact
condition and `Dashboard.UnrecognizedRangeHasNoBounds` a request.

## Model

| member | source | states |
|---|---|---|
| Where.BuildWhereClause | internal/store/postgres/postgres.go:849-921 | for every parameter record the compiled clauses, evaluated with their argument list on any stored row under three-valued logic, select exactly the rows the parameters describe; placeholders are $1, $2, ... one per argument |
| Where.BuildTagClause | internal/store/postgres/postgres.go:901-914 | in any iteration order of the tag map, the disjunction accepts a tag row exactly when it is one of the wanted pairs, with consecutive placeholders |
| Where.AlertSubquery | internal/store/postgres/postgres.go:884-899 | the NOT EXISTS subquery selects an event exactly when its latest alert transition in ingest order opened an alert |
| EventList.List | internal/store/postgres/postgres.go:291-367 | with count, page and tags read by separate statements between which events are committed, the total is that of the events matching at the count, and the page is the LIMIT/OFFSET slice of the listing at the fetch, newest first with ties by ascending id, with each event's own tags |
| Clauses.BindPage | internal/store/postgres/postgres.go:310-322 | LIMIT and OFFSET take the next two numbers after the clauses, name their own values, and binding them changes no clause |
| EventList.ListingLists | internal/store/postgres/postgres.go:310-323 | the listing holds every matching event once, newest first with ties by id |
| EventList.LoadTags | internal/store/postgres/postgres.go:797-821 | grouping the tag rows of the requested ids gives back each event's own tag map |
| Sql.DecodeEncode | internal/store/postgres/postgres.go:705-749 | reading back a stored event returns it unchanged but for both times truncated to the second |
| Reduction.PhaseRows | internal/store/postgres/postgres.go:369-379 | `phase_event` holds one row for each top-level start or end and nothing else |
| Reduction.CorrelatedAligned | internal/store/postgres/postgres.go:380-398 | the two tag joins neither multiply nor drop rows, and the fallback from an empty or missing change_id to deploy_id yields the event's own operation |
| Reduction.IdentityAgrees | internal/service/change.go:422-433 | on a stored top-level start, the Go identity is exactly the key and value `correlated` computes |
| Reduction.EndedOperations | internal/store/postgres/postgres.go:399-404 | `ended` holds exactly the operations with a top-level end, once each |
| Reduction.RankOne | internal/store/postgres/postgres.go:405-424 | row number 1 is the start least by (timestamp, id) of its operation |
| Reduction.CurrentRows | internal/store/postgres/postgres.go:427-434 | the final joins give one row per candidate start, with its own event and its own team, scope and severity |
| CurrentQuery.BuildCurrentWhereClause | internal/store/postgres/postgres.go:923-955 | every joined row, whatever NULLs it carries, is selected exactly when it has rank 1 and passes team, scope, severity, type and correlation filters |
| CurrentQuery.ListCurrent | internal/store/postgres/postgres.go:438-512 | with count, page and tags read by separate statements, the total is that of the specification at the count and the page that of the specification at the fetch |
| CurrentQuery.CurrentListingLists | internal/store/postgres/postgres.go:438-512 | that specification lists each matching representative once, newest first |
| CurrentQuery.AppendOrderIsIrrelevant | internal/store/postgres/postgres.go:369-434 | two logs with the same events give the same Current listing for all parameters |
| CurrentQuery.StateQuery | internal/service/change.go:347-365 | the filtered query counts 1 for an open operation and 0 otherwise, and its row is that operation's row in the unfiltered view |
| CurrentQuery.OperationState | internal/service/change.go:347-365 | a start is open exactly when its operation has a row in the unfiltered Current the count statement sees |
| Operations.OneRowPerOpenOperation | internal/store/postgres/postgres.go:405-424 | an operation has a representative exactly when it has a start and no end, and never two |
| Operations.AppendIsLocal | internal/store/postgres/postgres.go:369-434 | appending an event leaves the row of every other operation as it was |
| Operations.AppendOutsideLifecycle | internal/store/postgres/postgres.go:369-398 | appending an uncorrelated event or a meta-event leaves Current unchanged |
| Operations.AppendEnd | internal/store/postgres/postgres.go:399-424 | appending an end removes its operation's row, if any, and nothing else |
| Operations.AppendStart | internal/store/postgres/postgres.go:405-424 | a new start enters Current exactly when its operation has no end and no earlier start, and touches only that operation |
| Operations.EndedForever | internal/store/postgres/postgres.go:399-424 | an ended operation never reappears, even when an earlier-dated start is appended |
| Operations.CloseIsExact | internal/service/change.go:393-410 | an end that keeps a start's type and tags but for the phase closes that start's own operation, for every start, including an empty change_id and untrimmed values |
| Operations.EndTagsKeepTags | internal/service/change.go:397-399 | the clone in which the identifier and the phase are overwritten has the start's keys, the phase "end", and the start's value for every other key |
| Operations.CloseRemovesExactlyOneRow | internal/service/change.go:393-410 | appending that end removes exactly one row, the operation's, from Current |
| Lookup.CloseIdInjective | internal/service/change.go:417-420 | the NUL-separated payload makes closing ids of different operations different |
| WriterSteps.StepKeepsInvariant | internal/store/postgres/postgres.go:77-251 | every statement of every create, toggle and close keeps the invariant on log, rows in flight, index keys and row locks |
| WriterTheorems.RunInvariant | internal/store/postgres/postgres.go:77-251 | in every run the log only grows: no stored event changes |
| WriterTheorems.StoreStaysWellFormed | migrations/001_create_change_events.up.sql:1-22 | in every reachable state ids, sequence numbers and non-empty external ids are unique, event types are present, and each parent has a smaller ingest sequence |
| WriterTheorems.ParentChainsEnd | internal/service/change.go:124-136 | parent chains are finite and acyclic |
| WriterTheorems.CreateResult | internal/service/change.go:44-92 | a finished create returns the only event with its external id, whatever the payloads, or was rejected by validation, or had a parent stored in no state of the run before its parent check, or met a fault; a duplicate result always carries an event |
| WriterTheorems.ConcurrentCreatesAgree | internal/service/change.go:47-55 | all creates with one external id that return, return the same event |
| WriterTheorems.CloseResult | internal/service/change.go:373-415 | a finished close by a named user returns the only event with the operation's closing id, which ends that operation, or reports the operation closed when it is; not found means stored in no state of the run before the close read it, and not closable that the stored event starts no operation |
| WriterTheorems.CloseFoundOpen | internal/service/change.go:386-392 | in every run a close that returns an event, or is on its way to, found its operation open in an earlier state in which it read it |
| WriterTheorems.ConcurrentClosesAgree | internal/service/change.go:373-415 | closes of one operation, also through duplicate starts, return the same event |
| WriterTheorems.ClosedForGood | internal/service/change.go:373-415 | after a successful close the operation is closed in every later state |
| WriterTheorems.RunsAreBounded | internal/store/postgres/postgres.go:77-251 | a run takes at most eight statements per job |
| WriterTheorems.NeverStuck | internal/store/postgres/postgres.go:184-194 | while a job is unfinished some job can move without a fault: the locks never deadlock |
| FaultFree.FaultFreeCreate | internal/service/change.go:44-92 | without faults every create that passes validation, and whose parent is stored in any state before its parent check, returns the one stored event with its external id |
| FaultFree.FaultFreeClose | internal/service/change.go:373-415 | without faults every close by a named user of a start stored in any state before the close reads it returns the one closing event or reports the operation closed, and it has ended |
| FaultFree.FaultFreeToggle | internal/store/postgres/postgres.go:170-253 | without faults every toggle of an event stored in any state before the toggle locks it commits a transition of its pair |
| FaultFree.StoppedRunsAreFinished | internal/store/postgres/postgres.go:77-251 | a fault-free run that cannot be continued without a fault has finished every job |
| Traces.CreatedContents | internal/service/change.go:44-92 | in every run the event a concurrent create, toggle or close created is stored under the id of its own insert and says, field by field, what the job asked for at the time of its own step: user, parent, external id, texts, links, time, type and tags |
| Toggles.TogglesAlternate | internal/store/postgres/postgres.go:170-253 | when only toggles write a pair on a parent, in every run its transitions strictly alternate in ingest order and the derived flag is the initial one flipped once per commit |
| Toggles.FlagCountsToggles | internal/store/postgres/postgres.go:522-580 | the flag after a run is the initial flag exactly when an even number of transitions was added |
| Toggles.ToggleTouchesOneFlag | internal/store/postgres/postgres.go:201-206 | a transition leaves the other pair and every other event's flags as they were |
| AnnotationReaders.ReadLatestTransition | internal/store/postgres/postgres.go:195-214 | the latest-transition query answers the active type exactly when the flag is set |
| AnnotationReaders.GetAnnotations | internal/store/postgres/postgres.go:522-580 | the reverse walk with early exit derives both flags from the latest transition of each pair; a NULL parent matches no id |
| AnnotationReaders.GetAnnotationsBatch | internal/store/postgres/postgres.go:587-660 | the batched walk derives the same flags for every requested id, repeats included, and for no other id |
| AnnotationReaders.FoldAgrees | internal/store/postgres/postgres.go:522-580 | replaying the log forward, last transition of each pair wins, gives the same flags |
| AnnotationReaders.AlertFilterIsFold | internal/store/postgres/postgres.go:884-899 | the alert filter selects exactly the events whose replayed alert flag is set |
| Paging.ListAll | internal/service/change.go:329-343 | on a growing store the loop appends the whole page of every call, up to the first call that fetched nothing or reached its count; every event at its place in a fetched listing is gathered; a run that stops has missed no event that matched at the start exactly when every such event listed beyond the gathered ones was gathered earlier, in particular when the last listing fits in the pages read, or no match was committed between the count and the fetch of the last call; on an unchanging store it stops and returns every matching event once, in order |
| Paging.CountedBeforeFetchedCanMiss | internal/store/postgres/postgres.go:302-323 | a full page is counted and one more match is committed before the fetch: every run over these snapshots stops at its first call without the oldest match |
| Paging.PlainFiltersPersist | internal/service/change.go:329-343 | for parameters without the alert filter, an event that matched matches in every later snapshot |
| Activity.GetActivity | internal/service/change.go:300-327 | children and closures are listed without duplicates by (timestamp, id) |
| Activity.EveryClosureIsListed | internal/service/change.go:309-321 | every end of the operation is in the activity of each of its starts |
| Activity.ListedClosures | internal/service/change.go:309-321 | a listed end closes the operation exactly when the key is change_id or the end has no change_id of its own |
| Activity.DeployActivityCanListForeignEnds | internal/service/change.go:309-321 | with deploy_id the activity can list the end of another operation: a concrete well-formed log |
| Policy.NormalizeEventTags | internal/service/change.go:149-167 | phase, change_id, deploy_id and team are trimmed, severity and scope trimmed and in lower case, every other tag is as given, and no key is added or lost |
| Policy.NormalizationIsIdempotent | internal/service/change.go:149-167 | normalizing twice is normalizing once |
| Policy.PhaseRulesExactly | internal/service/change.go:178-199 | the phase rules accept exactly the non-maintenance events without lifecycle tags and the correlated events with an exact phase |
| Policy.PhaseReason | internal/service/change.go:178-199 | which of the four messages a rejected event gets, each with its exact condition |
| Policy.AcceptedClassification | internal/service/change.go:201-217 | an accepted severity or scope is stored as one of the exact lower-case values |
| Policy.EnforcedExactly | internal/service/change.go:96-121 | under the policy a request passes exactly with a user, a type, tags that meet the rules once normalized, and valid links, and is stored with the normalized tags and its own type but for the spellings of maintenance |
| Policy.RejectionReason | internal/service/change.go:96-121 | a rejection names the first rule broken: user, type, tags, links |
| Policy.AcceptedEventsCorrelate | internal/service/change.go:96-121 | an accepted top-level event has no lifecycle tags or a non-null operation, and maintenance always has one |
| Policy.AcceptedStartIsVisible | internal/service/change.go:96-121 | an accepted start is absent from the unfiltered Current exactly when its operation has an end or an earlier start |
| Registry.Registry.Insert | internal/store/postgres/postgres.go:77-150 | the insert transaction appends one row to the log and keeps the tables in step with it |
| Registry.Registry.GetByExternalId | internal/store/postgres/postgres.go:664-695 | the lookup on the tables finds the log's one event with that external id, tags loaded |
| Registry.Registry.Create | internal/service/change.go:44-92 | the stored id wins before validation, then validation, parent check and the storability of the texts decide the outcome, each exactly; the log grows by exactly the created event, which has the given id, the request's own user, parent, external id, texts and links, its time or else the clock's truncated to the second, and the type and tags of the validation |
| Sequential.OneCreateSubmits | internal/service/change.go:44-92 | the statements of a create that runs alone and without faults end with the outcome and the row of the one-call meaning, and a created event says what the request asked for |
| Registry.Registry.Toggle | internal/store/postgres/postgres.go:170-253 | a toggle of a stored event appends the opposite transition under it, by the given user under his own name, provider and subject, at the clock's time and with the word of the transition, and flips the derived flag; a NUL in the identity is a database error |
| Registry.Registry.Close | internal/service/change.go:373-415 | each outcome is determined by its condition: no user, no event, nothing to close, already closed, an event already stored under the closing id, an unstorable text, or else one end is appended, with the start's type, every tag of the start but the phase, the closer and the given or derived description, that removes exactly its operation's row from Current |
| RecordTags.ParseRecordChangeTags | internal/handler/record.go:136-159 | a text is accepted exactly when no line is malformed and no key repeats, with exactly the pairs its lines give, and a rejection is the complaint about the first offending line |
| RecordTags.RejectedForFirstOffence | internal/handler/record.go:136-159 | a rejected text has a first line that is malformed or repeats a key, and the error is malformed or names that key and line number accordingly |
| RecordTags.AcceptedExactly | internal/handler/record.go:136-159 | lines read after some pairs are accepted exactly when none is malformed and no key repeats or was given before, and the map then holds exactly the pairs of both |
| RecordTags.ReadLineExactly | internal/handler/record.go:142-152 | a trimmed line is split at its first equals sign, whatever follows it, into a trimmed key and a trimmed value, and is malformed without a key |
| RecordTags.AcceptedIsClean | internal/handler/record_fuzz_test.go:23-47 | accepted keys are non-empty and trimmed, and values are trimmed |
| RecordTags.RoundTrip | internal/handler/record_fuzz_test.go:23-47 | printing an accepted map as key=value lines in any order and parsing again gives the same map |
| Dashboard.ParseDashboardRequest | internal/handler/dashboard_params.go:24-69 | the query parameters and the form filters describe the same listing, with the time window of the range |
| Dashboard.LastDayExactly | internal/handler/dashboard_params.go:90-120 | the window is the last 24 hours exactly for an empty range, for "24h", and for a custom range whose bounds parse to it |
| Dashboard.FallbackOnlyWhenUnset | internal/handler/dashboard_params.go:86-103 | of the unset or unrecognized ranges that the comment promises the last 24 hours, exactly the unset one gets them; the others have no bounds |
| Dashboard.UnrecognizedRangeHasNoBounds | internal/handler/dashboard_params.go:86-103 | a request with range "7d" gets no time bounds |
| Dashboard.ParseTags | internal/handler/dashboard_params.go:126-144 | malformed entries are skipped, later entries of a key win, and the kept entries are those shown |
| Dashboard.LastEntryWins | internal/handler/dashboard_params.go:126-144 | the tag filter holds a value for a key exactly when some entry is that key, a colon and that value, and no later entry gives the key |
| Dashboard.FilterQuery | internal/handler/dashboard.go:278-311 | the printed query carries each filter's values under its own name and no other parameter at all |
| Dashboard.FilterQueryRoundTrip | internal/handler/dashboard.go:278-311 | parsing the query printed from any parsed filters gives back the same filters and tag filter |
| Dashboard.TagFilterQuery | internal/handler/dashboard.go:316-330 | the link carries the same settings, the entries of other keys and the new entry, and no other parameter; a team tag also sets the team |
| Dashboard.TagLinkSetsOneTag | internal/handler/dashboard.go:316-330 | in the history and alerts views, following a link for a non-empty colon-free key sets exactly that key and keeps every other tag and setting |
| Dashboard.TagRemoveQuery | internal/handler/dashboard.go:335-347 | the link carries the same settings and the entries other than the removed one, and no other parameter; the team goes if that tag established it |
| Dashboard.RemoveLinkLeavesRemainingTags | internal/handler/dashboard.go:335-347 | following a remove link leaves exactly the map of the remaining entries and every other setting |
| Dashboard.RemoveUndoesFilter | internal/handler/dashboard.go:316-347 | removing the tag a link has just set takes back exactly that key |
| Dashboard.RemovalRemovesKeyExactly | internal/handler/dashboard.go:335-347 | following a remove link takes a key out of the tag filter exactly when no other entry of the request gives that key |
| Dashboard.RemovalRevealsAnEarlierValue | internal/handler/dashboard.go:335-347 | from a request with two entries of a key, the remove link of the later one leads to the earlier value |
| Fixture.ValidateReferences | internal/fixture/fixture.go:100-133 | it reports the first event whose ref is empty or repeated, whose parent ref is not earlier, or whose time is unclear, and none exactly when there is none |
| Fixture.ApplyAt | internal/fixture/fixture.go:64-98 | an invalid fixture creates nothing and names its first invalid event; a valid one is played event by event against the service |
| Fixture.FailureStops | internal/fixture/fixture.go:69-97 | a run that fails has created the events before the one it names and nothing after them, and reports the outcome of that event's own create |
| Fixture.RunResolves | internal/fixture/fixture.go:69-97 | after a successful run every ref names the event stored for it, and a new event has the fixture event's own external id, user, texts, links and time, the id its parent ref names as parent, and its type and tags in the form the policy gives them |
| Fixture.ApplyingTwiceAddsNothing | cmd/seed/main.go:95-104 | when all external ids are given, a second run, at any time and after any other appends, stores nothing and returns the same refs |

## Left out

- Links are kept in the event row instead of a table of their own, and their order is not modelled further; which URLs pass is a flag of the request.
- The order of ids in `ORDER BY id` is byte order; a database collation may order them differently.
- Case folding is modelled on ASCII letters, in Go's `ToLower` and SQL's `LOWER` alike.
- Activity.GetActivity: its page calls see an unchanging store.
- Paging.ListAll: starts at offset 0, as both of its callers do; completeness on a growing store is conditional on matching events continuing to match; that is proved for every parameter set without the alert filter, the only kind the service passes.
- Toggles.TogglesAlternate: generic creates of star and alert events on the same parent are excluded, since they take no lock on it before their foreign key check.
- CurrentQuery.OperationState: says nothing about an event with a blank type, which no create stores.
- Writers.Storable: a NUL in a text that is only looked up is reported when the row is inserted, not at the lookup.
- Dashboard.ParseDashboardRequest: limit and offset, and their bounds, are not read.
- Percent-encoding of URLs, the order of parameters in them, and query parameters the dashboard does not read.
- Fixture.ApplyAt: the token's identity replacing the fixture's user name, JSON decoding, and the transport.
- The nil and the empty tag map are not told apart; Go's time values do not overflow.
- Database faults are aborts with rollback at any statement; a connection lost after COMMIT is not modelled.
- AddLinks, which creates a child event through the same create path.
- HTTP handlers, templates, authentication, sessions, the client and command line, configuration, migrations, health checks and logging.
- Pagination links, elapsed-time formatting, the limit clamp and status mapping, as properties in their own right.
