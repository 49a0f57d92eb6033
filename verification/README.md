# Verified models of cerbix

cerbix is a monitoring service. A core process schedules checks, hands them to executors, ingests their results, and
serves an API and public status pages. This project models the parts of it whose correctness rests on state kept over
time or on every possible input, and proves what they promise. One module per file; each module's header names the
source it follows.

* **Request limiter** (`GateBucket`, `GateLimiter`, `GateRuns`, `GateBounds`, `GateObjects`). In-flight permits and two
  lazily refilled token buckets, a sweep that forgets idle principals, and the two pools of the change API built on it.
  `GateLimiter.State` is the limiter as a value: a pointer to a principal is an index into `cells`, a release closure an
  index into `handles`. The classes of `GateObjects` are proved against it, and it is proved against `Decide`, a limiter
  whose buckets fill continuously and which never forgets.
* **Login limiter and client address** (`LoginWindow`, `LoginLimiter`, `ClientAddress`). A sliding window that compacts a
  slice in place and sweeps, against the full history of attempts; the address it is keyed by, against forged headers.
* **Render cache** (`RenderCache`, `RenderCacheObject`, `CacheKey`). Look up or claim, render, publish, close, in every
  interleaving of any number of callers; the key's JSON encoding and the packed response.
* **Incident history** (`Calendar`, `HistoryMonths`, `Base64Url`, `Timestamp`, `HistoryCursor`). The months of the last 90
  days, and the cursor that resumes a traversal.
* **Alertmanager receiver** (`IncidentTable`, `AlertReceiver`, `AlertRaces`). One delivery alone, and deliveries, operators
  and store failures interleaved.
* **Pull agent** (`AgentLedger`, `WorkflowKinds`, `AgentBatch`, `PullProtocol`, `PullCore`). Which endpoint is claimed from and announced,
  one poll and its edge buffer, and the whole protocol between a core and its agents over a network that loses, delays
  and repeats.
* **Authorization and status pages** (`Authz`, `PageIndex`, `ComponentResolution`).

Store calls, decoding, the executor gate, probes, clocks and failures are parameters, so every statement holds for
whatever they do. Where the code keeps time in nanoseconds or floats, the model uses integers or reals; runs have a clock
that does not go back. The store's claim, ack and insert follow `internal/store/pulljobs.go`,
`internal/store/incidents.go` and the partial unique index on open incidents.

## Findings

Statements the code or its comments suggest that hold only under a condition, each with the exact condition.

The condition can fail in a run of the program:

* A caller that waits out `Retry-After` finds both tokens, unless a bucket that was short set the header and its wait was
  within the 1e-9 tolerance above a whole number of seconds (`HeaderSuffices`; `RetryAfterFallsShort` is a run of nine
  acquires in which the ninth, made exactly when the header said, is refused).
* The agent's ceiling on stamped generations is that of the endpoint it called, unless the cooldown ends between the
  choice of the path and the decoding of the answer (`CeilingOfEndpoint`, `CooldownEndsInFlight`). It is never lower, so a
  batch the core delivers is always accepted (`HonestBatchAccepted`).
* Five history months are offered on the first of May of a common year only; the comment at
  `internal/api/handlers_statushistory.go:53-54` says on 1 May (`OfferedMonths`).
* `principal_inflight` can be answered only where the principal cap is below the process cap, so never by a change pool
  (`PrincipalRefusalReachable`).

The condition is one the database or an earlier check guarantees, so the function alone does not have the property and the
program does:

* The query scope mirrors `Can` for every principal, action and target if and only if a project id belongs to one
  organisation (`ScopeMirrorsCan`, `ScopeCracks`). The memberships table's foreign key on project and organisation, and
  the check made when a token is created, see to that.
* Two cache keys are equal only for the same access, up to bytes that are not UTF-8, which all print alike
  (`KeyInjective`, `StrayTokensCollide`). The visibility gate admits a request for an unlisted page only with the page's
  own token, so no two tokens of one page reach the key (`GatedKeys`), and on valid text the key is injective
  (`KeyInjectiveOnText`).
* The batched resolution of a page's components is keyed by service id alone. It equals resolving each component alone
  if and only if none asks for a service under a wrong project while another asks rightly (`BatchedAgainstAlone`,
  `BorrowedExample`). The components table's composite foreign key on service and project excludes that, and then the two
  are equal (`StoredPageAlone`).

## Model

| member | source | states |
|---|---|---|
| GateBucket.RefillComposes | internal/api/gatelimiter.go:76-81 | refilling at one time and then another is refilling at the second, so a look at a bucket changes nothing later |
| GateBucket.IdleMinuteFills | internal/api/gatelimiter.go:76-81 | sixty idle seconds fill any bucket, whatever it held |
| GateBucket.RetryAfterTight | internal/api/gatelimiter.go:83-100 | the header of one bucket suffices up to the tolerance, and every smaller positive whole number of seconds leaves it short |
| GateBucket.RetryAfterSuffices | internal/api/gatelimiter.go:83-100 | waiting exactly the header finds a whole token if and only if the wait is not within the tolerance above a whole second |
| GateLimiter.SweepKeeps | internal/api/gatelimiter.go:208-218 | the sweep keeps the limiter's invariant and moves no principal's level: a forgotten principal's bucket was full |
| GateLimiter.SweepForgets | internal/api/gatelimiter.go:206-218 | a minute after the last sweep exactly the principals with no permit out that were not seen for a minute are forgotten; before that nothing is |
| GateLimiter.SeenNow | internal/api/gatelimiter.go:179-205 | a principal counts as seen when looked up and when it gives a permit back |
| GateRuns.AcquireRefines | internal/api/gatelimiter.go:139-191 | an acquire answers as the eager limiter that never forgets, and takes one permit and one token from each bucket, or nothing at all |
| GateRuns.AcquireAnswers | internal/api/gatelimiter.go:139-191 | each answer by permits out and levels: process cap, then principal cap, then the principal's bucket named before the process bucket, and admission exactly when nothing is short |
| GateRuns.ReleaseKeeps | internal/api/gatelimiter.go:176-190 | a release gives one permit back, to the principal that took it, and moves no bucket |
| GateRuns.ReleaseTwice | internal/api/gatelimiter.go:176-190 | calling a release closure again changes nothing |
| GateRuns.SweepInvisible | internal/api/gatelimiter.go:139-218 | over every run with a non-decreasing clock, all answers, reasons and Retry-After values are those of a limiter that never deletes |
| GateRuns.RefusalInvisible | internal/api/gatelimiter.go:135-191 | after a refused acquire every later answer is what it would have been without it |
| GateBounds.PermitsConserved | internal/api/gatelimiter.go:103-191 | after every run: process permits = sum over principals = closures not called, within both caps, all tokens between empty and full |
| GateBounds.RateBound | internal/api/gatelimiter.go:62-218 | in any interval of any run, a principal (forgotten and re-created or not) and the process are admitted at most perMinute plus what the interval earns |
| GateBounds.HeaderTight | internal/api/gatelimiter.go:157-172 | the header of a rate refusal covers both buckets up to the tolerance, and no smaller positive whole number of seconds does |
| GateBounds.HeaderSuffices | internal/api/gatelimiter.go:83-172 | a caller that waits out the header of a refusal still finds a bucket short if and only if one was short, set the header, and had a wait just over whole seconds |
| GateBounds.RetryAfterFallsShort | internal/api/gatelimiter.go:83-172 | a run of nine acquires from a new limiter: the eighth is refused for 8 seconds, the ninth, 8 seconds later, is refused |
| GateObjects.Limiter.constructor | internal/api/gatelimiter.go:121-133 | a new limiter: no permit held, a full process bucket, no principal |
| GateObjects.Limiter.SweepLocked | internal/api/gatelimiter.go:208-218 | the loop over the map, in any order, deletes exactly the idle principals |
| GateObjects.Limiter.Acquire | internal/api/gatelimiter.go:139-191 | the object's new state and answer are those of the acquire on values |
| GateObjects.Limiter.Release | internal/api/gatelimiter.go:176-190 | the object's new state is that of the release on values |
| GateObjects.ChangeLimiter.constructor | internal/api/changelimiter.go:47-65 | two pools with their own limits: equal caps in each, the record rates where they belong |
| GateObjects.ChangeLimiter.AcquireRecord | internal/api/changelimiter.go:68-70 | an acquire on the record pool, which leaves the read pool alone |
| GateObjects.ChangeLimiter.AcquireRead | internal/api/changelimiter.go:73-75 | an acquire on the read pool without rate, which leaves the record pool alone |
| GateObjects.PrincipalRefusalReachable | internal/api/gatelimiter.go:147-155 | some run answers principal_inflight if and only if the principal cap is below the process cap |
| GateObjects.ChangePoolsNeverNamePrincipal | internal/api/changelimiter.go:47-65 | no run of either change pool answers principal_inflight |
| LoginWindow.AnswersFollowHistory | internal/auth/ratelimit.go:39-75 | every attempt is allowed exactly when fewer than limit earlier allowed ones of its key lie in the last minute of the full history, despite compaction and sweeping; no positive limit means no limit |
| LoginWindow.WindowBound | internal/auth/ratelimit.go:39-62 | no window of one minute, anywhere in any run, holds more than limit allowed attempts of a key |
| LoginWindow.SweepForgets | internal/auth/ratelimit.go:61-75 | at most every five minutes exactly the keys with no time in the last minute leave the map |
| LoginLimiter.Compact | internal/auth/ratelimit.go:46-52 | in place over the shared array: exactly the times after the cutoff, in order, for every prefix of a longer array |
| LoginLimiter.Limiter.SweepKeys | internal/auth/ratelimit.go:64-75 | the loop deletes exactly the keys with no time in the window, at most every five minutes |
| LoginLimiter.Limiter.Allow | internal/auth/ratelimit.go:39-62 | the object, with its slices over arrays, answers and moves as the window on values, and any array it takes on is new |
| LoginLimiter.Feed | internal/auth/ratelimit.go:29-75 | one limiter object fed any list of attempts gives the answers of the window on values and, when times do not go back, those the full history demands |
| ClientAddress.ForwardChain | internal/auth/ratelimit.go:133-146 | the non-empty trimmed entries of the header in order, then the peer |
| ClientAddress.ClientIPByCIDR | internal/auth/ratelimit.go:114-128 | the last address of the chain outside the trusted networks, else the first |
| ClientAddress.ClientIP | internal/auth/ratelimit.go:90-110 | the choice between networks, hop count and peer |
| ClientAddress.EntriesOfListed | internal/auth/ratelimit.go:133-146 | the entries read from a header are the addresses listed in it, in order, without white space |
| ClientAddress.HopsFindClient | internal/auth/ratelimit.go:77-110 | with as many proxies as hops the address is the one the first proxy saw, whatever the client put in front |
| ClientAddress.NetworksFindClient | internal/auth/ratelimit.go:112-128 | behind any number of trusted proxies the address is the untrusted client's; behind an untrusted peer it is the peer's |
| ClientAddress.NetworkForgery | internal/auth/ratelimit.go:77-128 | no forged header in front changes the answer if and only if some address of the genuine chain is untrusted |
| ClientAddress.HopForgery | internal/auth/ratelimit.go:77-110 | with a hop count, if and only if the genuine chain is longer than the count |
| RenderCache.SingleFlight | internal/api/statuspagecache.go:83-119 | in every interleaving: one render per key at a time, entries and in-flight keys apart, at most 512 entries, and no waiter on a call neither closed nor owned |
| RenderCache.AnswersFromOwnKey | internal/api/statuspagecache.go:83-119 | every answer came from a render of the same key; a cached one before its expiry; an error or uncacheable one only to the owner and to callers that joined in flight |
| RenderCache.RendersSpaced | internal/api/statuspagecache.go:83-119 | a key is claimed for rendering only when every stored render of it was published five seconds ago or more, or a later publication of the run found the map full |
| RenderCache.ClearedWhenFull | internal/api/statuspagecache.go:107-116 | in every run the map is cleared only by a publication that finds 512 entries |
| RenderCache.PublishKeepsOthers | internal/api/statuspagecache.go:107-116 | a publication changes no other entry and, with room or nothing to store, loses none |
| RenderCache.StepKeeps | internal/api/statuspagecache.go:83-119 | every step of every caller keeps the protocol's invariant |
| RenderCacheObject.StatusPageCache.Do | internal/api/statuspagecache.go:83-119 | the live entry as a hit; else the call of whoever renders the key, to wait on; else its own render, stored for five seconds exactly when it is a storable success; the other entries stay while there is room |
| RenderCacheObject.StatusPageCache.Await | internal/api/statuspagecache.go:96-101 | a caller that joined answers with the owner's result, as a hit |
| RenderCacheObject.StatusPageCache.PublishResult | internal/api/statuspagecache.go:107-117 | the publication: stored only if cacheable and without error, the whole map cleared first when full, the in-flight mark removed |
| CacheKey.ArrayRoundTrip | internal/api/statuspagecache.go:134-148 | a reader of section 7 of RFC 8259 strings gets back the fields the key was printed from, up to bytes that are not UTF-8 |
| CacheKey.KeyInjective | internal/api/statuspagecache.go:122-148 | keys are equal if and only if endpoint, page, access shape, effective token and parts are, up to bytes that are not UTF-8 |
| CacheKey.KeyInjectiveOnText | internal/api/statuspagecache.go:122-148 | on valid text keys are equal if and only if endpoint, page, access shape, effective token and parts are |
| CacheKey.UnlistedTokenSeparates | internal/api/statuspagecache.go:122-148 | on valid text an unlisted page is keyed by exactly the token presented |
| CacheKey.GatedKeys | internal/api/handlers_statuspage.go:304-350 | of the requests for one page that pass the visibility gate, two share a key if and only if they ask for the same endpoint and parts |
| CacheKey.GatedPagesApart | internal/api/handlers_statuspage.go:304-350 | pages with different ids, or an unlisted page before and after its token changed, never share a key |
| CacheKey.StrayTokensCollide | internal/api/statuspagecache.go:134-148 | of the encoder alone: two tokens that are not UTF-8 print to one key |
| CacheKey.PackedRoundTrip | internal/api/handlers_statuspage.go:549-568 | the packed status and body unpack to themselves if and only if the status fits two bytes |
| Authz.Can | internal/authz/authz.go:196-224 | the loop answers the declarative rule: allow-list, global admin, and some membership that applies and grants |
| Authz.RolesInOrder | internal/authz/authz.go:82-120 | what each role is for: viewer within editor within organisation admin, project admin the same within a project, who may write, manage and override |
| Authz.OneMembership | internal/authz/authz.go:196-224 | one membership permits what its role grants, in its organisation and only in its project if it names one |
| Authz.MembershipsAddUp | internal/authz/authz.go:196-224 | memberships together permit what either part permits |
| Authz.ListIntersects | internal/authz/authz.go:146-158 | an allow-list leaves exactly the listed actions among those permitted without it |
| Authz.GlobalAdminAlone | internal/authz/authz.go:196-208 | a global admin may do everything, nobody else the global action or anything outside an organisation |
| Authz.VisibleScope | internal/authz/authz.go:265-283 | the lists built are exactly the organisations and projects of granting memberships |
| Authz.ScopeMirrorsCan | internal/authz/authz.go:196-283 | for every principal, action and target of a tenancy Can permits exactly what the scope covers, if and only if a project id determines its organisation |
| Authz.ScopeAgreesOnTenants | internal/authz/authz.go:258-283 | for one principal and target: Can holds exactly where the scope covers, when the memberships in the project name its organisation |
| Authz.ScopeCracks | internal/authz/authz.go:265-283 | for any project listed under two organisations, a viewer in one for whom the two differ in the other |
| Authz.CanImpliesVisible | internal/authz/authz.go:228-260 | what may be done to a project can be seen, so the 404 never hides an allowed call |
| Authz.ProjectAccess | internal/api/handlers_monitors.go:16-36 | let through exactly when the project is found and Can permits; 404 exactly when it is missing or invisible; 500 exactly when the lookup fails; else 403 |
| Authz.ValidateTokenActions | internal/api/handlers_apitokens.go:175-190 | accepted exactly when every listed action is one the token's role grants at its scope |
| Authz.ListedActionsExactly | internal/auth/middleware.go:108-140 | a validated token with a list can do exactly the listed actions, exactly at its scope |
| PageIndex.NewAffectedComponentIndex | internal/api/handlers_statuspage.go:426-455 | the maps built in one pass hold, per source and anchor, the plain scan of the page |
| PageIndex.AffectedComponentIDs | internal/api/handlers_statuspage.go:459-471 | an incident's affected components are the scan for its service anchor, else for its monitor anchor |
| PageIndex.ScanIsFirstMatches | internal/api/handlers_statuspage.go:417-455 | the scan is the matching components in page order, each id once, at its first match |
| PageIndex.DormantBindingsIgnored | internal/api/handlers_statuspage.go:417-455 | pages that differ only in bindings their sources do not name affect the same components |
| ComponentResolution.ResolveComponents | internal/api/statusprojection.go:74-185 | the map returned, row by row; on a stored page it is that of resolving every component alone; on any page a kept component has its own resolution if and only if it is not borrowed |
| ComponentResolution.BatchedAgainstAlone | internal/api/statusprojection.go:74-185 | the batches read hold for each component what reading for it alone gives, but for borrowed ones |
| ComponentResolution.StoredPageAlone | internal/store/migrations/00081_status_projection.sql:55-109 | where a service is bound under one project, as the table's keys demand, every resolution is the component's own |
| ComponentResolution.StoredPageShows | internal/api/statusprojection.go:112-200 | the status a stored page shows: maintenance before down before degraded before healthy, no data otherwise; monitors and manual components likewise |
| ComponentResolution.StoredPageHistory | internal/api/statusprojection.go:112-185 | history only when asked for and sealed, each day with its decidable part, and a reason wherever there is no data |
| ComponentResolution.BorrowedExample | internal/api/statusprojection.go:74-185 | without that, a page on which the code resolves a component otherwise than alone |
| ComponentResolution.ResolutionIgnoresDormant | internal/api/statusprojection.go:74-185 | neither the batches read, nor any component's resolution, nor the map returned depends on a dormant binding |
| ComponentResolution.Summarize | internal/domain/statuspage.go:123-165 | the headline is the worst measured status, unmeasured ones are counted and never read as health |
| Calendar.InstantInMonth | internal/api/handlers_statushistory.go:63-66 | the month of an instant is the one month whose start is at or before it and whose end is after it, over the whole Gregorian calendar |
| Calendar.YearStart | internal/api/handlers_statushistory.go:55-66 | a year starts where the closed form of the Gregorian calendar puts it |
| HistoryMonths.HistoryMonthsOffered | internal/api/handlers_statushistory.go:53-61 | the loop ends and lists the months back from the current one while they end after the window's start |
| HistoryMonths.MonthsBackMembers | internal/api/handlers_statushistory.go:53-61 | a month is listed if and only if it is not later than the current one and ends after the window's start |
| HistoryMonths.MonthsBackInOrder | internal/api/handlers_statushistory.go:53-61 | the months are consecutive, newest first, and the next one would end too early |
| HistoryMonths.OfferedMonths | internal/api/handlers_statushistory.go:53-82 | at every instant three to five months are offered, the current one first, and five exactly on the first of May of a common year |
| HistoryMonths.ThreeInOctober | internal/api/handlers_statushistory.go:53-61 | on the last day of October of any year, three |
| Base64Url.RoundTrip | internal/api/handlers_statushistory.go:119-127 | unpadded base64url of section 5 of RFC 4648 decodes to the bytes it encodes |
| Base64Url.LineBreaksSkipped | internal/api/handlers_statushistory.go:123-127 | line breaks in a text are skipped wherever they stand |
| Base64Url.ReaderIsLenient | internal/api/handlers_statushistory.go:95-101 | for every byte the decoder accepts sixteen spellings, which is why a cursor is re-encoded |
| Timestamp.RoundTrip | internal/api/handlers_statushistory.go:119-135 | a timestamp of section 5.6 of RFC 3339 with trimmed nanoseconds reads back as its instant, for every instant of the years 0 to 9999 |
| Timestamp.FormatFields | internal/api/handlers_statushistory.go:119-121 | year, month, day, hour, minute and second stand in their places between their separators |
| Timestamp.FormatEnds | internal/api/handlers_statushistory.go:119-121 | a fraction only if there is one, without trailing zeros, then Z |
| HistoryCursor.CursorRoundTrip | internal/api/handlers_statushistory.go:113-137 | decoding a minted cursor gives its position, whatever a lenient timestamp reader does with other texts |
| HistoryCursor.CursorSpelling | internal/api/handlers_statushistory.go:112-121 | a cursor is base64url of the timestamp, a bar and the id |
| HistoryCursor.ParseHistoryRequest | internal/api/handlers_statushistory.go:69-109 | the month and cursor checks, with each refusal |
| HistoryCursor.CursorCanonical | internal/api/handlers_statushistory.go:95-108 | two accepted cursors name the same position if and only if they are the same text |
| HistoryCursor.CursorWindow | internal/api/handlers_statushistory.go:69-137 | a minted cursor sent with its own month is accepted if and only if its instant is in the moving window |
| HistoryCursor.AcceptedInside | internal/api/handlers_statushistory.go:95-108 | an accepted cursor is the server's own spelling of a position in the month asked for and in the last 90 days |
| HistoryCursor.MonthRequest | internal/api/handlers_statushistory.go:74-94 | a month without a cursor is malformed exactly when it is no YYYY-MM, outside exactly when it ended 90 days ago or is yet to come, and else answered for itself |
| HistoryCursor.PlainRequestAccepted | internal/api/handlers_statushistory.go:69-94 | a request with neither month nor cursor is accepted, for the current month |
| IncidentTable.CreateKeeps | internal/store/incidents.go:193-242 | an insert the unique index lets through keeps at most one open incident per project and key |
| IncidentTable.ResolveCloses | internal/store/incidents.go:398-433 | resolving a row closes exactly its key in exactly its project |
| AlertReceiver.Handler.AlertmanagerWebhook | internal/api/handlers_alertmanager.go:33-83 | the loop's rows and report are those of the delivery on values; a store failure answers an error |
| AlertReceiver.Handler.OpenExternalIncident | internal/api/handlers_alertmanager.go:87-117 | opens one incident unless the key has one open |
| AlertReceiver.Handler.ResolveExternalIncident | internal/api/handlers_alertmanager.go:120-145 | closes the key's open incident, if any |
| AlertReceiver.EffectByStatus | internal/api/handlers_alertmanager.go:46-80 | an alert closes exactly on "resolved", opens exactly on "firing" or no status, in any mix of cases and only under a key |
| AlertReceiver.HandledByFields | internal/api/handlers_alertmanager.go:46-145 | a firing alert leaves its fingerprint open, or its alertname when it has none; a resolved one leaves it closed; it is counted exactly when that was a change |
| AlertReceiver.DeliveryByFields | internal/api/handlers_alertmanager.go:26-83 | after a delivery a key is open exactly as the last alert naming it by fingerprint, or by alertname without one, says |
| AlertReceiver.NoFaultNoFailure | internal/api/handlers_alertmanager.go:33-83 | with a working store no delivery fails |
| AlertReceiver.DeliveryCounts | internal/api/handlers_alertmanager.go:33-83 | every alert is counted once, the number of open keys moves by opened less resolved, the open keys are those the payload asks for, other projects are untouched |
| AlertReceiver.LastWordDecides | internal/api/handlers_alertmanager.go:26-83 | a key ends open exactly as the last alert with an effect on it says, else as before |
| AlertReceiver.ReplayChangesNothing | internal/api/handlers_alertmanager.go:26-83 | delivering a whole payload again leaves the open keys as they are |
| AlertRaces.ActionKeeps | internal/api/handlers_alertmanager.go:87-145 | every interleaved read, write, failed write and operator's act keeps the invariant |
| AlertRaces.RacesAreBenign | internal/api/handlers_alertmanager.go:33-145 | in every interleaving a key never has two open incidents, and a delivery that answers 200 counted every alert once and reports exactly the rows it opened and closed |
| AlertRaces.AloneIsSequential | internal/api/handlers_alertmanager.go:87-145 | with nothing in between, the read and the write are the sequential handler's step |
| AlertRaces.FinishesWhenHandled | internal/api/handlers_alertmanager.go:45-83 | a delivery answers exactly when it has handled every alert |
| AgentLedger.Agent.Claim | internal/agent/agent.go:449-482 | the requests sent, the endpoint decoded for and the new ledger state for every pair of answers |
| AgentLedger.Agent.NoteLedgerEndpointAbsent | internal/agent/agent.go:683-692 | the announcement is withdrawn and a five-minute cooldown starts; first is true once per outage |
| AgentLedger.Agent.NoteLedgerEndpointLive | internal/agent/agent.go:695-700 | the endpoint is proven and the cooldown over |
| AgentLedger.StateFollowsAnswers | internal/agent/agent.go:638-700 | in every run the agent announces 1 if and only if its latest generation-4 claim that answered 200 or 404 was a 200; it is in a cooldown if and only if that was a 404; never both |
| AgentLedger.DowngradeEnds | internal/agent/agent.go:632-672 | generation 4 is tried again from five minutes after the latest 404 on |
| AgentLedger.ProbesSpaced | internal/agent/agent.go:632-692 | after a 404 no later attempt starts within five minutes |
| AgentLedger.ClaimsAccepted | internal/api/handlers_agent.go:109-201 | every claim sent, recovery probe and fallback included, passes the core's header checks and declares exactly the build's kinds, and a 404 is retried on the older endpoint in the same poll |
| AgentLedger.HeadersNeeded | internal/api/handlers_agent.go:109-178 | without its ledger header, or with an older envelope, each claim would be refused |
| AgentLedger.CanaryDeclared | internal/agent/agent.go:793-801 | the core reads the canary kind from a claim exactly when the build has the canary executor |
| AgentLedger.DecodesLastClaim | internal/agent/agent.go:449-482 | a poll decodes the answer to the last claim it sent, exactly when that was a 200, for the endpoint it went to |
| WorkflowKinds.HeaderRoundTrip | internal/api/handlers_agent.go:180-201 | the core reads exactly the kinds declared, for any list within its bound and grammar |
| AgentLedger.ResolveStampedGenerationsAt | internal/agent/agent.go:571-598 | accepted exactly when jobs, tokens and stamps align with every stamp in 1..g; absent stamps read as g |
| AgentLedger.CeilingOfEndpoint | internal/agent/agent.go:514-552 | the ceiling read at decoding is the called endpoint's generation if and only if that was 4, or there are no credentials, or the cooldown still runs |
| AgentLedger.StampsWithinEndpoint | internal/agent/agent.go:514-598 | so a response decoded before its cooldown ends is held to the endpoint called |
| AgentLedger.CooldownEndsInFlight | internal/agent/agent.go:514-552 | a run in which a generation-3 answer with a stamp of 4 is accepted |
| AgentLedger.CeilingCoversEndpoint | internal/agent/agent.go:514-552 | the ceiling read at decoding is never below the endpoint called |
| AgentBatch.OneResultPerJob | internal/agent/agent.go:301-385 | every decodable job is answered once, by the gate's reason or by its probe, with its own token at the same place; an undecodable one is neither answered nor acked |
| AgentBatch.ResultsPost | internal/agent/agent.go:337-385 | the last thing a poll posts is one result for each decodable job, each beside its own token, and nothing else |
| AgentBatch.ProbesExactly | internal/agent/agent.go:337-372 | a poll probes exactly the jobs that decode and pass the gate, once each, in order |
| AgentBatch.ClaimsExactly | internal/agent/agent.go:365-418 | a poll claims exactly the admitted jobs of the ledger carrier, first and in one post without tokens |
| AgentBatch.ClaimsPrecedeProbes | internal/agent/agent.go:313-372 | claims go out only for admitted jobs of the ledger carrier, in one post without tokens, before any probe; the results post is last |
| AgentBatch.Agent.GatePass | internal/agent/agent.go:337-364 | the whole batch crosses the gate first: refusals answered and acked, admitted jobs kept in order |
| AgentBatch.Agent.ProbePass | internal/agent/agent.go:366-373 | each admitted job is probed once, in order, and answered with its token |
| AgentBatch.Agent.PublishClaims | internal/agent/agent.go:402-418 | one post of the claims, or none when there are none |
| AgentBatch.Agent.Poll | internal/agent/agent.go:301-385 | what a poll posts and probes, in order, and what it buffers or flushes |
| AgentBatch.Agent.BufferResults | internal/agent/agent.go:421-434 | nothing is forgotten: given = flushed + dropped + held, held is the newest part in order, at most 10000, never a probe error |
| AgentBatch.Agent.FlushBuffer | internal/agent/agent.go:437-447 | a successful backfill empties the buffer, a failed one keeps all of it |
| AgentBatch.KeptExactly | internal/agent/agent.go:421-428 | exactly the results that are no probe errors are buffered, as often as they came |
| AgentBatch.ConservedCounts | internal/agent/agent.go:419-447 | the counts add up: flushed + dropped + buffered = all that were buffered |
| PullProtocol.NoSilentLoss | internal/agent/agent.go:301-385 | in every run a row is still queued, or purged at or after its expiry, or retired by a request that carried its job's result with all its results in the sink; a row that does not decode is never retired |
| PullProtocol.ExchangeRetires | internal/agent/agent.go:301-385 | lease, results post and accepted request in a row: exactly the leased jobs that decode are retired, each beside its result |
| PullProtocol.AckRemoves | internal/api/handlers_agent.go:331-342 | an accepted request deletes exactly the rows whose current token it acks |
| PullProtocol.FailureRemovesNothing | internal/api/handlers_agent.go:327-342 | a request that fails deletes nothing; what it published before is in the sink |
| PullProtocol.PurgeRemoves | internal/store/pulljobs.go:198-205 | the purge removes exactly the rows at or past their expiry |
| PullProtocol.EnqueueQueues | internal/store/pulljobs.go:44-70 | an enqueued job is a new row, claimable at once by exactly the claims that may have it |
| PullProtocol.ActionKeeps | internal/store/pulljobs.go:117-205 | every enqueue, claim, purge, agent post and core request keeps the protocol's invariant |
| PullProtocol.RetiredSettled | internal/api/handlers_agent.go:313-342 | an ack deletes a row only beside a result for the job its current token was issued for |
| PullProtocol.FatesFinal | internal/store/pulljobs.go:184-205 | a row that left the queue never comes back and keeps how it left |
| PullProtocol.ReleaseProtects | internal/store/pulljobs.go:184-195 | a row leased again cannot be retired by any request sent before that lease |
| PullProtocol.LeaseExclusive | internal/store/pulljobs.go:117-157 | a claimed job is handed to nobody else until its own lease, or else the claim's, ends, whatever happens in between |
| PullProtocol.LeaseGiven | internal/store/pulljobs.go:130-157 | a claim leases its rows for their own time or else for its own, and touches no other |
| PullProtocol.LapsedIsClaimable | internal/store/pulljobs.go:117-157 | a queued job can be claimed exactly when it has not expired and no lease on it still runs |
| PullProtocol.HonestBatchAccepted | internal/agent/agent.go:449-598 | core and agent together: a batch delivered at the endpoint the agent called carries stamps within it and always passes the agent's decoder |
| PullCore.Core.AgentJobs | internal/api/handlers_agent.go:208-271 | the response's three arrays are parallel and carry the leased rows with fresh tokens, at most 64, none above the endpoint's generation |
| PullCore.Core.AgentResults | internal/api/handlers_agent.go:313-342 | accepted exactly when the region fits and no call fails; publishes in order, then deletes exactly the acked rows; any failure deletes nothing, and every outcome is a step of the protocol |

## Left out

- Float rounding in the buckets: tokens are reals, the 1e-9 tolerance is kept.
- A clock that steps back: runs have non-decreasing times.
- A render that panics, and a handler without a cache.
- RenderCacheObject.StatusPageCache.Do: other callers' steps between this caller's own; `RenderCache` interleaves them.
- The concurrency limit on public history renders, and the cache keys of that endpoint.
- Timestamp.RoundTrip: years beyond 0 to 9999, which RFC 3339 cannot write; HistoryCursor.CursorRoundTrip has the same bound.
- The lenient timestamp reader that Go falls back to: it is a parameter, and every statement holds whatever it accepts.
- AlertReceiver.Handler.AlertmanagerWebhook: an incident's title, body and impact, and deletion of incidents, are not modelled.
- AgentBatch.Agent.Poll: a claim that fails returns before anything modelled here; the agent's logs and credential health are left out.
- PullCore.Core.AgentJobs: which of the rows it may lease the store picks, and the long poll; any choice is allowed.
- PullProtocol.NoSilentLoss: that a queued job is eventually answered; only what may remove it is stated.
- The backfill endpoint's own bounds on history, the connection-test path of the agent, heartbeat validation and agent tokens.
- Decoding, the executor gate, credential envelopes and all cryptography: parameters.
- The scheduler, result ingestion, service evaluation and the rest of the store.
- HTTP plumbing, routing, sessions, OIDC, settings, subscribers, feeds, streaming, the command line and the frontend.
