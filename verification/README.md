# Verified model of the A2A gateway and its small companions

This Dafny project models the protocol logic of the A2A gateway and proves what its callers
rely on: over whole runs, under any interleaving, and across the components. Four small
self-contained cores of the same platform are modelled beside it. `dafny verify dfyconfig.toml`
checks everything.

- **Circuit breaker** (`Breaker.dfy`, `BreakerOverlap.dfy`): closed with a count of failures, open
  since an instant, or half-open with one probe. Every guarded call of the gateway goes through it,
  one after another or overlapping.
- **Entitlement gate** (`EntitlementGate.dfy`, `GateOverlap.dfy`): the per-tenant cache stamped
  with each check's start, the shared breaker and the unconditional fail-open. One file treats
  checks that follow one another (recovery and load bounds); the other lets them overlap at the
  `await` (staleness, and exactly when a check asks).
- **Retry outside the breaker** (`Resilience.dfy`, `PeerClient.dfy`): the three-attempt loop
  around one breaker, the dictionary of breakers per agent URL, load bounds and isolation.
- **Domain and stores** (`Domain.dfy`, `Repository.dfy`, `SqlPaging.dfy`): tasks, policies, agent
  cards, the dictionary store, the row store with select-then-update-or-insert, the refinement between
  them, and paging.
- **Task protocol** (`Protocol.dfy`, `ProtocolTheorems.dfy`): delegations, inbound sends,
  cancellations and policy updates as one machine with a step per `await`. An invariant says
  that the store is the replay of the event log and that every event is justified by earlier
  ones; lifecycle, card freshness and authorisation follow.
- **Services** (`Services.dfy`): the delegation service, the inbound gateway and the JSON-RPC
  gateway, proved against functions on the store, and proved to be what the step machine does
  when nobody interrupts.
- **Two gateways composed** (`Mirror.dfy`): platform A delegates to platform B through A's
  breaker and retry loop, over a network that may lose requests and replies or answer with a bad
  status before or after B served the request.
- **Companions**: service tokens and the Bearer header (`Token.dfy`), the tenant-role migration
  (`RolesMigration.dfy`), the claim-recall scorer (`Recall.dfy`), the mock embedding
  (`Embedding.dfy`).

Peers, Multi-tenancy, Workflow Engine, the clock, new ids and the keyed hash are inputs.

## Where the code and its documentation part

The model follows the code. Each point has a lemma.

- The gate's comment promises at most one live call per tenant per TTL. That holds while the
  tenant's own checks do not overlap (`GateOverlap.TenantLoadBound`) and fails when a check begins
  before the first lookup has ended (`GateOverlap.OverlapDoublesLookups`).
  `GateOverlap.AsksExactly` says exactly when a check asks.
- Because entries are stamped with the check's start but written at its end, an older answer can
  overwrite a newer denial (`GateOverlap.OlderAnswerCanOverwriteNewer`);
  `GateOverlap.HiddenExactly` says exactly when.
- Nothing consults the terminal statuses, so a cancel written before the creating call records
  its outcome is lost (`ProtocolTheorems.CancelLostRun`); one written afterwards stays.
  `ProtocolTheorems.CancelStaysExactly` says exactly when, by who holds the task at that moment.
- "Any failure lands on this task" is the comment on a delegation's `try`. A peer result that is no
  object or has an unrecognised status raises outside it, and then, and only then, the task is
  stranded (`ProtocolTheorems.StrandedExactly`, `ProtocolTheorems.StrandedRun`).
- A fetched card is cached before it is parsed, so a malformed one raises for a whole TTL
  (`ServiceSpec.MalformedCardSticks`).
- The peer client sends no caller headers: a mirrored platform sees caller "" and its own
  default tenant, and accepts only if a policy row for that pair exists (`Mirror.ServeOutcome`).
- A transport failure or timeout is retried although the peer may have processed the request, so
  lost replies make B start the same work up to three times (`Mirror.ThreeIsReached`).
- Breakers are keyed by the agent URL as spelled, requests strip trailing slashes
  (`PeerClient.SpellingsExactly`, `PeerClient.DownAgentIsCalledRespelled`).
- The row store's listing orders by creation time only, so tasks created at one instant can show up
  on two pages or on none; `SqlPaging.PagesFitExactly` says exactly when pages fit together.
- The row store drops the error of a created task, refuses a taken id, and converts a message that
  is no object and artifacts that are no list; the dictionary store does none of this
  (`StoreRefinement.AgreementIsExact`). A peer can send such artifacts.
- The mock embedding is called non-degenerate; it is the zero vector exactly when the code-point
  sum is a positive multiple of 997 (`Embedding.DegenerateExactly`).

## Model

| member | source | states |
|---|---|---|
| `Breaker.OutageBound` | modules/a2a/src/a2a_gateway/security/entitlement_gate.py:34-39 | In any sequential history, a stretch of consecutive failing attempts begun within `width` has at most fail_max + floor(width / timeout) of them, from every settled breaker state. |
| `Breaker.FailuresCost` | modules/a2a/src/a2a_gateway/security/entitlement_gate.py:34-39 | From any settled state at most fail_max failures are free; each further one is paid for with a whole timeout between first and last. |
| `Breaker.OpenCostsTimeout` | modules/a2a/src/a2a_gateway/security/entitlement_gate.py:37-39 | Once the breaker is open, n failing attempts take at least n timeouts, probes included. |
| `Breaker.CountsConsecutively` | modules/a2a/src/a2a_gateway/security/entitlement_gate.py:37-38 | After any history of a new breaker: closed with count n if and only if n attempts failed since the last success and n is below fail_max; otherwise open since the last attempt ended, at least the last fail_max attempts having failed. |
| `Breaker.CircuitBreaker.TryEnter` | modules/a2a/src/a2a_gateway/security/entitlement_gate.py:79-81 | A call is refused without any change, or admitted; an open breaker admits only after its timeout and turns half-open. |
| `Breaker.CircuitBreaker.Report` | modules/a2a/src/a2a_gateway/security/entitlement_gate.py:79-81 | Success closes and resets the count; a failure counts, opens at fail_max, and re-opens a half-open breaker. |
| `EntitlementGate.EntitlementGateMiddleware.constructor` | modules/a2a/src/a2a_gateway/security/entitlement_gate.py:64-81 | A new gate has an empty cache and a closed breaker with fail_max 5 and timeout 30. |
| `EntitlementGate.EntitlementGateMiddleware.CheckTenant` | modules/a2a/src/a2a_gateway/security/entitlement_gate.py:99-116 | The object's cache and breaker after a check, and its verdict, are those of the step function the run theorems are about. |
| `EntitlementGate.EntitlementGateMiddleware.Dispatch` | modules/a2a/src/a2a_gateway/security/entitlement_gate.py:83-97 | Excluded paths and requests without a tenant are forwarded with nothing changed; every other request is forwarded or answered 402 with the check's reason. |
| `GateRuns.BoundedRecovery` | modules/a2a/src/a2a_gateway/security/entitlement_gate.py:79-116 | Whatever happened before T, once every call ending from T on is answered and the tenant denied, each of its checks begun at or after T + 30 + ttl is denied. |
| `GateRuns.RecoveryFrom` | modules/a2a/src/a2a_gateway/security/entitlement_gate.py:99-116 | The same from every state an outage can leave behind: open since before T, half-open excluded, fail-open entries stamped before T + timeout. |
| `GateRuns.RecoveryBoundIsTight` | modules/a2a/src/a2a_gateway/security/entitlement_gate.py:99-116 | No smaller bound holds: for every slack there is a run in which a check begun at T + 30 + ttl - slack is still let through. |
| `GateOverlap.TenantLoadBound` | modules/a2a/src/a2a_gateway/security/entitlement_gate.py:34-37 | Under any interleaving in which no check of one tenant begins while another of it is in flight, its lookups begun within `width` number at most 1 + floor(width / ttl), whatever the checks of other tenants do. |
| `GateRuns.OutageLoadBound` | modules/a2a/src/a2a_gateway/security/entitlement_gate.py:34-39 | While every call fails, all tenants together cause at most 5 + floor(width / 30) network calls begun within `width`, for checks one after another. |
| `GateRuns.FailingRepliesLoadBound` | modules/a2a/src/a2a_gateway/security/entitlement_gate.py:118-124 | By the replies: while every call is answered with a non-2xx status or not at all, all tenants together cause at most 5 + floor(width / 30) network calls begun within `width`. |
| `GateRuns.AnsweredIsNeverRefused` | modules/a2a/src/a2a_gateway/security/entitlement_gate.py:105-108 | While every call gets a 2xx, its body usable or not, no check is ever refused. |
| `GateRuns.FailsOpenExactly` | modules/a2a/src/a2a_gateway/security/entitlement_gate.py:105-116 | A check not served from the cache is denied if and only if the answer it got denied it, with that reason; everything else lets it through. |
| `BreakerOverlap.OverlapOutageBound` | modules/a2a/src/a2a_gateway/security/entitlement_gate.py:34-39 | However calls overlap while every one fails, at most fail_max plus those in flight when the breaker first opens plus floor(width / timeout) begin within `width`. |
| `BreakerOverlap.GateOverlapBound` | modules/a2a/src/a2a_gateway/security/entitlement_gate.py:79-81 | For the gate: 5 plus the calls in flight then plus floor(width / 30). |
| `GateRuns.AttemptsAreTrail` | modules/a2a/src/a2a_gateway/security/entitlement_gate.py:105-106 | The network calls of every run, across tenants, are a history of the one shared breaker. |
| `GateOverlap.StalenessSoundness` | modules/a2a/src/a2a_gateway/security/entitlement_gate.py:99-116 | Under any interleaving each verdict served repeats an earlier lookup of the same tenant, answered or failed-open, begun less than ttl before if it came from the cache. |
| `GateOverlap.DenialsAreAnswers` | modules/a2a/src/a2a_gateway/security/entitlement_gate.py:93-95 | Under any interleaving a denial served was answered by Multi-tenancy for that tenant, with that reason. |
| `GateOverlap.AsksExactly` | modules/a2a/src/a2a_gateway/security/entitlement_gate.py:36-37 | Under any interleaving a new check asks Multi-tenancy if and only if the lookup of its tenant that ended last began at least ttl ago or none has ended: the exact reach of "one live call per tenant per TTL". |
| `GateOverlap.OverlapDoublesLookups` | modules/a2a/src/a2a_gateway/security/entitlement_gate.py:36-37 | The documented bound fails for overlapping checks, at every ttl: two checks of one tenant both ask. |
| `GateOverlap.ServedExactly` | modules/a2a/src/a2a_gateway/security/entitlement_gate.py:100-103 | Under any interleaving a new check is served from the cache if and only if the lookup of its tenant that ended last began less than ttl ago, and it is served exactly that lookup's decision. |
| `GateOverlap.HiddenExactly` | modules/a2a/src/a2a_gateway/security/entitlement_gate.py:101-115 | Under any interleaving the decision of the newest-begun ended lookup, a denial say, is replaced for the next check if and only if a lookup begun no later ended after it, ended last, is within ttl and decided otherwise. |
| `GateOverlap.OlderAnswerCanOverwriteNewer` | modules/a2a/src/a2a_gateway/security/entitlement_gate.py:101-115 | A run in which this happens: a newer denial is overwritten by an older "allow" and the next check is let through. |
| `GateOverlap.CheckIsItsEvents` | modules/a2a/src/a2a_gateway/security/entitlement_gate.py:99-116 | A check of the middleware object that none overlaps serves the verdict and leaves the cache that its events do in the interleaving machine. |
| `GateOverlap.RunIsItsEvents` | modules/a2a/src/a2a_gateway/security/entitlement_gate.py:99-116 | So does a whole sequence of checks, and its events never overlap: the theorems about interleavings hold of the object's runs. |
| `Resilience.ResilientHTTPClient.Send` | modules/a2a/src/a2a_gateway/clients/resilience.py:79-81 | The retry loop over the mutable breaker ends in the breaker state, result and attempts of the recursive request. |
| `Resilience.CallAsync` | modules/a2a/src/a2a_gateway/clients/resilience.py:70-77 | One guarded call: refused at once, or run and reported, every raised exception counting, a 4xx too. |
| `Resilience.RequestDiscipline` | modules/a2a/src/a2a_gateway/clients/resilience.py:36-48 | A request makes a prefix of its allowed attempts, all but the last raised a retryable failure, and stopping early after one means the breaker refused. |
| `Resilience.RequestResult` | modules/a2a/src/a2a_gateway/clients/resilience.py:42-48 | The result is the last attempt's own end or the breaker's refusal, and a 2xx is always returned. |
| `Resilience.RetriesExactly` | modules/a2a/src/a2a_gateway/clients/resilience.py:36-48 | The first attempt is made if the breaker admits it; after each one the next allowed is made if and only if it raised a 5xx, a transport failure or a timeout, the exception was not masked by the breaker opening, and the breaker as left admits it. |
| `Resilience.RejectionIsFinal` | modules/a2a/src/a2a_gateway/clients/resilience.py:9-13 | A status below 500 or an exception that is neither a transport failure nor a timeout is the last attempt of its request, which raises. |
| `Resilience.ThreePerRequest` | modules/a2a/src/a2a_gateway/clients/resilience.py:42-48 | n requests make at most 3n network attempts. |
| `Resilience.OutageLoadBound` | modules/a2a/src/a2a_gateway/clients/resilience.py:59-81 | However many requests arrive, attempts that all fail and begin within `width` number at most fail_max + floor(width / timeout), whichever exception the opening attempt raises. |
| `Resilience.RequestIsTrail` | modules/a2a/src/a2a_gateway/clients/resilience.py:79-81 | The attempts of a request are a history of its breaker and lead it to the request's final state. |
| `PeerClient.A2APeerHTTPClient.BreakerFor` | modules/a2a/src/a2a_gateway/clients/a2a_peer_client.py:66-71 | Returns the one breaker of that URL, creating a closed one on first use and touching no other. |
| `PeerClient.A2APeerHTTPClient.CallPeer` | modules/a2a/src/a2a_gateway/clients/a2a_peer_client.py:83-91 | One guarded call changes only the named agent's breaker, as the guarded call prescribes. |
| `PeerClient.A2APeerHTTPClient.CallKnown` | modules/a2a/src/a2a_gateway/clients/a2a_peer_client.py:86 | `call_async` on a breaker in the dictionary moves that one and keeps the dictionary. |
| `PeerClient.A2APeerHTTPClient.Send` | modules/a2a/src/a2a_gateway/clients/a2a_peer_client.py:51-57 | The retry loop on the agent's own breaker, in a dictionary of breakers, is the recursive request on that one entry. |
| `PeerIsolation.PerPeerIsolation` | modules/a2a/src/a2a_gateway/clients/a2a_peer_client.py:9-11 | For any interleaving of calls to any agents, one agent's breaker and the progress and results of its calls equal those of running only its own events. |
| `PeerIsolation.AloneIsRequest` | modules/a2a/src/a2a_gateway/clients/a2a_peer_client.py:83-91 | The interleaving machine, given one undisturbed call, ends in the breaker and result of the retry loop. |
| `PeerClient.SpellingsExactly` | modules/a2a/src/a2a_gateway/clients/a2a_peer_client.py:66-71 | Two spellings share the request URL, on any path, if and only if they agree up to trailing slashes, and share a breaker if and only if they are equal. |
| `PeerClient.StripsTrailingSlashes` | modules/a2a/src/a2a_gateway/clients/a2a_peer_client.py:85 | What is stripped from a URL is all its trailing slashes and nothing else. |
| `PeerClient.DownAgentIsCalledRespelled` | modules/a2a/src/a2a_gateway/clients/a2a_peer_client.py:83-86 | An agent whose breaker opened no longer than the timeout ago is still called under a spelling with one more slash. |
| `Domain.StatusRoundTrip` | modules/a2a/src/a2a_gateway/core/domain.py:24-30 | A status parses from its own value and from nothing else. |
| `Domain.StatusWords` | modules/a2a/src/a2a_gateway/core/domain.py:24-30 | Each status has its own word on the wire. |
| `Domain.CardRoundTrip` | modules/a2a/src/a2a_gateway/core/domain.py:117-137 | Parsing a printed card gives the card back, for every card. |
| `Domain.ExtraFieldsIgnored` | modules/a2a/src/a2a_gateway/core/domain.py:117-123 | An unknown field never changes the parsed card. |
| `Domain.CardParsesExactly` | modules/a2a/src/a2a_gateway/core/domain.py:117-128 | Which cards parse, exactly, and that a parsed card supports a skill if and only if an entry of its list goes by that id. |
| `Domain.PublishedCard` | modules/a2a/src/a2a_gateway/core/local_card.py:14-18 | The published card carries the configured name, description and URL and each skill once, in order, as id and name. |
| `Domain.ResultFields` | modules/a2a/src/a2a_gateway/core/rpc_gateway.py:27-30 | The result object holds the task's own id, status word, artifacts and error, null if and only if there is none. |
| `Domain.AdvertisedEqualsAccepted` | modules/a2a/src/a2a_gateway/core/local_card.py:14-18 | A peer reading the published card sees skill k if and only if the skill map has k. |
| `TaskListing.PagingPartition` | modules/a2a/src/a2a_gateway/core/fakes.py:43-53 | The pages laid end to end are sorted by creation time and hold each task as often as the store does if it matches, else never. |
| `TaskListing.PageIsStretch` | modules/a2a/src/a2a_gateway/core/fakes.py:53 | Every page is its stretch of the whole and reports the whole's length as total. |
| `TaskListing.SortIsStable` | modules/a2a/src/a2a_gateway/core/fakes.py:52 | Tasks created at one instant keep the order they were filed in. |
| `InMemory.PagesHoldEachTaskOnce` | modules/a2a/src/a2a_gateway/core/fakes.py:47-53 | Over the task dictionary: each stored matching task is on exactly one page, once, and nothing else is. |
| `InMemory.InMemoryA2AGatewayRepository.CreateTask` | modules/a2a/src/a2a_gateway/core/fakes.py:23-25 | Files the record under its id, at the end of the dictionary order unless the id was known. |
| `InMemory.InMemoryA2AGatewayRepository.UpdateTaskStatus` | modules/a2a/src/a2a_gateway/core/fakes.py:30-41 | Assigns the status and only those of artifacts and error that are given; an unknown id raises and changes nothing. |
| `InMemory.InMemoryA2AGatewayRepository.ListTasks` | modules/a2a/src/a2a_gateway/core/fakes.py:43-53 | Returns the page and total of the listing function the paging theorems are about; the total is the number of stored tasks that match. |
| `InMemory.InMemoryA2AGatewayRepository.UpsertAccessPolicy` | modules/a2a/src/a2a_gateway/core/fakes.py:55-57 | Sets the row of that caller and tenant and nothing else. |
| `InMemory.InMemoryA2AGatewayRepository.UpsertCachedCard` | modules/a2a/src/a2a_gateway/core/fakes.py:65-67 | Sets the entry of that URL and nothing else. |
| `SqlRepository.SQLAlchemyA2AGatewayRepository.CreateTask` | modules/a2a/src/a2a_gateway/db/repository.py:53-62 | Adds one row without the record's error, or raises on a taken id and changes nothing. |
| `SqlRepository.SQLAlchemyA2AGatewayRepository.UpdateTaskStatus` | modules/a2a/src/a2a_gateway/db/repository.py:68-80 | Assigns the columns of the selected row in place and returns them converted, artifacts that are no list included; an unknown id raises. |
| `SqlRepository.SQLAlchemyA2AGatewayRepository.ListTasks` | modules/a2a/src/a2a_gateway/db/repository.py:82-100 | Returns the slice of the matching rows ranked newest first, ties as the database likes, and their number. |
| `SqlPaging.SqlPagesPartition` | modules/a2a/src/a2a_gateway/db/repository.py:92-100 | If ties are broken alike on every query, the pages laid end to end are newest first and hold each matching row as often as the table, and no other. |
| `SqlPaging.FiltersExactly` | modules/a2a/src/a2a_gateway/db/repository.py:86-90 | A row is listed if and only if it is in the table and meets each filter given. |
| `SqlPaging.PagesFitExactly` | modules/a2a/src/a2a_gateway/db/repository.py:95-98 | Whatever is done with ties from query to query, pages of different queries fit together at every boundary if and only if no two rows were created at one instant. |
| `SqlRepository.SQLAlchemyA2AGatewayRepository.UpsertAccessPolicy` | modules/a2a/src/a2a_gateway/db/repository.py:102-123 | Selects, then updates the allow-list in place or inserts one row. |
| `SqlRepository.SQLAlchemyA2AGatewayRepository.GetAccessPolicy` | modules/a2a/src/a2a_gateway/db/repository.py:125-133 | Returns the first row of that caller and tenant. |
| `SqlRepository.SQLAlchemyA2AGatewayRepository.UpsertCachedCard` | modules/a2a/src/a2a_gateway/db/repository.py:142-162 | Selects, then updates the entry in place or inserts one row. |
| `StoreCalls.UpsertSpec` | modules/a2a/src/a2a_gateway/db/repository.py:102-123 | Select-then-update-or-insert keeps the selecting columns unique and the other rows' ids, and afterwards every key selects what the map update gives. |
| `StoreCalls.ReadsSeeWrites` | modules/a2a/src/a2a_gateway/core/fakes.py:23-67 | What was written last under a key is read back under it and under no other. |
| `StoreRefinement.StoreRefines` | modules/a2a/src/a2a_gateway/db/repository.py:53-162 | For every sequence of calls from the empty stores, listings included, the row store shows its callers exactly what the map store shows if and only if every call is agreeable; its keys stay unique in any case. |
| `StoreRefinement.RowsStayUnique` | modules/a2a/src/a2a_gateway/db/repository.py:102-162 | Task ids, (caller, tenant) and agent_url stay unique under every call sequence, without condition. |
| `StoreRefinement.AgreementIsExact` | modules/a2a/src/a2a_gateway/db/repository.py:26-62 | A call shows the same in both stores if and only if a created task has a fresh id, no error, an object as message and a list of artifacts, and artifacts written to a known task are a list. |
| `StoreRefinement.EmptyReadsEmpty` | modules/a2a/src/a2a_gateway/db/repository.py:26-32 | Empty values read back as an empty object and an empty list; objects and lists as they are, and nothing else does. |
| `StoreRefinement.ListRefines` | modules/a2a/src/a2a_gateway/db/repository.py:82-100 | Under every filter the two stores report the same total and, over all pages, the same tasks. |
| `ProtocolInvariant.Reachable` | modules/a2a/src/a2a_gateway/core/delegation_service.py:35-57 | In every run of interleaved delegations, inbound sends, cancels and policy updates, the store is the replay of the event log and each event is justified by earlier ones. |
| `ProtocolInvariant.StepKeeps` | modules/a2a/src/a2a_gateway/core/inbound_gateway.py:31-64 | Each atomic step, one per await, keeps that invariant for all calls in flight. |
| `ProtocolTheorems.FinalisedOnce` | modules/a2a/src/a2a_gateway/core/delegation_service.py:49-57 | No task is finalised twice, under any interleaving. |
| `ProtocolTheorems.FinalisedByCreator` | modules/a2a/src/a2a_gateway/core/delegation_service.py:42-57 | The call that finalises a task is the one that created it, and it was created once. |
| `ProtocolTheorems.StrandedExactly` | modules/a2a/src/a2a_gateway/core/delegation_service.py:49-57 | In every reachable state in which a call awaits its peer, the answer it then gets strands its task, never to be finalised in any continuation, if and only if it is no object with a recognised status. |
| `ProtocolTheorems.StrandedRun` | modules/a2a/src/a2a_gateway/core/delegation_service.py:54 | For every delegation and every such answer, a run from the start that leaves the task SUBMITTED for good. |
| `ProtocolTheorems.TasksAreAccountedFor` | modules/a2a/src/a2a_gateway/core/delegation_service.py:42-57 | In every run each created task is finalised, or its call got an answer that means no outcome, or its creating call still holds it. |
| `ProtocolTheorems.IdentityKept` | modules/a2a/src/a2a_gateway/core/delegation_service.py:42-57 | No task disappears, and only its status, artifacts and error ever change. |
| `ProtocolTheorems.Lifecycle` | modules/a2a/src/a2a_gateway/core/delegation_service.py:49-57 | A finalised task has the error and artifacts of what the answer its own call received means, and that status, or CANCELED when and only when a cancel was written afterwards. |
| `ProtocolTheorems.UnfinalisedLifecycle` | modules/a2a/src/a2a_gateway/core/delegation_service.py:42-47 | A task not finalised is SUBMITTED, or CANCELED when and only when someone cancelled it, without error and artifacts; its creating call still holds it or got an unusable answer. |
| `ProtocolTheorems.ErrorShape` | modules/a2a/src/a2a_gateway/core/delegation_service.py:51-52 | In every reachable state an error means FAILED or CANCELED and no artifacts. |
| `ProtocolTheorems.CanceledIsAbsorbing` | modules/a2a/src/a2a_gateway/api/routes_a2a.py:110-119 | A finalised task that is CANCELED stays so in every continuation of the run. |
| `ProtocolTheorems.CancelStaysExactly` | modules/a2a/src/a2a_gateway/api/routes_a2a.py:110-119 | In every reachable state in which a cancel is about to be written, writing it makes the task CANCELED for good, in every continuation, if and only if no call then holds the task apart from one about to record CANCELED. |
| `ProtocolTheorems.CancelSticksExactly` | modules/a2a/src/a2a_gateway/api/routes_a2a.py:110-119 | Read off a finished run: a written cancel shows at its end if and only if every finalisation after it recorded CANCELED itself or was followed by another cancel. |
| `ProtocolTheorems.EarlyCancelIsLost` | modules/a2a/src/a2a_gateway/core/rpc_gateway.py:79-87 | A cancel written just before the creating call records its outcome is overwritten by it, from every state in which both are about to write. |
| `ProtocolTheorems.CancelLostRun` | modules/a2a/src/a2a_gateway/core/rpc_gateway.py:79-87 | For every delegation and every usable answer, a run from the start that reaches such a state and loses the cancel. |
| `ProtocolTheorems.CardFreshness` | modules/a2a/src/a2a_gateway/core/delegation_service.py:38-71 | Every outbound task and every send follows a check by the same call of a card that advertises the skill, fetched from that very URL no later than the check, by that call itself or less than the TTL before. |
| `ProtocolTheorems.NoSkillNoTask` | modules/a2a/src/a2a_gateway/core/delegation_service.py:38-40 | A call whose check failed, or that never checked, creates no outbound task and sends nothing. |
| `ProtocolTheorems.InboundTaskIsAuthorised` | modules/a2a/src/a2a_gateway/core/inbound_gateway.py:39-52 | Every inbound task traces to a policy read of its call and to the policy update, the last one before it for that caller and tenant, whose list is null or names the skill. |
| `ProtocolTheorems.DeniedExactly` | modules/a2a/src/a2a_gateway/core/access_policy_engine.py:18-28 | In every run a request is denied if and only if no update in force for its caller and tenant permits the skill: none was made, or its list lacks it. |
| `ProtocolTheorems.StartIsAuthorised` | modules/a2a/src/a2a_gateway/core/inbound_gateway.py:54-57 | Every workflow start traces to such an update, to the inbound task its call created, and carries the definition the skill map gives. |
| `ProtocolTheorems.StartedOnce` | modules/a2a/src/a2a_gateway/core/inbound_gateway.py:54-57 | No inbound task is started twice. |
| `ProtocolTheorems.DispatchedTask` | modules/a2a/src/a2a_gateway/core/inbound_gateway.py:54-64 | A recorded start leaves the task WORKING with one artifact holding the answer's id and trace id, null where missing; a start that raised leaves it FAILED with that message; CANCELED instead if and only if cancelled afterwards. |
| `ProtocolTheorems.InboundStatuses` | modules/a2a/src/a2a_gateway/core/inbound_gateway.py:35-38 | In every run an inbound task is SUBMITTED, WORKING, FAILED or CANCELED. |
| `ProtocolTheorems.DelegatedTaskOutcome` | modules/a2a/src/a2a_gateway/core/delegation_service.py:49-57 | A recorded answer leaves the task with the status its result names, WORKING if none, its artifacts, empty if missing or null, and no error; an exception leaves it FAILED with that message. |
| `ProtocolTheorems.PeerOutcomeExactly` | modules/a2a/src/a2a_gateway/core/delegation_service.py:54 | An answer means no outcome if and only if its result is no object or names a status that is none of the six words. |
| `ProtocolTheorems.RejectionLeavesNothing` | modules/a2a/src/a2a_gateway/core/access_policy_engine.py:18-28 | A denied or unknown-skill request leaves the store as it was, and its call never creates an inbound task or starts a workflow. |
| `Services.DelegationService.GetCard` | modules/a2a/src/a2a_gateway/core/delegation_service.py:59-71 | Serves an unexpired entry; otherwise fetches and caches for the TTL before parsing. |
| `Services.DelegationService.Delegate` | modules/a2a/src/a2a_gateway/core/delegation_service.py:35-57 | The store and result after one delegation, in every one of its six endings. |
| `ServiceSpec.DelegateExactly` | modules/a2a/src/a2a_gateway/core/delegation_service.py:35-71 | Which of the five endings a delegation has, decided by the card in hand and the answer; what it files and caches in each. |
| `Services.InboundGateway.Accept` | modules/a2a/src/a2a_gateway/core/inbound_gateway.py:31-64 | The store and result after one inbound request: denied, unknown, or tracked as working or failed. |
| `ServiceSpec.AcceptExactly` | modules/a2a/src/a2a_gateway/core/inbound_gateway.py:31-64 | Without a policy row denied; with one, denied if and only if its list is not null and lacks the skill; a rejection changes nothing, a permitted published skill is tracked. |
| `ServiceSpec.RejectionTexts` | modules/a2a/src/a2a_gateway/core/access_policy_engine.py:20-28 | The reasons, word for word, with caller, tenant and skill in their places. |
| `Services.A2ARpcGateway.Handle` | modules/a2a/src/a2a_gateway/core/rpc_gateway.py:41-87 | The store and reply of every method, known or not. |
| `ServiceSpec.ReplyShape` | modules/a2a/src/a2a_gateway/core/rpc_gateway.py:41-53 | The reply echoes the id with exactly one of result and error (section 5 of the JSON-RPC 2.0 specification), and an error leaves the store alone. |
| `ServiceSpec.RejectionCodes` | modules/a2a/src/a2a_gateway/core/rpc_gateway.py:60-69 | A sent request is denied exactly when its policy row does not permit the skill, published or not; "unknown skill" exactly when the row permits an unpublished one; tracked otherwise. |
| `ServiceSpec.TaskErrorCodes` | modules/a2a/src/a2a_gateway/core/rpc_gateway.py:53-85 | -32601 exactly for other methods, -32003 exactly for a task that is not there. |
| `ServiceSpec.DefaultsAreEmpty` | modules/a2a/src/a2a_gateway/core/rpc_gateway.py:45-60 | Absent parameters are the empty skill, message and task id. |
| `ServiceSpec.DenialHidesSkillMap` | modules/a2a/src/a2a_gateway/core/inbound_gateway.py:39-45 | Without permission the reply and the store do not depend on which skills the platform publishes. |
| `ServiceSpec.SendThenGet` | modules/a2a/src/a2a_gateway/core/rpc_gateway.py:55-87 | The task id in the reply to a send fetches the very same result, and cancels that task and no other. |
| `ServiceSpec.MalformedCardSticks` | modules/a2a/src/a2a_gateway/core/delegation_service.py:59-71 | A fetched card that does not parse is cached: every delegation to that URL raises whatever a fetch would bring if and only if the entry is unexpired; afterwards a delegation ends as if nothing were cached. |
| `ServiceSpec.NullSkillsStick` | modules/a2a/src/a2a_gateway/core/domain.py:124-127 | A card with null skills is such a card, received from the empty store. |
| `ServicesAreSteps.DelegateIsItsSteps` | modules/a2a/src/a2a_gateway/core/delegation_service.py:35-71 | A delegation no other call interrupts, however long it waits at each await, leaves in the interleaving machine the store and ends with the result the service computes. |
| `ServicesAreSteps.AcceptIsItsSteps` | modules/a2a/src/a2a_gateway/core/inbound_gateway.py:39-64 | The same for an inbound request. |
| `ServicesAreSteps.CancelIsItsSteps` | modules/a2a/src/a2a_gateway/core/rpc_gateway.py:79-87 | The same for `tasks/cancel`, and the reply shows the task the steps end with. |
| `Mirror.MirrorExact` | modules/a2a/src/a2a_gateway/core/delegation_service.py:49-57 | If no reply is lost: B never served and is unchanged and A's task FAILED; or B served once and rejected, B unchanged and A's task FAILED with B's message; or B gained exactly one task with A's skill and message and A's task has its status and artifacts. B's policy and skill map decide which. |
| `Mirror.ServeOutcome` | modules/a2a/src/a2a_gateway/core/rpc_gateway.py:55-69 | B's reply to message/send, both ways: unchanged store and error, or one added task and that task as result. |
| `Mirror.MirrorUnderLoss` | modules/a2a/src/a2a_gateway/clients/a2a_peer_client.py:97-107 | Whatever is lost or answered with a bad status, B keeps all it had and gains exactly as many mirror tasks as attempts reached it, if it accepts, else none. |
| `Mirror.PartedExactly` | modules/a2a/src/a2a_gateway/core/delegation_service.py:49-57 | Whatever is lost: A's task ends as B's task of the last attempt if the request ended in a response and B accepts, else FAILED with an error; A's task is FAILED with an error while B holds tasks for it if and only if B accepts, some attempt reached it and the request ended in an exception. |
| `Mirror.AtMostThree` | modules/a2a/src/a2a_gateway/clients/a2a_peer_client.py:51-57 | One delegation leaves at most three tasks at B. |
| `Mirror.ThreeIsReached` | modules/a2a/src/a2a_gateway/clients/a2a_peer_client.py:45-57 | Three lost replies leave exactly three. |
| `Mirror.SendMessageIsRequest` | modules/a2a/src/a2a_gateway/clients/a2a_peer_client.py:97-107 | The composed send is A's retrying request and, at B, exactly the attempts it made; A reads B's answer to the last one if and only if the request ends in a response, otherwise an exception. |
| `Mirror.HandshakeExcludesUnknownSkill` | modules/a2a/src/a2a_gateway/core/local_card.py:1-7 | A delegation from B's published card fails locally exactly for skills B does not define, and a sent message is never answered "unknown skill". |
| `Token.SegmentRoundTrip` | scripts/seed_subscription_tiers.py:86-87 | A segment without padding decodes back (section 5 of RFC 4648) and contains no dot and no space. |
| `Token.SextetsFollowTheTable` | scripts/seed_subscription_tiers.py:86-87 | The alphabet is that of Table 2 of RFC 4648. |
| `Token.KnownVectors` | scripts/seed_subscription_tiers.py:86-87 | The vectors of section 10 of RFC 4648 for one, two and three bytes. |
| `Token.TokenRoundTrip` | scripts/seed_subscription_tiers.py:96-101 | A token splits at dots into exactly three segments that decode to its header, payload and signature (section 7.1 of RFC 7515), for all bytes. |
| `Token.TokenInjective` | scripts/seed_subscription_tiers.py:96-101 | Equal tokens come from equal triples. |
| `Token.MintedVerifies` | scripts/seed_subscription_tiers.py:96-101 | What is minted verifies against the same keyed hash, whatever it is. |
| `Token.AcceptedExactly` | modules/a2a/src/a2a_gateway/security/jwt_auth.py:53-68 | A minted token is accepted if and only if the verifier is the audience it was minted for and its clock is between the minting and the end of the lifetime. |
| `Token.AuthorizationExact` | modules/a2a/src/a2a_gateway/security/jwt_auth.py:105-108 | A header yields a token if and only if it is "bearer" in any case, one space, and that non-empty token. |
| `Token.BearerRoundTrip` | modules/a2a/src/a2a_gateway/security/jwt_auth.py:84-90 | The header built from a minted token is parsed back to it. |
| `RolesMigration.Backfill` | modules/identity-and-access/alembic/versions/0003_iam_v2_tenant_roles.py:47-53 | After the in-place loop every row has the id drawn for its name and the platform tenant, its other columns untouched. |
| `RolesMigration.Upgrade` | modules/identity-and-access/alembic/versions/0003_iam_v2_tenant_roles.py:36-60 | The upgraded table, and success exactly when all new constraints hold. |
| `RolesMigration.ConstraintsExactly` | modules/identity-and-access/alembic/versions/0003_iam_v2_tenant_roles.py:55-60 | The three new constraints, spelled out. |
| `RolesMigration.UpgradeIsSound` | modules/identity-and-access/alembic/versions/0003_iam_v2_tenant_roles.py:36-60 | From unique names and distinct ids every constraint holds and every role's own columns are kept. |
| `RolesMigration.UpgradeThenDowngrade` | modules/identity-and-access/alembic/versions/0003_iam_v2_tenant_roles.py:76-85 | Upgrade then downgrade restores the original table. |
| `RolesMigration.DowngradeExact` | modules/identity-and-access/alembic/versions/0003_iam_v2_tenant_roles.py:81-85 | After any use of the new table, the old key is valid if and only if no name is shared by two tenants. |
| `Recall.JoinAddsTokens` | modules/evaluation-framework/stubs/dependency-stub/app.py:27-28 | Texts joined by a separator have the sum of their token multisets. |
| `Recall.RunIsOneToken` | modules/evaluation-framework/stubs/dependency-stub/app.py:24-28 | A text of word characters is one token, itself lower-cased; with joining this fixes the tokens of every text. |
| `Recall.TokensAreWords` | modules/evaluation-framework/stubs/dependency-stub/app.py:24-28 | Every token is a non-empty run of lower-case letters and digits. |
| `Recall.WordCharacters` | modules/evaluation-framework/stubs/dependency-stub/app.py:24 | Word characters are the ASCII letters and digits. |
| `Recall.SupportedIsSumOfMins` | modules/evaluation-framework/stubs/dependency-stub/app.py:35 | The sum of minima, in any order of the claim's tokens, is the size of the multiset intersection. |
| `Recall.RecallExact` | modules/evaluation-framework/stubs/dependency-stub/app.py:31-36 | Recall lies in [0, 1] and is 1 if and only if the claim is contained in the context. |
| `Recall.RecallIsShare` | modules/evaluation-framework/stubs/dependency-stub/app.py:31-36 | Recall is the supported share of the claim's tokens. |
| `Recall.YesExactly` | modules/evaluation-framework/stubs/dependency-stub/app.py:79-86 | The verdict is "yes" if and only if twice the supported count is at least the claim's size. |
| `Recall.RecallMonotone` | modules/evaluation-framework/stubs/dependency-stub/app.py:31-36 | More context never lowers recall. |
| `Recall.YesStays` | modules/evaluation-framework/stubs/dependency-stub/app.py:79-86 | Appending context after a separator never turns a "yes" into a "no". |
| `Embedding.DegenerateExactly` | scripts/product-slice-stubs/external_mocks.py:180-186 | All coordinates lie in [0, 1); they are all zero if and only if the code-point sum is a positive multiple of 997, and otherwise all are non-zero and pairwise distinct. |
| `Embedding.CoordinatesExactly` | scripts/product-slice-stubs/external_mocks.py:184-185 | The first coordinate is the sum, or 1 for none, modulo 997 and over 997; each further one adds it to the one before, less 1 if that reaches 1. |
| `Embedding.SumExactly` | scripts/product-slice-stubs/external_mocks.py:184 | The sum is additive over texts and counts each character by its code point. |
| `Embedding.ZeroVectorExists` | scripts/product-slice-stubs/external_mocks.py:181-185 | A one-character text whose embedding is the zero vector. |

## Left out

- BoundedRecovery: is for checks that do not overlap, and asks that calls still running at T be answered too; one that fails after T re-opens the breaker later than T.
- GateOverlap.TenantLoadBound: is for a tenant whose own checks do not overlap; it is false for overlapping ones.
- GateRuns.OutageLoadBound: is for checks one after another; `BreakerOverlap.OverlapOutageBound` is for overlapping ones and depends on how many are in flight when the breaker opens.
- Resilience.OutageLoadBound: is for requests one after another; for overlapping ones `BreakerOverlap.OverlapOutageBound` bounds the attempts.
- AgreementIsExact: what `list` and `dict` make of a value of another type is not computed, only that it is not the value itself; an exception they raise counts as such a change.
- StoreRefinement.ListRefines: compares totals and the tasks on all pages together; single pages differ, since one store lists oldest first and the other newest first.
- StoreRefines: calls one after another on one session; concurrent upserts, sessions, the identity map and connection pools are not modelled.
- StartedOnce: counts starts the gateway asks for; the Workflow Engine client's own retry loop may send one start several times, as `Resilience.RequestDiscipline` describes.
- MirrorExact: B handles each request without interruption; interleaving inside one gateway is the subject of the protocol machine.
- Task records are values filed under their ids: the in-memory store hands out the record object itself, and that sharing is not modelled, nor are `updated_at` and the equality of the two clock reads that stamp a card entry.
- The internals of aiobreaker, tenacity, PyJWT and HMAC. The breaker is the machine above; which exception the opening attempt raises is a parameter of every theorem; backoff waits are arbitrary delays between attempts.
- HTTP, FastAPI and Starlette wiring, header lookup, status codes of the routes, NUL-byte rejection and the bounds on `limit`.
- JSON-RPC parameters of another JSON type than the method expects, the constant `jsonrpc` member, agent cards and Workflow Engine bodies that are no JSON object.
- `_get_optional`, and `put` and `delete`, which share the one request loop.
- New ids are assumed fresh, as uuid4 makes them.
- AcceptedExactly: how claims are written as JSON is a parameter that must read back what it writes; the library's lenience towards malformed segments is not modelled.
- The `role_bindings` table and its indexes, which the migration only declares.
- Unicode case mapping in the tokenizer: letters outside ASCII separate words. Floating-point rounding of recall and coordinates: both are real quotients.
- Logging, metrics, tracing, deployment scripts and the modules whose code is only described.
