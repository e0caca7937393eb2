# Rest.li request multiplexer, modelled in Dafny

This project models the core of Rest.li's multiplexed request handler, a
Java class. The handler's input is one envelope `POST /mux` request. Its
body is a tree: a map of individual requests, each of which may carry its
own map of dependent requests. The handler:

- checks the HTTP method, the content type and the size of the tree;
- builds a ParSeq task plan, in which each request's processing chain is
  followed by the plan of its dependents, and siblings run in one
  `Tasks.par`;
- records every individual response and Set-Cookie into two shared maps;
- answers with one aggregated 200 response.

The project also models the content-type registry (`ContentType`): a
process-wide map from a lower-cased header key to a content type.

Modules, one per file:

| file | module | models |
|---|---|---|
| `wrappers.dfy` | `Wrappers` | `Option` (a nullable reference / `Optional`) and `Result` (a call that may throw) |
| `strings.dfy` | `Strings` | `toLowerCase` and case-insensitive comparison, on ASCII |
| `content_type.dfy` | `ContentTypes` | `ContentType`: the registry as a class with a map field, `createContentType`, `getContentType` |
| `individual_requests.dfy` | `IndividualRequests` | the request tree, its pre-order `Flatten`, and `totalRequestCount` |
| `cookies.dfy` | `Cookies` | the cookie key and last-write-wins merging (`addResponseCookies`) |
| `execution_plans.dfy` | `ExecutionPlans` | the plans `createRequestHandlingTask` and `createParallelRequestsTask` build; their happens-before order (`Precedes`) and a sequential run (`Trace`) |
| `execution.dfy` | `Execution` | the two shared maps as a class, the record step, `addResponseCookies`, and a method that runs a plan |
| `multiplexer.dfy` | `Multiplexer` | `isMultiplexedRequest`, `validateHeaders`, `extractIndividualRequests`, the whitelist, `handleRequest`, `aggregateResponses` |

Each map of the request tree (an `IndividualRequestMap`) is a sequence of
entries in iteration order.

The seven processing steps before the record step are task classes outside
this model. Their combined effect is a parameter, `respond`: the response
and Set-Cookie headers the response filter hands the record step for an
entry. The collaborators below are parameters too:

- `ContentTypeUtil.getContentType` becomes `classify`: a header is
  unparsable, JSON, or some other type.
- Decoding the body becomes `readRequests`: a tree, or the exception
  decoding throws.
- `CookieUtil.decodeSetCookies` becomes `decode`.
- MIME parsing in `ContentType.getContentType` becomes `parse`: a header
  value maps to its base type, or to `None` when it does not parse.

Facts of the code that shape the model:

- The cookie key joins name, lower-cased domain and path with `;`
  (`MultiplexedRequestHandlerImpl.java:273-275`).
- An unparsable Content-Type is answered with 400 "Invalid content type".
  Only a parsable non-JSON type gets 415
  (`MultiplexedRequestHandlerImpl.java:189-199`).
- The response map is flat. Every individual response, at any depth of the
  tree, is stored under its own id in one shared map
  (`MultiplexedRequestHandlerImpl.java:248-249`). No status says that an
  ancestor failed.
- Cookies and responses are put into shared maps, so the last write wins.
  A sequential run, with `Tasks.par` branches taken in list order, records
  the entries in pre-order of the tree, so "last" means last in pre-order.

## Model

| member | source | states |
|---|---|---|
| Strings.ToLower | restli-server/src/main/java/com/linkedin/restli/server/multiplexer/MultiplexedRequestHandlerImpl.java:274 | lower-casing keeps the length and leaves no upper-case letter |
| ContentTypes.InitialSupportedTypes | restli-common/src/main/java/com/linkedin/restli/common/ContentType.java:40-54 | the static initialiser registers exactly PSON and JSON under their header keys; the accept-only `*/*` type is not registered |
| ContentTypes.Registry.constructor | restli-common/src/main/java/com/linkedin/restli/common/ContentType.java:48-54 | a new registry holds exactly the initial types |
| ContentTypes.Registry.CreateContentType | restli-common/src/main/java/com/linkedin/restli/common/ContentType.java:63-70 | the returned type keeps the header key as given (`getHeaderKey`) and the codec; the registry gains it under the lower-cased key, replacing an earlier entry there, and every other key keeps its entry |
| ContentTypes.Resolve | restli-common/src/main/java/com/linkedin/restli/common/ContentType.java:80-88 | an absent header gives JSON; an unparsable one gives the parse exception, and only then; otherwise the result is the entry under the lower-cased base type, empty when there is none |
| ContentTypes.Registry.GetContentType | restli-common/src/main/java/com/linkedin/restli/common/ContentType.java:80-85 | against the current registry, an absent header gives JSON |
| ContentTypes.RegisteredTypeResolves | restli-common/src/main/java/com/linkedin/restli/common/ContentType.java:63-88 | after `createContentType(k, c)`, a header whose base type equals `k` ignoring case resolves to the new type, whatever was registered before |
| ContentTypes.RegistrationLeavesOthers | restli-common/src/main/java/com/linkedin/restli/common/ContentType.java:63-88 | registration changes the resolution of no absent header, no unparsable header, and no header whose base type differs from the key ignoring case |
| ContentTypes.InitialRegistryResolves | restli-common/src/main/java/com/linkedin/restli/common/ContentType.java:40-88 | in the initial registry, case variants of `application/json` and `application/x-pson` resolve to JSON and PSON; those of `*/*` resolve to nothing |
| ContentTypes.RegisterAll | restli-common/src/main/java/com/linkedin/restli/common/ContentType.java:68 | a series of registrations leaves the old keys plus the lower-cased key of each registered type |
| ContentTypes.LastRegistrationWins | restli-common/src/main/java/com/linkedin/restli/common/ContentType.java:63-88 | after a series of registrations, a header resolves to the last registered type whose key matches its base type ignoring case |
| IndividualRequests.Flatten | restli-server/src/main/java/com/linkedin/restli/server/multiplexer/MultiplexedRequestHandlerImpl.java:174-182 | the pre-order of the tree holds at least the top-level entries, and each of them |
| IndividualRequests.TotalRequestCount | restli-server/src/main/java/com/linkedin/restli/server/multiplexer/MultiplexedRequestHandlerImpl.java:174-182 | the loop's count is the number of entries at every depth, each entry counting once |
| IndividualRequests.CountZeroIffEmpty | restli-server/src/main/java/com/linkedin/restli/server/multiplexer/MultiplexedRequestHandlerImpl.java:161-182 | the count is zero exactly when the top-level map is empty |
| IndividualRequests.FlattenHoldsDependents | restli-server/src/main/java/com/linkedin/restli/server/multiplexer/MultiplexedRequestHandlerImpl.java:177-180 | every dependent of a counted entry is counted: the recursion reaches every depth |
| IndividualRequests.FlattenHoldsOnlyTreeEntries | restli-server/src/main/java/com/linkedin/restli/server/multiplexer/MultiplexedRequestHandlerImpl.java:176-180 | nothing else is counted: each entry is top-level or a dependent of a counted entry |
| Cookies.MergeCookiesKeys | restli-server/src/main/java/com/linkedin/restli/server/multiplexer/MultiplexedRequestHandlerImpl.java:270-277 | after merging, the cookie map holds the old keys and the key of every new cookie, and nothing else |
| Cookies.LastCookieWins | restli-server/src/main/java/com/linkedin/restli/server/multiplexer/MultiplexedRequestHandlerImpl.java:270-277 | a cookie that no later cookie shares a key with is the one kept under its key |
| Cookies.OtherCookiesUnchanged | restli-server/src/main/java/com/linkedin/restli/server/multiplexer/MultiplexedRequestHandlerImpl.java:276 | keys that no new cookie has keep their old entry, present or absent |
| Cookies.MergeCookiesAppend | restli-server/src/main/java/com/linkedin/restli/server/multiplexer/MultiplexedRequestHandlerImpl.java:266-278 | merging two cookie lists one after the other is merging their concatenation |
| Cookies.DomainCaseCollides | restli-server/src/main/java/com/linkedin/restli/server/multiplexer/MultiplexedRequestHandlerImpl.java:272-275 | cookies that differ only in the case of their domain share a key |
| Cookies.KeyIsIdentity | restli-server/src/main/java/com/linkedin/restli/server/multiplexer/MultiplexedRequestHandlerImpl.java:272-275 | when name and domain hold no `;`, two cookies share a key exactly when name, lower-cased domain and path agree (absent counting as empty) |
| ExecutionPlans.RequestHandlingTaskTrace | restli-server/src/main/java/com/linkedin/restli/server/multiplexer/MultiplexedRequestHandlerImpl.java:238-263 | a run of the chain runs its eight steps in the fixed order, and it records one response, its own, at the last step |
| ExecutionPlans.RequestHandlingTaskOrder | restli-server/src/main/java/com/linkedin/restli/server/multiplexer/MultiplexedRequestHandlerImpl.java:255-263 | every execution of the chain runs each step before every later one |
| ExecutionPlans.ToVoid | restli-server/src/main/java/com/linkedin/restli/server/multiplexer/MultiplexedRequestHandlerImpl.java:296-307 | appending the do-nothing action changes no event that runs and no ordering: the new plan orders two events exactly when the old one does |
| ExecutionPlans.CreateParallelRequestsTask | restli-server/src/main/java/com/linkedin/restli/server/multiplexer/MultiplexedRequestHandlerImpl.java:202-229 | the loop builds, for each entry, its chain, or its chain sequenced before its dependents' plan, all in one `Tasks.par` followed by `toVoid` |
| ExecutionPlans.NodeTaskTrace | restli-server/src/main/java/com/linkedin/restli/server/multiplexer/MultiplexedRequestHandlerImpl.java:214-226 | an entry's task runs its own chain, then the chains of every request below it, in pre-order |
| ExecutionPlans.ParallelPlanTrace | restli-server/src/main/java/com/linkedin/restli/server/multiplexer/MultiplexedRequestHandlerImpl.java:202-229 | the plan holds one chain per entry of the tree, at every depth, run in pre-order |
| ExecutionPlans.PlanRunsEachStepOncePerEntry | restli-server/src/main/java/com/linkedin/restli/server/multiplexer/MultiplexedRequestHandlerImpl.java:202-263 | each step, the handling step and the record step included, runs exactly once per entry of the tree, so it runs as many times as `totalRequestCount` counts |
| ExecutionPlans.OccursIffInTrace | restli-server/src/main/java/com/linkedin/restli/server/multiplexer/MultiplexedRequestHandlerImpl.java:225-228 | an event is part of a plan exactly when a sequential run of the plan meets it |
| ExecutionPlans.PlanEvents | restli-server/src/main/java/com/linkedin/restli/server/multiplexer/MultiplexedRequestHandlerImpl.java:209-228 | the plan holds the steps of exactly the entries of the tree |
| ExecutionPlans.ChainOrderInPlan | restli-server/src/main/java/com/linkedin/restli/server/multiplexer/MultiplexedRequestHandlerImpl.java:214-263 | within the whole plan, each entry's chain still runs its steps in order |
| ExecutionPlans.ParentPrecedesDependents | restli-server/src/main/java/com/linkedin/restli/server/multiplexer/MultiplexedRequestHandlerImpl.java:223-263 | every step of an entry, the record step included, precedes every step of every request below it |
| ExecutionPlans.PlanOrderIsTreeOrder | restli-server/src/main/java/com/linkedin/restli/server/multiplexer/MultiplexedRequestHandlerImpl.java:202-229 | the plan orders two events exactly when they are steps of one entry of the tree in chain order, or the first is a step of an entry and the second a step of an entry below it |
| ExecutionPlans.SiblingsUnordered | restli-server/src/main/java/com/linkedin/restli/server/multiplexer/MultiplexedRequestHandlerImpl.java:202-229 | at every depth, steps of two different entries, neither of which lies below the other, are unordered both ways |
| Execution.ReplayIsRecordAll | restli-server/src/main/java/com/linkedin/restli/server/multiplexer/MultiplexedRequestHandlerImpl.java:245-254 | only record steps change the shared maps; a run's effect is that of its record steps, in order |
| Execution.PlanRecordsTree | restli-server/src/main/java/com/linkedin/restli/server/multiplexer/MultiplexedRequestHandlerImpl.java:202-263 | a run of the plan of a tree records every entry of the tree, in pre-order |
| Execution.RecordAllKeys | restli-server/src/main/java/com/linkedin/restli/server/multiplexer/MultiplexedRequestHandlerImpl.java:251 | the response map is flat: its keys are the old ones plus the id of each recorded entry |
| Execution.RecordAllLastWins | restli-server/src/main/java/com/linkedin/restli/server/multiplexer/MultiplexedRequestHandlerImpl.java:251 | an entry that no later entry shares an id with is the one whose response is kept; a later put overwrites |
| Execution.RecordAllCookies | restli-server/src/main/java/com/linkedin/restli/server/multiplexer/MultiplexedRequestHandlerImpl.java:252-278 | the cookie map is the old one with the cookies of every recorded entry merged in, in order |
| Execution.ResponseCollector.constructor | restli-server/src/main/java/com/linkedin/restli/server/multiplexer/MultiplexedRequestHandlerImpl.java:134-135 | both shared maps start empty |
| Execution.ResponseCollector.AddResponseCookies | restli-server/src/main/java/com/linkedin/restli/server/multiplexer/MultiplexedRequestHandlerImpl.java:266-278 | the loop puts each decoded cookie under its key, in order; the response map is unchanged |
| Execution.ResponseCollector.RecordResponse | restli-server/src/main/java/com/linkedin/restli/server/multiplexer/MultiplexedRequestHandlerImpl.java:245-254 | the record step puts the response under its id and merges its cookies |
| Execution.ResponseCollector.Execute | restli-server/src/main/java/com/linkedin/restli/server/multiplexer/MultiplexedRequestHandlerImpl.java:245-263 | running a plan with `Tasks.par` branches in list order changes the maps as its record steps do, in run order |
| Multiplexer.IsMultiplexedRequestIgnoresMethod | restli-server/src/main/java/com/linkedin/restli/server/multiplexer/MultiplexedRequestHandlerImpl.java:100-105 | whether a request is multiplexed depends on its path alone, `/mux`, and not on its method |
| Multiplexer.ErrorReply | restli-server/src/main/java/com/linkedin/restli/server/multiplexer/MultiplexedRequestHandlerImpl.java:121-131 | the callback always gets a service exception |
| Multiplexer.Whitelist | restli-server/src/main/java/com/linkedin/restli/server/multiplexer/MultiplexedRequestHandlerImpl.java:92-96 | a header is in the whitelist exactly when a given name equals it ignoring case; a null argument gives an empty whitelist |
| Multiplexer.MultiplexedRequestHandler.constructor | restli-server/src/main/java/com/linkedin/restli/server/multiplexer/MultiplexedRequestHandlerImpl.java:83-98 | the handler keeps the maximum and the case-insensitive whitelist |
| Multiplexer.MultiplexedRequestHandler.ExtractIndividualRequests | restli-server/src/main/java/com/linkedin/restli/server/multiplexer/MultiplexedRequestHandlerImpl.java:155-200 | headers are validated before the body is read; then the decoded tree is counted, a count of zero or above the maximum raising an `IllegalArgumentException` |
| Multiplexer.MultiplexedRequestHandler.HandleRequest | restli-server/src/main/java/com/linkedin/restli/server/multiplexer/MultiplexedRequestHandlerImpl.java:107-148 | the reply is the method check, then admission, then the aggregation of a run of the plan over fresh maps |
| Multiplexer.NonPostRejected | restli-server/src/main/java/com/linkedin/restli/server/multiplexer/MultiplexedRequestHandlerImpl.java:110-115 | a non-POST request gets a bare 405, whatever its content type and body, neither of which is looked at |
| Multiplexer.ContentTypeCheckedFirst | restli-server/src/main/java/com/linkedin/restli/server/multiplexer/MultiplexedRequestHandlerImpl.java:157-200 | an unparsable content type gives 400 "Invalid content type", a non-JSON one 415 "Unsupported content type", before and whatever the body |
| Multiplexer.UndecodableBodyRejected | restli-server/src/main/java/com/linkedin/restli/server/multiplexer/MultiplexedRequestHandlerImpl.java:121-131 | a service exception from decoding reaches the callback as it is; any other exception becomes a bare 400 |
| Multiplexer.CountBounds | restli-server/src/main/java/com/linkedin/restli/server/multiplexer/MultiplexedRequestHandlerImpl.java:127-171 | a decoded tree is admitted exactly when its count is between 1 and the maximum, the maximum included; an empty tree and an oversized tree get a bare 400 |
| Multiplexer.AdmittedResponse | restli-server/src/main/java/com/linkedin/restli/server/multiplexer/MultiplexedRequestHandlerImpl.java:280-290 | an admitted request gets status 200; its responses are keyed by exactly the ids used anywhere in the tree; its cookies are those of all responses, merged in pre-order |
| Multiplexer.AdmittedResponseLastWins | restli-server/src/main/java/com/linkedin/restli/server/multiplexer/MultiplexedRequestHandlerImpl.java:251 | in an admitted request's response, an id maps to the response recorded last for it |
| Multiplexer.MuxNonPostIsRefused | restli-server/src/main/java/com/linkedin/restli/server/multiplexer/MultiplexedRequestHandlerImpl.java:103-115 | a non-POST request to `/mux` is recognised as multiplexed and then refused with 405 |

## Left out

- Concurrency: the ParSeq engine and how it schedules tasks are left out. A run takes the branches of a `Tasks.par` in list order. Under concurrency the branches may interleave. Then which response or cookie of a shared id or key is "last" depends on the schedule. The key sets and the happens-before facts (`Precedes`) do not.
- The seven task classes of the chain (sanitisation, inheriting the envelope, filters, synthetic request creation, handling, response conversion) are not part of this model. Their combined result is the parameter `respond`. So the model does not show how the whitelist is applied to headers.
- Task failure: the model assumes every task of every chain completes, so each chain reaches its record step. In ParSeq a task of a `Tasks.seq` that fails skips the tasks after it. That skips the dependents of a failed request, and the aggregation step at `MultiplexedRequestHandlerImpl.java:147`, which then never answers the callback. The model does not capture that path.
- Repeated entries: events and entries are values, so the order facts (`Precedes`, `PlanOrderIsTreeOrder`, `SiblingsUnordered`) and the recorded responses are about entry values. They are exact for a tree that repeats no (id, request) entry. Two equal entries at different places in a tree are one value in the model, and `respond` gives them the same response.
- Body codecs, `DataMapUtils`, `MultiplexedRequestContent` and `CookieUtil` are not part of this model. Decoding and encoding are parameters (`readRequests`, `decode`). The aggregated response carries the response map and the set of cookies, not their encoded bytes or headers.
- MIME parsing (`MimeType`) is the parameter `parse`. `ContentTypeUtil` is not part of this model; it is the classification `classify`.
- Logging is left out.
- `HttpMethod.valueOf` on a method name that is not an HTTP method is left out: the method is an enumeration.
- `RestConstants` and `HttpStatus` are not part of this model. The header values `application/json`, `application/x-pson` and `*/*` and the status codes 200, 400, 405 and 415 are their usual Rest.li and HTTP values.
- The Java assertions that `createContentType` gets non-null arguments are left out: Dafny values are never null.
- `ConcurrentHashMap` thread safety in the registry is left out.
- ContentTypes.Registry.CreateContentType: content types and codecs are values, not objects compared by reference. Registering a (key, codec) pair equal to one already registered leaves the registry as it was in the model. In Java, `getContentType` then returns a new object, and `== ContentType.JSON` no longer holds for it.
- IndividualRequests.TotalRequestCount: does not model Java `int` overflow of the count, because the count is an unbounded integer.
- Strings.ToLower: models `toLowerCase` and `CASE_INSENSITIVE_ORDER` on ASCII letters only, because Unicode case mapping is not modelled.
- Multiplexer.Whitelist: models membership only. A `TreeSet` with `CASE_INSENSITIVE_ORDER` keeps the first-added spelling of each name. The model keeps the lower-cased name.
- Multiplexer.MultiplexedRequestHandler.ExtractIndividualRequests: models the message of an `IllegalArgumentException` as a constructor, not a string, because the catch-all drops it.
