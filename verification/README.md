# Verified models of a distributed notification system

The system sends notifications through five services that share a message broker and Redis:
template-service stores versioned templates, user-service holds accounts and tokens, email-service
and push-service consume queues, render templates and send. This project models the parts of it that
are state machines or text algorithms and proves what holds over every input, every run or every
interleaving.

- **Placeholders.** `Placeholders` says which stretches of text each service recognises; `Extraction`
  is template-service's scan and validation, `PushTemplate` and `EmailTemplate` the two renderers,
  `Substitution` the theorem that replacing key by key in any order is substituting all at once.
  `RenderContract` joins the services: what validation means for rendering, down to a stored row.
- **Push delivery.** `PushDelivery` is one consumer process as a machine: queue, deliveries, the two
  client locks, idempotency keys that expire, failing Redis commands, crashes anywhere. `PushWorker`
  is the code of one delivery; its methods are proved to produce only runs of that machine, and
  `PushInterleaving` that the steps of other handlers in between make no difference.
- **Circuit breakers.** `PushBreaker`, `EmailBreaker` and `TtlBreaker` are three different breakers
  that refine one `Gate`. `PushCircuit` is the Rust code over single Redis commands that may fail,
  `Retry` the backoff loop inside it, `DeadProvider` both together.
- **Templates.** `TemplateKeys` and `TemplateStore` are the append-only table with its write-through
  cache, one request after the other; `TemplateRace` is the same with requests interleaved at every
  `await`; `TemplateSerial` shows that they agree on requests that do not overlap.
- **Tokens, limits, preferences, e-mail queue.** `Auth`, `RateLimiter`, `Preferences`,
  `EmailDelivery`.

Redis is modelled once (`Redis`): keys with an optional expiry, read against a clock in milliseconds
that never goes back. Classes follow the services' own objects; each method is proved equal to a
function of the state before, and the theorems are about runs of those functions. Where a promise
is not kept by the code the model keeps the code.

A template text is written as a sequence of literals and holes (`Segment`). The literals and the values
may hold braces; they are only kept from completing a `{{` of their own (`Safe`).

Properties that turned out false of the code, each with the input that shows it and the exact condition:

- a placeholder with inner blanks passes validation and is filled in by email-service, but push-service
  reports it as missing (`RenderContract.BlanksDivideTheServices`); a validated text is rendered by
  push-service exactly when it has none (`RenderContract.PushRendersExactly`);
- push rendering depends on the hash map's order once a value holds a placeholder
  (`PushTemplate.OrderMattersForNestedValues`); a value comes out as it is exactly when it cannot complete a
  `{{` (`PushTemplate.SafeValuesExactly`); the left-over check can panic (`PushTemplate.PanicIsReached`),
  when `PushTemplate.PanicsExactly` says;
- a dot in a variable name is a wildcard for email-service, and nothing else about a name of word
  characters and dots is (`EmailTemplate.SafeKeysExactly`);
- reading an old version can make it the cached `latest` (`TemplateStore.OldReadGoesStale`); exactly such
  reads do (`TemplateStore.FreshStep`);
- interleaved updates, and interleaved creates, store a version twice (`TemplateRace.InterleavedUpdatesCollide`,
  `TemplateRace.InterleavedCreatesCollide`); exactly inserts on outdated information do
  (`TemplateRace.VersionsAreUniqueExactly`);
- half-open, template-service's breaker takes five failures to reopen, and so does email-service's after
  one success (`TtlBreaker.HalfOpenTakesFiveFailures`, `EmailBreaker.HalfOpenTakesFiveFailures`);
- a lost write of the opening time locks push-service's breaker for ever when it trips from closed; on a
  reopening it lets the next call through at once instead (`PushBreaker.LostOpeningTime`,
  `PushBreaker.StuckExactly`, `PushBreaker.StuckIsReached`); email-service's lets calls through within the
  timeout exactly after an opening lost over an open record (`EmailBreaker.ReadmittedExactly`,
  `EmailBreaker.LostOpeningIsReached`);
- a lost EXPIRE, or a lost reply of the INCR before it, locks a rate-limit counter for ever, and nothing
  else does (`RateLimiter.EndlessExactly`, `RateLimiter.LockedExactly`, `RateLimiter.LockIsReached`);
- a failed e-mail is requeued but not retried, although the handler announces retries up to three
  (`EmailDelivery.FailedIsNeverRetried`), unless its mark is lost (`EmailDelivery.RetriedExactly`);
- a refresh token used to log out is valid again after 15 minutes (`Auth.LoggedOutRefreshTokenReturns`,
  `Auth.LogoutHoldsExactly`).

## Model

| member | source | states |
|---|---|---|
| Placeholders.NamesAreOccurrences | template-service/src/modules/templates/utils/extract-placeholders.util.ts:9-17 | the names of a text are exactly those captured by a match at some position, overlapping or not |
| Placeholders.CapturedName | template-service/src/modules/templates/utils/extract-placeholders.util.ts:9-17 | what a match captures is a nonempty word of word characters and dots |
| Placeholders.MatchesNeverOverlap | template-service/src/modules/templates/utils/extract-placeholders.util.ts:9-17 | two matches of the expression in one text never overlap |
| Placeholders.HoleMatch | template-service/src/modules/templates/utils/extract-placeholders.util.ts:9-17 | a placeholder standing in any text is matched as a whole by exactly the patterns that name it, and never in part |
| Extraction.Scanner.Exec | template-service/src/modules/templates/utils/extract-placeholders.util.ts:15-15 | the stateful search: the next match from `lastIndex`, or none is left and it is reset |
| Extraction.Scanner.SearchText | template-service/src/modules/templates/utils/extract-placeholders.util.ts:13-17 | the left-to-right loop over one string collects every occurrence |
| Extraction.Scanner.SearchContent | template-service/src/modules/templates/utils/extract-placeholders.util.ts:12-23 | the recursion collects the names of every string leaf at any depth |
| Extraction.ExtractPlaceholders | template-service/src/modules/templates/utils/extract-placeholders.util.ts:6-27 | a strictly sorted list of exactly the names in the tree |
| Extraction.SortedListingIsUnique | template-service/src/modules/templates/utils/extract-placeholders.util.ts:26-26 | such a list is unique, so the result is determined |
| Extraction.LeavesAreReached | template-service/src/modules/templates/utils/extract-placeholders.util.ts:12-23 | a text at the end of any way down the tree is one of the searched leaves |
| Extraction.LeafHasPath | template-service/src/modules/templates/utils/extract-placeholders.util.ts:12-23 | every searched leaf is at the end of some way down |
| Extraction.ValidateVariables | template-service/src/modules/templates/utils/extract-placeholders.util.ts:35-62 | valid iff the missing list is empty iff every name found is among the declared ones, unused ones or not; missing, unused and found lists exactly |
| Extraction.MoreVariables | template-service/src/modules/templates/utils/extract-placeholders.util.ts:52-57 | declaring further variables keeps a template accepted |
| Substitution.ReplaceOverTemplate | push-service/src/clients/template.rs:126-137 | one pass replaces exactly the holes of its key and nothing in the literals |
| Substitution.SequentialIsSimultaneous | push-service/src/clients/template.rs:124-138 | passes in any order of the keys amount to the simultaneous substitution |
| Substitution.NamesOverTemplate | template-service/src/modules/templates/utils/extract-placeholders.util.ts:9-17 | a scan of a template finds the names of its holes and no others |
| PushTemplate.ReplaceVariables | push-service/src/clients/template.rs:118-154 | returns what some iteration order of the hash map gives, the left-over check included |
| PushTemplate.RenderTemplate | push-service/src/clients/template.rs:101-116 | the title of the result is a rendering of the title and its body one of the body; an error is one of the title, or of the body after a rendered title |
| PushTemplate.ContentOutcome | push-service/src/clients/template.rs:101-154 | on tame templates Ok iff both have all placeholders bound and all variables are scalar, each field then the simultaneous substitution of its own template |
| PushTemplate.LoneVariable | push-service/src/clients/template.rs:127-135 | what a placeholder becomes for each kind of JSON value |
| PushTemplate.FinishTemplate | push-service/src/clients/template.rs:140-151 | the check passes iff no hole is left and otherwise names the leftmost one |
| PushTemplate.PanicsExactly | push-service/src/clients/template.rs:140-142 | on any text: the `unwrap` fails iff both brace pairs occur and every closing pair precedes every opening one |
| PushTemplate.RenderIsSubstitution | push-service/src/clients/template.rs:118-154 | in every order the simultaneous substitution, or the leftmost unbound placeholder is reported |
| PushTemplate.RenderUnsupported | push-service/src/clients/template.rs:132-134 | an array or object among the variables fails every order, naming such a key |
| PushTemplate.RenderOutcome | push-service/src/clients/template.rs:118-154 | Ok iff all placeholders are bound and all variables scalar; never the panic |
| PushTemplate.SafeValuesExactly | push-service/src/clients/template.rs:124-151 | for every key: a value comes out as it is with every template, other safe values and order iff it cannot complete an opening pair of braces |
| PushTemplate.PanicIsReached | push-service/src/clients/template.rs:140-142 | a four-character text panics |
| EmailTemplate.RenderTemplate | email-service/src/modules/email/templates/template.service.ts:44-54 | one regular expression per key, in the order of the keys |
| EmailTemplate.LoneVariable | email-service/src/modules/email/templates/template.service.ts:47-51 | a placeholder becomes the text of its variable, nothing for null and undefined |
| EmailTemplate.RenderOutcome | email-service/src/modules/email/templates/template.service.ts:44-54 | in every order the simultaneous substitution, leaving exactly the placeholders without a variable |
| EmailTemplate.SafeKeysExactly | email-service/src/modules/email/templates/template.service.ts:47-47 | a key renders as a substitution with every template iff it has no dot, which the expression reads as a wildcard |
| EmailTemplate.NothingBoundIsLeft | email-service/src/modules/email/templates/template.service.ts:44-54 | with dotted keys too, whatever they capture, only placeholders of the template without a variable are left |
| RenderContract.EmailLeavesNoPlaceholder | template-service/src/modules/templates/utils/extract-placeholders.util.ts:35-62 | a validated text with all declared variables supplied, dotted names included, is rendered by email-service without any placeholder left |
| RenderContract.PushRendersPlain | template-service/src/modules/templates/utils/extract-placeholders.util.ts:35-62 | a validated text without blanks in its placeholders is rendered by push-service in every order, other variables supplied too or not |
| RenderContract.ServedTemplatesMail | template-service/src/modules/templates/templates.service.ts:137-178 | whatever row is stored or cached after any interleaving renders without a placeholder left |
| RenderContract.PushRendersExactly | push-service/src/clients/template.rs:118-154 | given just the declared variables, a validated text is rendered by push-service iff all of its placeholders are free of inner blanks |
| Gate.AdmittedExactly | push-service/src/clients/circuit_breaker.rs:29-52 | a gate that remembers its last trip admits exactly when every earlier trip is a timeout old |
| PushCircuit.CircuitBreaker.GetState | push-service/src/clients/circuit_breaker.rs:126-133 | the stored state, closed when absent or unknown |
| PushCircuit.CircuitBreaker.SetState | push-service/src/clients/circuit_breaker.rs:135-141 | only the state key changes |
| PushCircuit.CircuitBreaker.IncrementFailureCount | push-service/src/clients/circuit_breaker.rs:143-150 | one more failure, its key living another timeout |
| PushCircuit.CircuitBreaker.ResetFailureCount | push-service/src/clients/circuit_breaker.rs:152-156 | the failure key is gone |
| PushCircuit.CircuitBreaker.IncrementSuccessCount | push-service/src/clients/circuit_breaker.rs:158-162 | one more success |
| PushCircuit.CircuitBreaker.ResetCounters | push-service/src/clients/circuit_breaker.rs:164-174 | the three counters are gone, the state stays |
| PushCircuit.CircuitBreaker.SetOpenedAt | push-service/src/clients/circuit_breaker.rs:176-184 | the opening time is the current second |
| PushCircuit.CircuitBreaker.ShouldAttemptReset | push-service/src/clients/circuit_breaker.rs:186-200 | true iff there is an opening time and it is a timeout old |
| PushCircuit.CircuitBreaker.RecordSuccess | push-service/src/clients/circuit_breaker.rs:71-93 | without a Redis fault the success step of the breaker; with one, one of the named partial results |
| PushCircuit.CircuitBreaker.RecordFailure | push-service/src/clients/circuit_breaker.rs:95-124 | without a Redis fault the failure step of the breaker; with one, one of the named partial results, the lost opening time among them |
| PushCircuit.CircuitBreaker.TryOperation | push-service/src/clients/circuit_breaker.rs:54-69 | at most one success; after a success it fails only by a Redis fault |
| PushCircuit.CircuitBreaker.Call | push-service/src/clients/circuit_breaker.rs:29-52 | without faults exactly one step of the breaker, no request while rejecting; with faults success is reported only after a success |
| PushBreaker.RunIsGate | push-service/src/clients/circuit_breaker.rs:29-52 | every serial run refines the abstract gate |
| PushBreaker.AdmissionLaw | push-service/src/clients/circuit_breaker.rs:186-200 | in every serial run a call is admitted iff no trip happened within the last timeout |
| PushBreaker.CountersAreHistory | push-service/src/clients/circuit_breaker.rs:71-124 | failures are the current streak below the threshold; half-open successes add up to the closes and the stored count, across reopenings |
| PushBreaker.ProbesAreSpaced | push-service/src/clients/circuit_breaker.rs:29-52 | a backend that stays down gets its k-th further call no earlier than k timeouts after the trip |
| PushBreaker.RecoveryIsExact | push-service/src/clients/circuit_breaker.rs:71-103 | it closes after exactly the threshold minus the stored successes, and stays closed |
| PushBreaker.StuckExactly | push-service/src/clients/circuit_breaker.rs:186-200 | no later call is ever let through iff the breaker is open without an opening time |
| PushBreaker.LostOpeningTime | push-service/src/clients/circuit_breaker.rs:98-121 | after any fault-free run, a trip that loses the opening time sticks iff the breaker was closed; a reopening keeps the old, due time and lets the next call through |
| PushBreaker.StuckIsReached | push-service/src/clients/circuit_breaker.rs:105-121 | the stuck breaker is reached from a fresh one under every configuration that can trip |
| PushCircuit.LostWriteIsReal | push-service/src/clients/circuit_breaker.rs:95-124 | the lost write is what the commands of the code leave when only the last is not carried out |
| Retry.RetryWithBackoff | push-service/src/utils.rs:218-268 | attempts, sleeps and success of one retried operation |
| Retry.DelayClosedForm | push-service/src/utils.rs:264-264 | the k-th delay is the exponential one cut off at the maximum |
| Retry.NoOverflow | push-service/src/utils.rs:264-264 | no 64-bit overflow when the greater configured delay times the multiplier fits |
| Retry.JitterBounds | push-service/src/utils.rs:258-260 | a jittered delay is at most eleven tenths of the delay and, but for the rounding, at least nine |
| Retry.TotalSleep | push-service/src/utils.rs:258-262 | all sleeps together are at most eleven tenths of the delays and, but for the rounding, at least nine |
| DeadProvider.UntilOpen | push-service/src/clients/fcm.rs:76-90 | from any closed state the breaker opens exactly when the failures make up the threshold |
| DeadProvider.DeadProviderRequests | push-service/src/clients/fcm.rs:58-90 | a dead provider gets exactly threshold times attempts requests, none while calls are rejected |
| PushDelivery.OneAtATime | push-service/src/main.rs:110-111 | in every run at most one delivery is inside `process_message` |
| PushDelivery.InvariantRun | push-service/src/utils.rs:20-205 | lock discipline, send budget, conservation and settlement hold after every event of every run, panics and crashes included |
| PushDelivery.SendBudget | push-service/src/utils.rs:38-61 | sends of a key are at most 1 + failed reads + failed success recordings + expiries, through faults and crashes |
| PushDelivery.BudgetIsTight | push-service/src/utils.rs:38-61 | for all numbers of failed reads, failed recordings and expiries a run with just these reaches the bound |
| PushDelivery.SentOnceWithinTtl | push-service/src/clients/redis.rs:70-116 | within one TTL and without those faults a key is sent at most once |
| PushDelivery.QueueConservation | push-service/src/main.rs:81-168 | published = ready + unacked + acked + dropped, as multisets, in every run |
| PushDelivery.Settlement | push-service/src/main.rs:122-160 | each delivery is in flight or settled, once and for good; acked only if sent now or its key read sent or processing |
| PushWorker.Worker.CheckIdempotency | push-service/src/clients/redis.rs:38-68 | the status under the key; unknown texts count as not found |
| PushWorker.Worker.Mark | push-service/src/clients/redis.rs:70-81 | SETEX of the key; a failed command may have been carried out |
| PushWorker.Worker.MarkAsSent | push-service/src/clients/redis.rs:83-103 | the retried command is a run of the machine ending acked or dropped |
| PushWorker.Worker.FetchTemplate | push-service/src/clients/template.rs:40-67 | every request asks for the code in English; without Redis faults Ok iff one succeeded |
| PushWorker.Worker.PrepareMessage | push-service/src/utils.rs:63-148 | Ok only with a valid token and a fetched template, and then a rendering of it; without Redis faults Ok whenever token, fetch and rendering are; a panic is told apart; no idempotency key changes |
| PushWorker.Worker.SendNotification | push-service/src/clients/fcm.rs:36-74 | every request carries the token, title and body; without Redis faults one is made iff the breaker admits, and Ok iff it was delivered |
| PushWorker.Worker.GiveUp | push-service/src/utils.rs:70-88 | an error either way, ending in a drop; without Redis faults the key reads failed |
| PushWorker.Worker.SendAndMark | push-service/src/utils.rs:150-204 | at most one send, of the given content; without Redis faults Ok iff delivered and the key then reads sent, else failed; a run of the machine |
| PushWorker.Worker.PrepareAndSend | push-service/src/utils.rs:63-204 | nothing is sent without a valid token, a fetched template and its rendering, which is what is sent; without Redis faults all that and an admitting breaker do send, Ok iff delivered, and the key tells the outcome; a run of the machine |
| PushWorker.Worker.Attempt | push-service/src/utils.rs:59-204 | the same from the first mark on |
| PushWorker.Worker.ProcessMessage | push-service/src/utils.rs:20-205 | every execution, panics included, is a run of the machine; only what was prepared is sent, and without Redis faults what can be sent is; settled keys and unparsed payloads change and send nothing; the key tells the outcome |
| PushWorker.Worker.HandleDelivery | push-service/src/main.rs:91-162 | the same for a whole delivery: connection, locks, processing and settlement, or unwinding, as one run of the machine with the locks given back; without Redis faults what can be sent is acked iff delivered |
| PushInterleaving.ProcessAmongOthers | push-service/src/main.rs:91-162 | with any steps of other handlers between its own, the same execution is a run of the machine with the same keys, sends and end |
| TemplateKeys.CacheKeyInjective | template-service/src/modules/templates/templates.service.ts:217-223 | a cache key determines code, language and version part |
| TemplateKeys.PrefixMatches | template-service/src/modules/templates/templates.service.ts:247-263 | the keys with the prefix of a template are its own |
| TemplateKeys.Latest | template-service/src/modules/templates/templates.repository.ts:18-35 | the row of the greatest version, or there is none |
| TemplateStore.TemplatesService.CacheTemplate | template-service/src/modules/templates/templates.service.ts:225-245 | the row under its two keys |
| TemplateStore.TemplatesService.Keys | template-service/src/modules/templates/templates.service.ts:247-263 | some stored keys; for names without pattern characters exactly those with the prefix of the template |
| TemplateStore.TemplatesService.InvalidateCache | template-service/src/modules/templates/templates.service.ts:247-263 | exactly the keys answered are deleted |
| TemplateKeys.FindRow | template-service/src/modules/templates/templates.repository.ts:18-35 | the row of the version asked for, of the greatest without one or with 0, or there is none |
| TemplateStore.TemplatesService.CreateTemplate | template-service/src/modules/templates/templates.service.ts:37-79 | Ok iff all names are declared and there is no row yet; the answer holds what was supplied, as version 1, is appended and readable under both keys; an error changes nothing |
| TemplateStore.TemplatesService.UpdateTemplate | template-service/src/modules/templates/templates.service.ts:81-135 | Ok iff there is a latest row and all names of the content it leads to are declared; the answer holds what was supplied and the rest of that row, one version on, is appended and readable under both keys; the flushed keys are gone; an error changes nothing |
| TemplateStore.TemplatesService.Find | template-service/src/modules/templates/templates.service.ts:137-178 | the cached row, or the row of the table, which is then cached under both keys |
| TemplateStore.TemplatesService.Remove | template-service/src/modules/templates/templates.service.ts:198-215 | Ok iff there is a row; flushes the keys answered and keeps the rows |
| TemplateStore.GoodRun | template-service/src/modules/templates/templates.service.ts:37-215 | in every serial run versions are places in creation order and cache entries are stored rows under their own keys |
| TemplateStore.VersionsAreSerial | template-service/src/modules/templates/templates.service.ts:81-135 | versions are 1, 2, ... without gap, each once, in order of creation, all validated |
| TemplateStore.VersionReadIsDirect | template-service/src/modules/templates/templates.service.ts:137-178 | reading a version always equals the direct read |
| TemplateStore.WritesRefresh | template-service/src/modules/templates/templates.service.ts:37-135 | right after a create or update the latest read is direct, whatever came before |
| TemplateStore.WritesAreRead | template-service/src/modules/templates/templates.service.ts:37-178 | the row a create or update answers with is what the next read without a version gives |
| TemplateStore.FreshStep | template-service/src/modules/templates/templates.service.ts:137-178 | a request keeps the entry fresh iff it is not a read of an old version that misses the cache |
| TemplateStore.ReadsAreDirect | template-service/src/modules/templates/templates.service.ts:37-215 | in every serial run without such a read the latest read is direct, through expiry and delete |
| TemplateStore.OldReadGoesStale | template-service/src/modules/templates/templates.service.ts:175-175 | after a flush, reading version 1 makes `latest` version 1 |
| TemplateRace.InvariantRun | template-service/src/modules/templates/templates.service.ts:37-263 | what holds of table, cache and requests under way after every interleaving |
| TemplateRace.VersionsHaveNoGap | template-service/src/modules/templates/templates.service.ts:81-135 | under every interleaving the versions are exactly 1 to the greatest |
| TemplateRace.CacheHoldsStoredRows | template-service/src/modules/templates/templates.service.ts:217-263 | under every interleaving a cache entry is a stored row matching its key |
| TemplateRace.StoredRowsAreDeclared | template-service/src/modules/templates/templates.service.ts:37-135 | under every interleaving each stored template passed validation |
| TemplateRace.RowsAreAsAsked | template-service/src/modules/templates/templates.service.ts:37-135 | under every interleaving each stored row holds what a create asked for, or what an update supplied and the rest of a stored row before it |
| TemplateRace.UpdateReadsLatest | template-service/src/modules/templates/templates.service.ts:81-113 | an update supersedes a row that had the greatest version when read, if all names it leads to are declared |
| TemplateSerial.ServedAlone | template-service/src/modules/templates/templates.service.ts:37-263 | a request whose steps no other interrupts does to rows and live cache entries what the serial service does |
| TemplateRace.UniqueStep | template-service/src/modules/templates/templates.service.ts:37-135 | a step keeps versions unique iff it inserts, if it inserts, while no row exists for a create or the row read is still the latest for an update |
| TemplateRace.VersionsAreUniqueExactly | template-service/src/modules/templates/templates.service.ts:37-135 | under every interleaving versions are unique iff every insert of the run was up to date |
| TemplateRace.InterleavedUpdatesCollide | template-service/src/modules/templates/templates.service.ts:81-135 | from every state, two updates that read the same latest row store its successor twice |
| TemplateRace.InterleavedCreatesCollide | template-service/src/modules/templates/templates.service.ts:37-79 | from every state, two creates that found no row store version 1 twice |
| EmailBreaker.CircuitBreakerService.Execute | email-service/src/modules/email/circuit-breaker/circuit-breaker.service.ts:43-73 | one step of the breaker; rejected iff open and not a timeout old |
| EmailBreaker.CircuitBreakerService.HandleSuccess | email-service/src/modules/email/circuit-breaker/circuit-breaker.service.ts:75-87 | failures are forgotten; half-open, the second success closes the breaker and publishes that |
| EmailBreaker.CircuitBreakerService.HandleFailure | email-service/src/modules/email/circuit-breaker/circuit-breaker.service.ts:89-99 | one more failure with its time, successes forgotten; from five on it opens and publishes that |
| EmailBreaker.CircuitBreakerService.UpdateRedisState | email-service/src/modules/email/circuit-breaker/circuit-breaker.service.ts:101-116 | the copy in Redis is the current state with its TTL, or stays as it was when the write fails |
| EmailBreaker.RunIsGate | email-service/src/modules/email/circuit-breaker/circuit-breaker.service.ts:43-116 | every serial run refines the abstract gate, with reads and writes of the record failing, unless an opening is lost over an open record |
| EmailBreaker.AdmissionLaw | email-service/src/modules/email/circuit-breaker/circuit-breaker.service.ts:43-116 | in those runs a callback is let through iff no opening happened in the last 60 seconds |
| EmailBreaker.ReadmittedExactly | email-service/src/modules/email/circuit-breaker/circuit-breaker.service.ts:44-63 | within 60 seconds of an opening a call is let through iff the opening was lost and the old record is read alive |
| EmailBreaker.LostOpeningIsReached | email-service/src/modules/email/circuit-breaker/circuit-breaker.service.ts:101-116 | a run from the start that loses an opening and lets the next call through in the same millisecond |
| EmailBreaker.CountersAreHistory | email-service/src/modules/email/circuit-breaker/circuit-breaker.service.ts:43-99 | in every run, record faults included, failures are those since the last success and half-open successes those since the last failure or half-opening |
| EmailBreaker.CallsByHistory | email-service/src/modules/email/circuit-breaker/circuit-breaker.service.ts:75-99 | a call opens the breaker iff it completes five failures in a row, and closes a half-open one iff it is the second success |
| EmailBreaker.OpensAfter | email-service/src/modules/email/circuit-breaker/circuit-breaker.service.ts:89-99 | closed or half-open alike, failures in a row open it exactly when they make up five |
| EmailBreaker.HalfOpenTakesFiveFailures | email-service/src/modules/email/circuit-breaker/circuit-breaker.service.ts:75-99 | after one half-open success it takes five failures in a row to reopen |
| TtlBreaker.CircuitBreakerService.GetStatus | template-service/src/common/circuit-breaker/circuit-breaker.service.ts:50-74 | the status as the live keys give it |
| TtlBreaker.CircuitBreakerService.RecordSuccess | template-service/src/common/circuit-breaker/circuit-breaker.service.ts:76-96 | half-open, the second success closes; closed, failures are forgotten; open, nothing changes |
| TtlBreaker.CircuitBreakerService.RecordFailure | template-service/src/common/circuit-breaker/circuit-breaker.service.ts:98-126 | one more failure, opening at five; open, only a due timeout half-opens |
| TtlBreaker.CircuitBreakerService.IsOpen | template-service/src/common/circuit-breaker/circuit-breaker.service.ts:128-140 | whether it is open and not due, and the half-opening when due |
| TtlBreaker.CircuitBreakerService.OpenCircuit | template-service/src/common/circuit-breaker/circuit-breaker.service.ts:142-157 | OPEN and its time for 90 s, successes gone, failures kept |
| TtlBreaker.CircuitBreakerService.HalfOpenCircuit | template-service/src/common/circuit-breaker/circuit-breaker.service.ts:159-169 | HALF_OPEN for 60 s, both counters gone, the opening time kept |
| TtlBreaker.CircuitBreakerService.CloseCircuit | template-service/src/common/circuit-breaker/circuit-breaker.service.ts:171-182 | CLOSED for 60 s, counters and opening time gone |
| TtlBreaker.RunIsGate | template-service/src/common/circuit-breaker/circuit-breaker.service.ts:76-182 | every serial run refines the abstract gate |
| TtlBreaker.ReportsOpenExactly | template-service/src/common/circuit-breaker/circuit-breaker.service.ts:128-157 | open is reported at t iff an opening happened less than 30 s before, although the keys live 60 and 90 s |
| TtlBreaker.CountersAreHistory | template-service/src/common/circuit-breaker/circuit-breaker.service.ts:50-126 | in every ordered run the failures read are those since the last success while closed, the last half-opening or close, or a gap of 60 s; half-open successes are those since the half-opening |
| TtlBreaker.OperationsByHistory | template-service/src/common/circuit-breaker/circuit-breaker.service.ts:76-126 | a failure opens the circuit iff it completes five; a success while closed leaves none; half-open, a success closes it iff it is the second |
| TtlBreaker.OpensAfter | template-service/src/common/circuit-breaker/circuit-breaker.service.ts:98-126 | closed or half-open alike, a dense row of failures opens it exactly when it makes up five |
| TtlBreaker.HalfOpenTakesFiveFailures | template-service/src/common/circuit-breaker/circuit-breaker.service.ts:98-126 | half-open, it takes five failures to reopen |
| Auth.AuthService.GenerateTokens | user-service/src/modules/auth/auth.service.ts:216-251 | two fresh tokens, the refresh token stored for seven days |
| Auth.AuthService.RevokeRefreshToken | user-service/src/modules/auth/auth.service.ts:253-267 | out of the store, on the blacklist for seven days |
| Auth.AuthService.RevokeAllUserRefreshTokens | user-service/src/modules/auth/auth.service.ts:269-278 | all of one user's refresh tokens are gone, no one else's |
| Auth.AuthService.LoginUser | user-service/src/modules/auth/auth.service.ts:35-63 | Ok iff user and password are right, with two signed tokens of the user; an error changes nothing |
| Auth.AuthService.RefreshTokens | user-service/src/modules/auth/auth.service.ts:65-143 | tokens iff verified, stored, not blacklisted and of a user; the old one is revoked |
| Auth.AuthService.LogoutUser | user-service/src/modules/auth/auth.service.ts:145-171 | the presented token is blacklisted for 15 minutes and the user's refresh tokens revoked |
| Auth.AuthService.ValidateToken | user-service/src/modules/auth/auth.service.ts:173-214 | valid iff verified, not blacklisted and of a user |
| Auth.RedeemedOnce | user-service/src/modules/auth/auth.service.ts:65-143 | a redeemed refresh token is rejected by refresh and validation at every later time of every run |
| Auth.LoggedOutStaysOut | user-service/src/modules/auth/auth.service.ts:145-155 | a token logged out with at most 15 minutes to live is rejected at every later time |
| Auth.AccessTokensAreShort | user-service/src/modules/auth/auth.service.ts:216-251 | an access token always has at most 15 minutes to live |
| Auth.LoggedOutRefreshTokenReturns | user-service/src/modules/auth/auth.service.ts:145-155 | log in, log out with the refresh token, wait 15 minutes: it is valid |
| Auth.LogoutHoldsExactly | user-service/src/modules/auth/strategies/jwt.strategy.ts:35-60 | logging a token out rejects it for good iff it has at most 15 minutes to live |
| Auth.RefreshKeepsCount | user-service/src/modules/auth/auth.service.ts:65-143 | rotation replaces one stored token by one, leaving the number and other users unchanged |
| Auth.RefreshTokenLasts | user-service/src/modules/auth/auth.service.ts:65-143 | in every run the refresh token of a login is redeemable for exactly seven days unless redeemed, its user logged out or dropped |
| Auth.AccessTokenLasts | user-service/src/modules/auth/auth.service.ts:173-214 | in every run the access token of a login is valid for exactly 15 minutes unless used to log out or its user dropped |
| Auth.NoMoreThanLogins | user-service/src/modules/auth/auth.service.ts:35-171 | stored tokens of a user are at most the logins since the last logout |
| Auth.LogoutEndsSessions | user-service/src/modules/auth/auth.service.ts:145-171 | after a logout no earlier refresh token of the user is redeemed |
| RateLimiter.RateLimiterService.IncrementRateLimit | email-service/src/modules/redis/redis.service.ts:220-243 | the counter after INCR and EXPIRE, each of which may fail, carried out or not; other counters unchanged |
| RateLimiter.RateLimiterService.IsRateLimitExceeded | email-service/src/modules/redis/redis.service.ts:245-252 | whether the count passed the limit |
| RateLimiter.RateLimiterService.GetRateLimitRemaining | email-service/src/modules/redis/redis.service.ts:254-273 | what is left of the limit, never negative; the whole limit when the read fails |
| RateLimiter.TwiceTheLimit | email-service/src/modules/redis/redis.service.ts:220-252 | in every interval of the length of the window at most twice the limit is admitted |
| RateLimiter.TwiceLessOne | email-service/src/modules/redis/redis.service.ts:220-252 | in every shorter interval at most one less |
| RateLimiter.BoundsAreReached | email-service/src/modules/redis/redis.service.ts:220-252 | both bounds are reached for every limit and window |
| RateLimiter.OncePerWindow | email-service/src/modules/redis/redis.service.ts:220-252 | one window admits at most the limit |
| RateLimiter.RemainingIsAdmitted | email-service/src/modules/redis/redis.service.ts:254-273 | of any number of further calls at a time exactly the remaining ones are admitted |
| RateLimiter.FaultsLetThrough | email-service/src/modules/redis/redis.service.ts:220-252 | a call that could not be counted is let through |
| RateLimiter.EndlessExactly | email-service/src/modules/redis/redis.service.ts:226-241 | in every run with faults a counter has no end iff one was made whose EXPIRE was lost or, for a lost reply of INCR, not sent |
| RateLimiter.LockedExactly | email-service/src/modules/redis/redis.service.ts:220-252 | an exhausted counter admits nothing at any later time iff it has no end |
| RateLimiter.LockIsReached | email-service/src/modules/redis/redis.service.ts:226-241 | by either loss, for every limit and window, the calls of one limit lock the counter |
| RateLimiter.LostExpiryIsForever | email-service/src/modules/redis/redis.service.ts:220-252 | a counter without end admits what is left of its limit and then nothing |
| Preferences.UsersService.CreateUser | user-service/src/modules/users/users.service.ts:32-75 | a conflict or a failed save changes nothing; otherwise the user has the supplied preferences and, if the write works, so has the entry |
| Preferences.UsersService.UpdateUser | user-service/src/modules/users/users.service.ts:116-161 | Ok iff there is the user and the save works; the user then has the supplied preferences, or as before, and no other user changes; delete, save and write of the entry in order |
| Preferences.UsersService.GetPreferences | user-service/src/modules/users/users.service.ts:163-188 | the live entry, or the database, which is then readable as the entry |
| Preferences.UsersService.RemoveUser | user-service/src/modules/users/users.service.ts:190-204 | the user is gone, and the entry if the delete works |
| Preferences.UsersService.CacheUserPreferences | user-service/src/modules/users/users.service.ts:229-250 | the entry, or nothing when the write fails |
| Preferences.UsersService.InvalidatePreferencesCache | user-service/src/modules/users/users.service.ts:274-288 | the entry is gone, unless the delete fails |
| Preferences.CoherentStep | user-service/src/modules/users/users.service.ts:116-204 | a request keeps an agreeing entry agreeing iff it is not one of the named losses |
| Preferences.PreferencesAreDirect | user-service/src/modules/users/users.service.ts:116-204 | in every run with so few losses, failed saves included, the answer is the direct read |
| EmailDelivery.EmailProcessor.CheckAndMarkProcessed | email-service/src/modules/redis/redis.service.ts:187-213 | duplicate iff the mark is read; otherwise marked unless the write is lost, a failing one carried out or not |
| EmailDelivery.EmailProcessor.HandleEmailMessage | email-service/src/modules/email/processor/email.processor.ts:24-166 | one delivery up to its settlement, requeue or the end of the process |
| EmailDelivery.SendBudget | email-service/src/modules/email/processor/email.processor.ts:35-122 | in every run a request is sent at most 1 + faults of its check + expiries of its mark |
| EmailDelivery.DeliveredAtMostTwice | email-service/src/modules/email/processor/email.processor.ts:150-164 | without faults, expiries and crashes each message is delivered at most twice, so the requeue loop ends |
| EmailDelivery.SentAtMostOnce | email-service/src/modules/email/processor/email.processor.ts:35-122 | in those runs a request is sent at most once |
| EmailDelivery.FailedIsNeverRetried | email-service/src/modules/email/processor/email.processor.ts:150-164 | in fault-free runs a failed message is requeued, but no redelivery of it is ever sent |
| EmailDelivery.SettledExactly | email-service/src/modules/email/processor/email.processor.ts:24-166 | a delivered message stays queued iff it got past its check and the process died or, before the third retry, rendering or sending failed; a send that works settles it |
| EmailDelivery.RedeliveryIsSentExactly | email-service/src/modules/email/processor/email.processor.ts:35-48 | in any state a redelivery that gets to the send is sent iff its check fails or the mark is gone |
| EmailDelivery.RetriedOnlyAfterALoss | email-service/src/modules/email/processor/email.processor.ts:35-48 | through every run with any faults a failed message is sent again only if its mark was not written, expired since, or is not read |
| EmailDelivery.RetriedExactly | email-service/src/modules/email/processor/email.processor.ts:35-48 | with no other delivery of the request in between, iff its mark was not written, a day has passed, or its read fails |

## Left out

- HTTP, AMQP, SMTP, FCM and Postgres clients: each external call is a step with either outcome.
- Logging, audit log, counters, status updates and health aggregation: none of them feeds back into the modelled state, except that an audit-log metadata conversion error in push-service is not modelled.
- EmailTemplate.RenderTemplate: keys are of word characters and dots and values hold no `$`, because other regular-expression operators in a key and `$` patterns in a value belong to the regular-expression engine.
- Substitution.SequentialIsSimultaneous: keys and values must not disturb the braces; `PushTemplate.SafeValuesExactly` and `EmailTemplate.SafeKeysExactly` give the exact conditions on values and on names. A push-service key that itself holds braces is left out.
- Retry.RetryWithBackoff: the 64-bit floating-point product of the jitter is a real number rounded down; the delay product wraps as in a release build.
- Extraction.Scanner.Exec: characters are code points, not UTF-16 code units.
- PushWorker.Worker.PrepareMessage: whether a device token is valid is an input; the rules of `validate_fcm_token` are not part of this model.
- PushWorker.Worker.HandleDelivery: the dead-letter publication is left out; it parses a bare message where the payload is an envelope, so it does not publish what `process_message` could parse.
- PushDelivery.SendBudget: one process; several push processes can both read an absent key before either marks it. A send counts when the provider reports success.
- The consumer's semaphore and prefetch only reduce the interleavings that `PushDelivery` already allows.
- PushBreaker.AdmissionLaw: serial calls without Redis faults and one process writing the keys; `PushCircuit` keeps the faults for single calls and `PushBreaker.LostOpeningTime` says what a lost opening time does to later ones.
- EmailBreaker.AdmissionLaw: callbacks do not overlap and this process alone writes the record in Redis; the state read at start-up is left out.
- TtlBreaker.ReportsOpenExactly: without Redis faults; `reset` and `getAllStatuses` are left out.
- TemplateStore.ReadsAreDirect: without Redis or database faults (a rejected `await` is part of `TemplateRace`); the update announcement and pagination are left out.
- EmailBreaker.CircuitBreakerService.Execute: the callback may throw; the deployed `sendEmail` catches inside its callback, so in that wiring failures never reach the failure step.
- TemplateKeys.CacheKeyInjective: codes and languages are free of colons; with one, two templates share a key (`TemplateKeys.ColonsCollide`).
- TemplateStore.TemplatesService.Keys: which keys a pattern with special characters in the names selects is left open; no result but `TemplateStore.OldReadGoesStale` depends on it.
- RenderContract.ServedTemplatesMail: template-service answers with a tree of texts where email-service expects one text; the theorem is about each text of the tree.
- Tokens: signatures and password hashes are a verified token and a yes or no; requests are serial and Redis does not fail; a user is identified by subject, not by e-mail address.
- RateLimiter.TwiceTheLimit: without Redis faults; with them the service admits calls that it could not count.
- Preferences.PreferencesAreDirect: identifiers are never reused; the other fields of a user are left out.
- EmailDelivery.SendBudget: one message at a time; overlapping handlers of the same request could both read the mark as absent.
- The API gateway, service registry, templates' list endpoints and DTO validation would only add one-branch facts.
