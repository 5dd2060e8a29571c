# Document extractor: model and proofs

The service receives a document upload, asks a language model to turn it into structured data, and keeps
the answer in a Redis cache and a soft-delete Postgres table, under a consent log and a per-user quota.
This project models its three hard parts and proves what they promise.

1. **The extract protocol** (`Protocol.dfy` and the files built on it). The endpoint is a step machine over
   one shared world: a Redis keyspace with expiry, the extractions table, a log of consents, counts,
   extractor calls, transactions, answers and refusals, and any number of requests in flight. Every
   Redis command, every transaction and every extraction is one atomic step that may fail on its own, or take
   effect although the service sees an error; time passes, keys expire, are evicted or are spoilt between any two
   steps. `Provenance`, `Consent`, `Quota`, `Freshness`, `Refresh`, `Ledger` and `Outcomes` prove theorems about
   every run. `Handler` is the handler in its imperative form, a class whose methods change the cache, the table,
   the log and the counters; each call of it is proved to be one run of one request of the step machine, and
   `Sequence` applies the theorems about runs to the answers of any sequence of calls. `Stale` proves that the
   condition of the freshness theorem is exact, and `StaleRun` writes out a run that answers stale. `Store`,
   `RateLimit` and `Upstream` hold the table, the limiter and the provider client with their loops and in-place
   updates.
2. **Identifiers and dates** (`Checksum.dfy`, `Dates.dfy`, `CvDates.dfy`): the two modulus-11 checksums with the
   exact set of errors they miss, and the date normalisers with `time.Parse` written out for their layouts.
3. **Reply unwrapping and skill clean-up** (`Unwrap.dfy`, `Replies.dfy`, `Skills.dfy`): the `<think>` and fence stripping loop,
   and case-insensitive merging through mutable maps, each proved against a simple functional description.

`Text.dfy`, `Keys.dfy`, `Domain.dfy` and `Redis.dfy` hold what these share. `dafny verify dfyconfig.toml` checks
everything.

Modelling decisions:

- Where the code and README.md of the service disagree, the code is followed. README.md:218-219 says that a hit
  writes no row and that Redis is written before Postgres; the code inserts a row on a hit
  (internal/httpapi/server.go:203-219) and writes the cache only after the commit
  (internal/httpapi/server.go:331-348). README.md:216 says that uploads are prepared before the cache lookup; the code only validates
  them there.
- The digest function is a parameter. No function from all contents to 64 hex digits is injective, so theorems
  that need it say that no answered upload of the run shares its digest with a different extracted one.
- A command can work, fail without effect, or take effect although the service sees an error, as after a timeout. For an
  INCR the third outcome costs a quota unit and refuses the request; for a transaction it stores the row and skips
  the cache write; for the other commands the service does not look at the outcome, or a read without an answer is a miss.
- The quota theorems name what the code relies on and cannot enforce, for the bucket they speak of: an INCR for it goes
  out less than a minute after the clock was read, and nobody else removes or overwrites its key. The freshness
  theorem is about the document type and digest it speaks of: requests for it come one at a time, and none of them
  loses its cache write while another response is served. What other buckets and other documents do does not matter.
- Runs start with an empty Redis and empty tables. Requests are numbered in the order of their arrival.
- `unicode.ToLower` and the representative of `strings.EqualFold` are parameters; where it matters they act on ASCII as Go's do.
- Strings are sequences of characters, so "at least 15 bytes" is at least 15 characters here.

## Model

| member | source | states |
|---|---|---|
| `Protocol.AdvanceMoves` | internal/httpapi/server.go:146-275 | every step of a request, whatever fails, adds only facts of that request told from its own session, touches at most its own key and session, goes only where the handler goes next, and changes the table exactly by the transaction it records |
| `Provenance.StepGrows` | internal/store/extractions.go:60-118 | no step of any kind forgets a logged fact, removes a row, clears a deleted flag or turns the clock back |
| `Provenance.CacheChange` | internal/cache/redis.go:83-95 | a step puts a result under a cache key only as the cache write of a request for that type and digest, and then exactly that request's result with `Meta.Cache` cleared; limiter steps, lookups and deletes add none |
| `Provenance.InvHolds` | internal/httpapi/server.go:199-274 | invariant of every run: each held or cached result stems from a successful extractor call for its type and digest, has a committed row if a store is configured and it is about to be or is cached, and so does every answer |
| `Provenance.CacheCoherent` | internal/httpapi/server.go:308-349 | in every interleaved run with a store, under any failures and expiry, each cache entry for (type, digest) is, up to `Meta.Cache`, the result of a committed row with that type and digest |
| `Provenance.AnswersWereExtracted` | internal/httpapi/server.go:199-274 | in every interleaved run each 200 answer was produced by an earlier successful extractor call for the same type and content |
| `Provenance.CacheIsTransparent` | internal/httpapi/server.go:199-274 | if the extractor is a function of type and content, every 200 answer, hit or miss, is the answer of that function |
| `Provenance.CallTyped` | internal/extract/service.go:130-140 | in every run a successful extractor call returns the document type it was asked for |
| `Provenance.CachedIsStamped` | internal/httpapi/server.go:345-348 | in every run a cached result carries the digest it is cached under and no cache tag, and otherwise, data, file name and all, what an extractor call for that type and digest gave |
| `Provenance.AnswersAreStamped` | internal/httpapi/server.go:199-256 | in every run each answer carries the digest of its own upload, and otherwise what an earlier extractor call for its type and digest gave |
| `Provenance.CacheExpires` | internal/cache/redis.go:83-95 | in every run, once the TTL has passed without a cache write, no GET returns a result any more |
| `Provenance.WrittenIsServed` | internal/cache/redis.go:60-95 | a result just written is what a GET returns until the TTL is over |
| `Provenance.CounterExpires` | internal/ratelimit/limiter.go:51-53 | a counter whose EXPIRE went through is gone after two minutes |
| `Freshness.AnswersAreFresh` | internal/httpapi/server.go:199-272 | in every run in which the requests for one type and digest come one at a time and none of them loses its cache write while another response is still served, each 200 answer for it carries its latest successful extraction, refreshes included, whatever else fails, expires or is evicted, lost reads and deletes included, and however requests for other documents overlap and fail |
| `Freshness.InvHolds` | internal/httpapi/server.go:199-272 | invariant behind it, per type and digest: what a request for it holds is the latest extraction, and so is whatever a GET would return unless such a request is between its extraction and its cache write |
| `Stale.LostWriteDecides` | internal/httpapi/server.go:331-348 | the exact condition: a step of such a run loses a cache write while another response is served if and only if the run can go on, one request at a time and without losing any more, to a stale answer |
| `Stale.LossGoesStale` | internal/httpapi/server.go:199-222 | the continuation, event by event: from every reachable step of that kind the answer and one more plain request for the document, with nothing failing, end in a stale answer |
| `StaleRun.RefreshInVain` | internal/httpapi/server.go:224-272 | for every configuration with cache, store, consents and a limit of two or more and every request it serves with two responses, one explicit list of events is a run: a request, a refresh whose DEL and transaction fail and nothing else, and the request again; its requests come one at a time, only that transaction loses a cache write while another response is served, and its last answer is stale |
| `StaleRun.AnswersStale` | internal/httpapi/server.go:224-272 | the same list of events with a concrete configuration and concrete requests |
| `Turns.SteadyTurn` | internal/httpapi/server.go:199-226 | a request handled alone whose cache read is answered, or whose delete takes effect, never loses a cache write while another response is served |
| `Turns.WritingTurn` | internal/httpapi/server.go:331-348 | nor does one whose transaction and cache write work, or that is refused |
| `Outcomes.ExactlyOneOutcome` | internal/httpapi/server.go:146-275 | in every run a request that has arrived is either still being handled, without any outcome, or has ended with exactly one answer or refusal |
| `Freshness.HitWritesBackWhatItRead` | internal/httpapi/server.go:199-219 | in every run a hit goes on to insert, never to replace, and what it will write back to the cache is exactly the entry it read |
| `Refresh.AllAsAsked` | internal/httpapi/server.go:152-226 | invariant of every run: every request in flight has a document type and an accepted consent, reads the cache only without refresh and deletes it only with refresh, and replaces if and only if it refreshes |
| `Refresh.GateComesFirst` | internal/httpapi/server.go:146-183 | in every run a request with a blank document type, an invalid upload or no accepted consent leaves nothing but its refusal as a bad request, and nobody else is refused so |
| `Refresh.BadRequestTouchesNothing` | internal/httpapi/server.go:146-183 | an arrival that does not pass the gate changes neither Redis nor the table nor the requests in flight |
| `Refresh.RefreshWords` | internal/httpapi/server.go:351-359 | a refresh is asked for by exactly "1", "true", "yes", "y" and "on" after lower-casing and trimming |
| `Refresh.RefreshAsked` | internal/httpapi/server.go:351-359 | "TRUE" and the five words ask for a refresh; nothing, "0", "false" and "no" do not |
| `Refresh.FactsFollowRequest` | internal/httpapi/server.go:187-274 | attribution in every run: each fact logged under a number is about the request that arrived under it; its consent, the quota it is charged to, its extractor call, its transaction and its answer carry that request's own subject, policy, type, content and refresh wish |
| `Refresh.ConsentRowsAreOwn` | internal/httpapi/server.go:187-197 | in every run each consent row holds the attributed subject and email of its own request, as it arrived, the policy its type requires, that type and the digest of its upload |
| `Refresh.RefreshAnswersItsOwn` | internal/httpapi/server.go:224-274 | in every run the answer to a refresh is the stamped result of a successful extractor call that the same request made before, for its own type and content |
| `Refresh.RowsFollowRequest` | internal/httpapi/server.go:331-343 | in every run a committed refresh leaves exactly one active row for its type, digest and subject, the one with the new result, and every other committed request adds one |
| `Consent.InvHolds` | internal/httpapi/server.go:187-197 | invariant of every run: past the consent step a request has left its consent row, or a failed attempt, before anything else it did |
| `Consent.OnceHolds` | internal/httpapi/server.go:472-481 | in every run a request leaves exactly one consent row or loses exactly one, never both |
| `Consent.ConsentPrecedes` | internal/httpapi/server.go:163-197 | in every run an extractor call or stored row is preceded by a consent row of the same request with the same subject, type and digest and the policy its type requires, if and only if that request's own consent insert was not lost |
| `Identity.QuotaIsActor` | internal/httpapi/middleware.go:76-82 | the quota identity equals the attributed subject on every request and is never empty for a principal with a subject |
| `Identity.AttributionExact` | internal/httpapi/server.go:383-425 | subject, email, client and quota identity exactly, in terms of the request: the forwarded user if and only if the token is a JWT of the client "pde-m2m", or of a "pde-" client without an email, the secret is configured and matches and the user header is not blank; otherwise the token's own |
| `Identity.GatewaySpeaksForUser` | internal/httpapi/server.go:383-425 | the gateway's token speaks for any forwarded user, trimmed, and no longer does with no secret, another secret, an access token, another client or an email |
| `Identity.ForwardFailsClosed` | internal/httpapi/server.go:383-402 | an actor other than the token's subject needs a JWT and the configured secret, and is then the trimmed forwarded subject; the client is always the token's |
| `Identity.CurriculumNeedsItsOwn` | internal/httpapi/server.go:361-378 | no consent value is accepted both for a curriculum and for another type |
| `Identity.CurriculumConsent` | internal/httpapi/server.go:361-378 | a curriculum is accepted with exactly the text "lgpd-cv-store-v1" in any casing, trimmed, from the form or else from the header |
| `Identity.OtherConsent` | internal/httpapi/server.go:361-378 | every other type is accepted with exactly "lgpd-extract-v1" in any casing or one of the five yes-words in any casing, trimmed, from the form or else from the header |
| `Identity.YesIsForExtractionOnly` | internal/httpapi/server.go:370-376 | a yes-word with white space around it is consent for an invoice and not for a curriculum |
| `Identity.FormHidesHeader` | internal/httpapi/server.go:361-365 | the consent header has no influence, whatever it holds, if and only if the form has a value |
| `Quota.TidyHolds` | internal/httpapi/middleware.go:66-104 | invariant of every run: a request counts at most once, calls at most once, calls only after it was let through in that bucket, and a hit never counts |
| `Quota.BucketHolds` | internal/ratelimit/limiter.go:40-68 | invariant of every run that is prompt for a bucket, whatever happens in others: while an INCR for the window can still come, its key holds exactly the number of INCRs and does not expire before |
| `Quota.QuotaIsExact` | internal/ratelimit/limiter.go:40-68 | over every interleaving of INCR and EXPIRE as separate steps that may fail or take effect unheard, exactly min(INCRs, limit) units are given out per kind, principal and window, each to a request that is let through or to one whose INCR went unheard |
| `Quota.FirstComeFirstServed` | internal/ratelimit/limiter.go:47-61 | in a run that is prompt for the bucket an INCR returns its place in the line and gets a unit if and only if fewer than the limit came before it |
| `Quota.RemainingIsPromise` | internal/ratelimit/limiter.go:54-61 | over such a run, of the INCRs after a caller's the k-th gets a unit if and only if k is at most the `Remaining` of the verdict on that caller's own count |
| `Quota.CallersWereAdmitted` | internal/httpapi/server.go:229-253 | in every run whoever called the extractor had been let through in that bucket |
| `Quota.CostIsBounded` | internal/llm/groq/client.go:91-114 | extractor calls per principal and window never exceed the limit, upstream attempts never six times the limit, back-off never 18 s times the limit |
| `Quota.HitsAreFree` | internal/httpapi/server.go:199-222 | in every run a request answered from the cache uses no quota in any bucket and makes no extractor call |
| `Quota.SpanAdmitsTwice` | internal/ratelimit/limiter.go:44-59 | any 60-second span, aligned or not, lets at most twice the limit through per principal, given only that the two windows it touches are prompt |
| `RateLimit.RetryLandsInNextWindow` | internal/ratelimit/limiter.go:58-66 | `RetryAfter` is between 1 s and 60 s and always leads into the very next window |
| `RateLimit.HeaderFallsShort` | internal/httpapi/middleware.go:94-100 | the whole-second header is 1 to 60, falls short of the window end by less than a second, and reaches a later window if and only if the refusal came on a whole second or in the last second of the window |
| `RateLimit.HeaderAtLeastOne` | internal/httpapi/middleware.go:95-98 | for every wait the header is at least 1 and otherwise drops the fraction of a second |
| `RateLimit.Limiter.constructor` | internal/ratelimit/limiter.go:27-36 | the limit is the given one when that is positive and 60 otherwise |
| `RateLimit.Limiter.Allow` | internal/ratelimit/limiter.go:40-68 | one INCR on the window's key, an EXPIRE of two minutes only after the first, and the verdict; an INCR error gives no verdict and changes nothing unless the INCR took effect unheard |
| `Store.CommitActive` | internal/store/extractions.go:60-118 | a Replace leaves exactly one active row of its type, digest and subject, an Insert adds one, and active rows of every other key, other subjects of the same document included, stay as they are |
| `Store.ActiveHistory` | internal/store/extractions.go:60-118 | after every history of transactions the active rows of a key are the inserts since its last Replace plus the row that Replace left, and there are as many rows as transactions |
| `Store.HistoryEvolves` | internal/store/extractions.go:60-118 | along every history rows are never lost or changed and a deleted row never revives |
| `Store.Extractions.Persist` | internal/store/extractions.go:60-118 | a broken transaction leaves the table as it was; a committed one, heard of or not, is the soft delete, if asked for, and the insert |
| `Store.Extractions.ListBySubject` | internal/store/extractions.go:131-176 | an empty trimmed subject is an error; otherwise a page of its active rows of the type, each once, later rows first, from which a row is missing only if the page is full of later ones |
| `Store.Extractions.GetByIDForSubject` | internal/store/extractions.go:178-207 | found if and only if the row exists, is active and is stored under the trimmed subject; missing if and only if the subject is given and it is not |
| `Store.NewestExact` | internal/store/extractions.go:142-150 | the listing holds every visible row, no other, each once; on a table in time order the most recently created come first |
| `Store.PageByTime` | internal/store/extractions.go:142-150 | on a table in time order a page is sorted by falling creation time and nothing it leaves out is more recent than what it lists |
| `Store.ReadsAreScoped` | internal/store/extractions.go:131-207 | every listed row is active with stored subject equal to the trimmed actor, at most 50 of them |
| `Store.PageExact` | internal/store/extractions.go:131-150 | which rows may stand on a page (active, of the trimmed subject, of the type if one is asked for, at most the limit or else 20) and which have to, in terms of the rows alone |
| `Store.OwnRowFound` | internal/store/extractions.go:131-207 | a row just stored is found by its own subject if and only if that subject is not empty and has no surrounding white space |
| `Ledger.TableIsHistory` | internal/httpapi/server.go:331-343 | in every interleaved run the table is the committed transactions of the log applied in order |
| `Ledger.ActiveRows` | internal/store/extractions.go:60-118 | in every run, per type, digest and subject, active rows are the inserts since the last committed Replace plus one, or all inserts if there was none |
| `Ledger.RowsOnlyGrow` | internal/store/extractions.go:60-118 | between any two points of a run rows are only added and none revives |
| `Ledger.RefusedChangesNothing` | internal/httpapi/server.go:224-253 | in every run a request that ended in a refusal, a refresh included, committed no transaction, so it deleted nothing |
| `Ledger.OnlyCommitsChangeRows` | internal/httpapi/server.go:331-343 | the table changes only in a successful transaction step, and then by exactly that request's transaction |
| `Ledger.ReadsAreOwn` | internal/httpapi/server.go:427-470 | in every run whatever a caller lists or fetches is active and was stored by a request attributed to the caller's subject, up to trimming |
| `Ledger.RowsInTime` | internal/store/extractions.go:84-110 | in every run the rows stand in the order of their creation times, none later than now, so listing by position is listing by created_at |
| `Ledger.NewRowIsOwn` | internal/store/extractions.go:84-110 | a step that changes the table appends the row of the acting request, with its type, digest, file name, attributed subject, client and email (absent when empty), its result and the time of this very step |
| `Ledger.RowsAreOwn` | internal/store/extractions.go:84-110 | in every run each row holds those data of the request that stored it, as it arrived, and the time of its transaction |
| `Keys.CacheKeyInjective` | internal/cache/redis.go:56-58 | cache keys are equal if and only if type and digest are, even when types contain colons |
| `Keys.LimitKeyInjective` | internal/ratelimit/limiter.go:44-47 | limiter keys are equal if and only if kind, principal and window are, even when principal ids contain colons |
| `Keys.KeysDisjoint` | internal/ratelimit/limiter.go:46-46 | no limiter key equals a cache key |
| `Keys.KeysWrittenOut` | internal/cache/redis.go:56-58 | both key formats on an example |
| `Handler.Server.RecordConsent` | internal/httpapi/server.go:472-481 | the consent insert, or its loss, is one protocol step and the request goes on either way |
| `Handler.Server.LookupCache` | internal/cache/redis.go:60-81 | the lookup is one or two protocol steps: a hit is stamped and goes to the insert, an undecodable entry is deleted, a miss or an error goes to the limiter |
| `Handler.Server.InvalidateCache` | internal/httpapi/server.go:301-306 | the delete is one protocol step, with or without a cache, failing or not |
| `Handler.Server.Charge` | internal/httpapi/middleware.go:87-103 | the limiter call is the counting and expiring steps; the verdict handed on is the limiter's on the count just logged for the request; refused requests leave with a refusal and no session |
| `Handler.Server.EnforceRateLimit` | internal/httpapi/middleware.go:66-104 | the quota check is a run of the clock, count and expire steps on the attributed user's bucket; who goes on was told that it is allowed, and every verdict told is the one on the count logged in that bucket |
| `Handler.Server.PersistAndReply` | internal/httpapi/server.go:308-349 | the cache is written only after the transaction went through or without a store; a failed transaction still answers 200 with the result |
| `Handler.Server.ExtractMiss` | internal/httpapi/server.go:228-274 | everything behind the cache is a run of the request's own steps that ends in a 200 with the stamped result or in a refusal |
| `Handler.Server.AskCache` | internal/httpapi/server.go:199-222 | without refresh a hit is stored again and answered with 200, anything else goes on as a miss, all in steps of the request |
| `Handler.Server.AskAnew` | internal/httpapi/server.go:224-226 | with refresh the entry is deleted and the request goes on as a miss |
| `Handler.Server.Handle` | internal/httpapi/server.go:187-274 | an admitted request is a run of its own steps from consent to answer or refusal and leaves no session behind |
| `Handler.Server.Extract` | internal/httpapi/server.go:146-275 | a call of the handler is exactly one arrival and one run of that request in the protocol, ends logged as the 200 it returned or as a refusal, and leaves every other request alone |
| `Handler.Server.ListExtractions` | internal/httpapi/server.go:427-446 | unavailable without a store, unauthorized for an empty actor, failed for an actor of white space only; otherwise a page of at most 20 active rows of the trimmed actor and type, newest first, complete unless full |
| `Handler.Server.GetExtraction` | internal/httpapi/server.go:448-470 | the row if and only if it is active and the trimmed actor's own; missing exactly when it is absent, deleted or another subject's |
| `Sequence.Serve` | internal/httpapi/server.go:146-275 | one more call of the handler extends the run of all calls so far; the answer logged for this very request is the one returned, was extracted for its type and content and is fresh if the run is orderly for its key; the call keeps the run orderly for every other key, and for its own if its cache read and delete, or its transaction and cache write, go through |
| `Sequence.ServeAll` | internal/httpapi/server.go:146-275 | for any sequence of calls on a new server, with waits, evictions and damaged keys in between, the answer returned to each call is the one logged under that call's own number, was extracted for its own type and content, and is the latest extraction if in each call so far for the same type and digest the cache read and delete, or the transaction and the cache write, went through; a call without an answer was refused |
| `Upstream.Chat` | internal/llm/groq/client.go:91-114 | at most three attempts; it goes on after every 429 whose wait is not cancelled as long as attempts are left, and only then; the last attempt made decides; the waits are 3 and 6 s |
| `Upstream.ChatCost` | internal/llm/groq/client.go:91-114 | for every behaviour of the provider a chat makes one to three attempts, and more than one only after a 429 |
| `Upstream.ChatExact` | internal/llm/groq/client.go:91-114 | for every behaviour of the provider, exactly which attempt is the last, what it replies and how long was waited |
| `Upstream.BusyTwiceIsHeard` | internal/llm/groq/client.go:97-112 | a provider that is busy twice and then answers is heard, after three attempts and 9 s |
| `Extractor.ExtractCost` | internal/extract/service.go:84-153 | an extraction costs at most six attempts and 18 s of back-off and carries the requested type |
| `Extractor.ExtractedFromAnswer` | internal/extract/service.go:101-120 | the data is always the normalised decoding of the unwrapped text of an answer of the first or the repair chat |
| `Extractor.ExtractExact` | internal/extract/service.go:84-153 | an extraction succeeds if and only if the type is known, the first chat replies, and its reply or else the repair chat's decodes; the result is the normalised decoding of the first that does, with the document's own meta data; and exactly when each of the three failures comes about |
| `Extractor.RepairExact` | internal/extract/service.go:106-118 | the repair chat is made, and paid for, if and only if the first one replied with what does not decode |
| `Extractor.RepairedReply` | internal/extract/service.go:106-118 | a reply that does not decode is repaired by one that does, in two attempts |
| `Unwrap.CutBlock` | internal/extract/service.go:226-226 | cutting a think block removes at least 15 characters |
| `Unwrap.NoThinkLeft` | internal/extract/service.go:214-239 | no reply leaves `<think>` in the cleaned or sliced text, even when a cut forms a new tag |
| `Unwrap.StripFencesLoop` | internal/extract/service.go:214-239 | the loop ends, because each full pass removes at least 15 characters, and computes the recursive description |
| `Unwrap.UnfenceWrap` | internal/extract/service.go:229-237 | every json fence, tagged or not, with any white space inside, gives back exactly the body it wraps, and a bare body is left alone |
| `Unwrap.SliceUnwraps` | internal/extract/service.go:200-239 | any `{...}` body free of `<think>` comes back unchanged from every wrapping by white space, leading think blocks and an optional json fence, even if it contains triple backticks |
| `Replies.SliceFindsBody` | internal/extract/service.go:200-206 | the object is found in prose: behind leading think blocks and any text without an opening brace, before any text without a closing brace |
| `Replies.SliceFindsFenced` | internal/extract/service.go:200-239 | and inside a fence, with prose around it there and behind the fence |
| `Replies.BracesExact` | internal/extract/service.go:202-206 | the slice is from the first opening to the last closing brace; a text without such a pair is left as it is |
| `Replies.UnclosedThink` | internal/extract/service.go:221-225 | a think block that is never closed is cut off with everything behind it |
| `Checksum.AllSameDigits` | internal/normalize/normalize.go:144-151 | true if and only if all characters are equal |
| `Checksum.ValidCpf` | internal/normalize/normalize.go:47-76 | the loops over the digit array accept exactly what the scheme accepts |
| `Checksum.ValidCnpj` | internal/normalize/normalize.go:78-111 | the loops over the digit array accept exactly what the scheme accepts |
| `Checksum.NormalizeStable` | internal/normalize/normalize.go:23-37 | the normal form is empty or accepted, is its own normal form and does not depend on punctuation |
| `Checksum.DigitsOnlyConcat` | internal/normalize/normalize.go:10-14 | the digits of two texts put together are the digits of each put together |
| `Checksum.NoDigits` | internal/normalize/normalize.go:10-14 | a text without digits gives nothing |
| `Checksum.PunctuationIsIgnored` | internal/normalize/normalize.go:23-37 | a non-digit inserted anywhere changes neither what is accepted nor the normal form |
| `Checksum.WrittenCpfNormalizes` | internal/normalize/normalize.go:23-29 | every accepted CPF written ddd.ddd.ddd-dd is accepted and normalises to its digits |
| `Checksum.WrittenCnpjNormalizes` | internal/normalize/normalize.go:31-37 | every accepted CNPJ written dd.ddd.ddd/dddd-dd is accepted and normalises to its digits |
| `Checksum.CpfByTheBook` | internal/normalize/normalize.go:47-76 | eleven digits are accepted if and only if they are not all equal and both check digits are the weighted sums times ten modulo 11, with 10 read as 0, the sums written out |
| `Checksum.CnpjByTheBook` | internal/normalize/normalize.go:78-111 | the same for fourteen digits, with 11 less the weighted sum modulo 11 and 0 for the residues 0 and 1 |
| `Checksum.ChangeChecksOut` | internal/normalize/normalize.go:56-75 | for any scheme with two such sums, one changed digit keeps both check digits if and only if it is in the payload and both sums keep their check value |
| `Checksum.SwapChecksOut` | internal/normalize/normalize.go:56-75 | for any such scheme, two swapped neighbours keep both check digits if and only if both sums keep their check value |
| `Checksum.CpfSingleErrors` | internal/normalize/normalize.go:47-76 | a single-digit change of an accepted CPF is accepted if and only if it is blind, and then it is at position 0 by 1 with first check digit 0, or at position 5 by 2 or 9 with both check digits 0 |
| `Checksum.CnpjSingleErrors` | internal/normalize/normalize.go:78-111 | a single-digit change of an accepted CNPJ is accepted if and only if it is blind, and then both check digits are 0 and it is at position 0 or 8 by 2 or 9, or at position 4 by 5 or 6 |
| `Checksum.CpfSwaps` | internal/normalize/normalize.go:56-75 | swapping unequal neighbours of the payload is accepted if and only if both sums stand at residue 0 or 1 and the digits differ by 1 the right way, so both check digits are 0 |
| `Checksum.CnpjSwaps` | internal/normalize/normalize.go:87-110 | the same, and the swaps at positions 3-4 and 4-5 are always rejected |
| `Checksum.BlindFirstDigit` | internal/normalize/normalize.go:67-75 | two accepted CPFs that differ only in the first digit |
| `Checksum.BlindSixthDigit` | internal/normalize/normalize.go:56-75 | accepted CPFs that differ only in the sixth digit, by two and by nine |
| `Checksum.BlindCnpjDigits` | internal/normalize/normalize.go:87-110 | accepted CNPJs that differ only at position 0 by nine, at position 4 by five and at position 8 by nine |
| `Checksum.BlindCnpjSmallSteps` | internal/normalize/normalize.go:87-110 | accepted CNPJs that differ only at position 0 by two, at position 4 by six and at position 8 by two |
| `Checksum.BlindCpfSwap` | internal/normalize/normalize.go:56-75 | two accepted CPFs that differ by a swap of neighbours |
| `Checksum.BlindCnpjSwap` | internal/normalize/normalize.go:87-110 | two accepted CNPJs that differ by a swap of neighbours |
| `Text.CollapseIdempotent` | internal/normalize/normalize.go:153-155 | collapsing white space twice is collapsing it once and keeps the words |
| `Text.WhiteSpaceExact` | internal/normalize/normalize.go:138-138 | white space is exactly the twenty-five characters of White_Space |
| `Dates.LayoutsAgree` | internal/normalize/normalize.go:123-136 | any two layouts that accept a token give the same date |
| `Dates.OrderIrrelevant` | internal/normalize/normalize.go:123-136 | every list of the same layouts, in any order, gives the same answer |
| `Dates.ParsedIsCalendar` | internal/normalize/normalize.go:131-136 | every parsed date is on the calendar, in the years 0 to 9999 |
| `Dates.CalendarExact` | internal/normalize/normalize.go:131-136 | the month lengths and leap years of the calendar |
| `Dates.DateToIso` | internal/normalize/normalize.go:113-142 | the loop and recursion compute the date of the first token and recurse at most once |
| `Dates.FirstTokenDecides` | internal/normalize/normalize.go:138-140 | the answer depends only on the first token separated by white space |
| `Dates.WrittenDatesRead` | internal/normalize/normalize.go:119-136 | every calendar date written day first or year first, with slashes, dashes or dots, comes back in ISO form, and so do two-digit years as 1969 to 2068 |
| `Dates.LooseDatesRead` | internal/normalize/normalize.go:123-136 | the same without leading zeros on the day, on the month or on both |
| `Dates.WrongDaysRefused` | internal/normalize/normalize.go:131-141 | a written day and month that are on no calendar give no date |
| `Dates.IsoIsStable` | internal/normalize/normalize.go:113-142 | every answer is the ISO form of a calendar date and is its own answer |
| `CvDates.NormalizeCvDate` | internal/doctypes/curriculum_vitae/curriculum_vitae.go:413-467 | the layout loops and the loop over the month map, met in any given order, compute the functional description |
| `CvDates.MapOrderIrrelevant` | internal/doctypes/curriculum_vitae/curriculum_vitae.go:443-465 | the answer is the same for every iteration order of the Portuguese month map |
| `CvDates.OneNameFits` | internal/doctypes/curriculum_vitae/curriculum_vitae.go:453-465 | at most one entry of the map leads to a date for any text |
| `CvDates.AnswerShape` | internal/doctypes/curriculum_vitae/curriculum_vitae.go:412-467 | the answer is empty, YYYY-MM with a real month, or a calendar-valid YYYY-MM-DD |
| `CvDates.NormalizedOnce` | internal/doctypes/curriculum_vitae/curriculum_vitae.go:413-467 | a second pass changes nothing, even with another map order |
| `CvDates.WrittenMonthsRead` | internal/doctypes/curriculum_vitae/curriculum_vitae.go:421-441 | every month in numbers, year or month first, with slash, dash or dot, comes back as YYYY-MM |
| `CvDates.LooseMonthsRead` | internal/doctypes/curriculum_vitae/curriculum_vitae.go:425-440 | the same without the leading zero of the month |
| `CvDates.NamedMonthsRead` | internal/doctypes/curriculum_vitae/curriculum_vitae.go:432-465 | every English or Portuguese month name, long or short, in any casing, with a blank, slash, dash or dot and a year, is read as that month of that year |
| `CvDates.EntriesEnumerate` | internal/doctypes/curriculum_vitae/curriculum_vitae.go:443-451 | the map is exactly the twelve long names, the twelve short names and the spelling without cedilla |
| `Skills.CanonicalizeSkillCategory` | internal/doctypes/curriculum_vitae/curriculum_vitae.go:219-233 | alias first, then the first category whose name occurs in the key, else "other" |
| `Skills.CanonicalKeeps` | internal/doctypes/curriculum_vitae/curriculum_vitae.go:199-233 | every canonical category is its own category |
| `Skills.AliasesExact` | internal/doctypes/curriculum_vitae/curriculum_vitae.go:203-217 | the alias map holds exactly the entries of the table, with the nine categories in the fixed order |
| `Skills.CategoryExact` | internal/doctypes/curriculum_vitae/curriculum_vitae.go:219-233 | the category of every text exactly: its alias's, else the first category in the fixed order whose name occurs in it, else "other" |
| `Skills.FrontendIsFound` | internal/doctypes/curriculum_vitae/curriculum_vitae.go:227-231 | a category name inside a longer title is found |
| `Skills.CleanStrings` | internal/doctypes/curriculum_vitae/curriculum_vitae.go:299-318 | the loop with its seen map gives the first occurrences, ignoring case, of the collapsed non-empty items |
| `Skills.FirstsPicked` | internal/doctypes/curriculum_vitae/curriculum_vitae.go:305-316 | kept items stand at increasing positions of the input, each with no case-insensitive equal before it |
| `Skills.FirstsHas` | internal/doctypes/curriculum_vitae/curriculum_vitae.go:305-316 | no lower-case form is lost or made up |
| `Skills.CleanSkillGroups` | internal/doctypes/curriculum_vitae/curriculum_vitae.go:235-261 | the two mutable maps give, per category in fixed order, the first occurrences of the concatenated cleaned items |
| `Skills.GroupsExact` | internal/doctypes/curriculum_vitae/curriculum_vitae.go:235-261 | a group is in the result if and only if it holds exactly its category's items and there are some; its items are collapsed and without case-insensitive repeats |
| `Skills.GroupsInOrder` | internal/doctypes/curriculum_vitae/curriculum_vitae.go:252-260 | groups follow the fixed category order and no category is repeated |
| `Skills.CleanedOnce` | internal/doctypes/curriculum_vitae/curriculum_vitae.go:235-261 | a second clean-up changes nothing |
| `Skills.PairsExact` | internal/doctypes/curriculum_vitae/curriculum_vitae.go:235-261 | a (category, lower-case item) pair is listed if and only if some input group of that category offers it |
| `Skills.GroupOrderIrrelevant` | internal/doctypes/curriculum_vitae/curriculum_vitae.go:235-261 | permuting the input groups leaves the set of listed pairs unchanged |

## Left out

- Authentication (JWT, JWKS, PAT introspection): the principal is an input of a request.
- Preprocessing: validation and preparation of an upload are outcomes that an event carries.
- HTTP transport, CORS, access log, multipart parsing and the mapping of errors to status texts.
- Client address and user-agent selection, and the columns that only store them, the request id, MIME type, mode, model, status and duration.
- Configuration, secrets, connections, migrations and start-up; a server without a limiter is a server whose INCR always fails.
- JSON encoding and decoding, `Skills.UnmarshalJSON` included: values are abstract, decoding is a parameter of the extractor and bytes that do not decode are one kind of cache entry.
- `normalizeEmail`, `normalizePhone`, the other cleaners of the curriculum and the other document types' `Normalize`: field-by-field calls of what is proved here.
- Anomalies of concurrent transactions inside Postgres: one transaction is one atomic step. Row ids are positions in the table, so creation times that tie list the later row first.
- Clock skew between instances: there is one clock.
- Freshness.AnswersAreFresh: assumes that requests for the same type and digest do not overlap, because concurrent refreshes of one document are not ordered by the code; its other condition is exact by `Stale.LostWriteDecides`.
- Quota.QuotaIsExact: assumes prompt INCRs for the bucket and an untouched key, because the code cannot enforce either.
- Provenance.AnswersWereExtracted: assumes that the run has no digest collision between an answered and an extracted upload.
- Upstream.ChatCost: counts a call that fails before anything is sent as an attempt, and a cancelled wait in full, so the bounds are upper bounds.
- Case mapping beyond ASCII: lower-casing is a parameter that maps one character to one character.
- Prompts, prompt building and the schemas of the document types.
