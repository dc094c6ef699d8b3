# Verified model of provider-kit

provider-kit sends messages through pluggable providers and wraps them with retry, idempotency, error
normalization, templates and a registry. This project models the parts whose correctness is not visible in any one
function body, and proves what they promise together:

- **The claim table** (`claim_table.dfy`): every operation of the memory store as a function on a table of claims and
  recorded results, and laws of arbitrary operation sequences: fencing, stability of recorded results, exclusion,
  the rate of grants, transparency of the sweep.
- **The store on the heap** (`memory_store.dfy`, `isolation.dfy`): the store, its results with their shared metadata
  maps and error pointers, and the wrapping provider as classes. A session of callers and providers who rewrite,
  relink and hand in again every object they ever came across, the errors that stored results wrap included, cannot
  change what the store answers.
- **The send protocol** (`send_protocol.dfy`): any number of concurrent Sends as a step system with a moving clock,
  stale clock readings, overruns, refused settlements, a sweep and outside writers. Every sequence of steps is a run.
- **Overruns** (`overrun.dfy`) and **provenance** (`provenance.dfy`): how late a Send may be for its answer to be
  binding on the others, exactly; and that every result a Send returns was returned by a provider call for its key.
- **The two send paths** (`sequential_send.dfy`): the reserving path and the check-then-act path agree on
  non-overlapping Sends, up to an exactly stated tie.
- **Retry** (`retry.dfy`) with its backoff, **the registry** (`registry.dfy`), and **retry and idempotency wrapped
  around each other** in both orders (`composition.dfy`, `paced_loops.dfy`).
- **Cache keys** (`cache_key.dfy`) and **independence** (`key_independence.dfy`): over whole runs, Sends for other
  channels or keys in the same store can be left out without changing anything for the rest.
- **Error chains** (`error_chain.dfy`), **templates** (`template.dfy`), **mail
  framing** (`mail.dfy`) and the **HTTP outcome contract** (`http_provider.dfy`).

`values.dfy` holds the shared value types, `arithmetic.dfy` a few facts about products. `dafny verify dfyconfig.toml`
checks everything.

## How the model reads the source

- A clock reading is an integer and time never runs backwards. Every ttl is an arbitrary integer: claims that are born
  expired are included. `Reserve` reads the clock before it takes the lock, so its stamp is a parameter of its own;
  the other operations use the reading made under the lock.
- Claim tokens are natural numbers, 0 standing for the empty token. In the protocol they come from a counter; the laws
  of the claim table hold for arbitrary tokens.
- A provider is an oracle: what it returns is a parameter, as are the times at which things happen and whether a wait
  is won by cancellation.
- The retry loop reads `result.OK` without a nil check (retry.go:109). The model has no precondition for this: a loop
  that meets (nil, nil) ends as `Panicked`, and the theorems say when.
- The tables of `MemoryStore` are ghost state that `Valid()` ties to the real entries, object by object.
- The claim of a Send that outlasts it is not protected, and neither is its answer: `Overrun.OverrunBreaksAgreement`
  shows, for any ttl and any lateness from the ttl on, two Sends of one key which both called the provider and each
  returned its own outcome. `SendProtocol.Agreement` therefore asks that no Send of the key overruns.
  `Overrun.AgreementBoundary` says that nothing less will do: among the runs in which every Send of a key ends within a
  given time of its clock reading, all agree if and only if that time is less than the ttl.
- The store may refuse the write that settles a claim, and Send drops the error. The memory store never does; the
  protocol has a step for stores that do (`SettleRefused`). `SendProtocol.InFlightMeanwhile` and
  `SendProtocol.LostOutcomeIsSentAgain` say what such a Send costs the others.

Where the code and its own words differ, the model follows the code:

- Backoff is called exponential (README.md:14, retry.go:16, retry.go:58); the code is linear in the attempt.
- The comment at idempotency.go:150 says Set records the outcome; Send uses Finalize.
- The comment at idempotency.go:201-202 reads an absent entry as a claim that expired unreplaced. Expired it did, as
  `SendProtocol.AbsentEntryMeansOverrun` shows. Unreplaced it need not be: a later claim may have been granted and
  released, and Finalize records in that case too (`Overrun.OverrunBreaksAgreement`, where Send 1 has no result).

## Model

| member | source | states |
|---|---|---|
| ClaimTable.OperationsKeepWellFormed | idempotency.go:91-103 | all seven operations keep every entry either a result or an owned claim; Set(nil) neither creates nor releases a claim and leaves no result |
| ClaimTable.TraceKeepsWellFormed | idempotency.go:130-331 | so does every sequence of them |
| ClaimTable.OtherKeysUntouched | idempotency.go:131-303 | an operation on one key leaves every other entry alone; only a sweep drops others, and only expired ones |
| ClaimTable.ReserveLaw | idempotency.go:137-152 | on any table: a live entry stands and answers, anything else gives way to a claim until stamp + ttl, even one born expired |
| ClaimTable.SetLaw | idempotency.go:290-294 | Set with a result takes the place of any entry, live or not; it is found until now + ttl and not after |
| ClaimTable.SetNilLaw | idempotency.go:265-289 | Set without one removes a recorded result and leaves a claim standing |
| ClaimTable.DeleteLaw | idempotency.go:298-303 | Delete removes any entry |
| ClaimTable.AbandonLaw | idempotency.go:156-171 | Abandon removes the claim of its own token, expired or not, and nothing else ever |
| ClaimTable.GetLaw | idempotency.go:245-262 | Get changes nothing and finds a recorded result up to and including its expiry |
| ClaimTable.ForeignTokenIsFenced | idempotency.go:156-189 | Abandon and Finalize with a token that does not match a present entry leave the whole table unchanged |
| ClaimTable.FinalizeRecordsOrReports | idempotency.go:174-208 | without a token, or with another's entry under the key, Finalize reports superseded and changes nothing; otherwise exactly its result is recorded and readable until now + ttl, and the same call repeated is refused |
| ClaimTable.FinalizeNilReleasesOrReports | idempotency.go:174-200 | the same for a nil result: refused and without effect, or the key is free |
| ClaimTable.RecordedResultIsStable | idempotency.go:131-208 | no Reserve, Abandon, Finalize, Get or sweep moves an unexpired recorded result, whatever stamp or token; Reserve, Get and Finalize answer by it |
| ClaimTable.RecordedResultSurvives | idempotency.go:131-331 | the same over any stretch of operations |
| ClaimTable.ClaimSurvives | idempotency.go:131-208 | an unexpired claim is moved only by its own token, over any sequence free of Set and Delete |
| ClaimTable.GuardIsKept | idempotency.go:131-208 | before a claim's deadline its key stays claimed or answered, and no Reserve is granted, unless it is freed |
| ClaimTable.GuardLasts | idempotency.go:131-208 | the same over a sequence of operations |
| ClaimTable.Exclusion | idempotency.go:131-208 | after a grant that was not freed, the key is granted again no earlier than stamp + ttl, under any interleaving of stale stamps, sweeps and foreign tokens |
| ClaimTable.OwnReleaseReopens | idempotency.go:156-199 | the holder's Abandon or nil Finalize lets the very next Reserve through, however stale its stamp |
| ClaimTable.CallsAreSpaced | idempotency.go:137-151 | n unfreed grants keep their calls n * (ttl - gap) apart |
| ClaimTable.SweepIsSwept | idempotency.go:321-331 | the sweep drops exactly the entries past their expiry |
| ClaimTable.SweepUnseenByEvent | idempotency.go:321-331 | one later operation answers alike on the swept and the unswept table |
| ClaimTable.SweepIsTransparent | idempotency.go:321-331 | a sweep changes no later answer of Get, Reserve, Set, Delete or Abandon whose readings are not before it |
| ClaimTable.SweepSeenByFinalize | idempotency.go:185-206 | Finalize is the exception, exactly when the sweep drops another token's expired entry |
| ClaimTable.GetAndReserveAgree | idempotency.go:142-254 | on a recorded result Get and Reserve agree if and only if the clock is not exactly at the expiry |
| MemoryStore.SendResult.WithMetadata | result.go:54-60 | writes the map behind the result in place, allocating it if there is none |
| MemoryStore.CloneSendResult | idempotency.go:216-233 | a copy equal in value that shares none of the struct, the metadata map and the top-level error; the wrapped error is shared |
| MemoryStore.MemoryIdempotencyStore.Reserve | idempotency.go:131-153 | refines the table operation; hands out its claim, a fresh copy of the recorded result, or nothing; a failing token generator fails the call and changes nothing |
| MemoryStore.MemoryIdempotencyStore.Abandon | idempotency.go:156-171 | refines the table operation |
| MemoryStore.MemoryIdempotencyStore.Finalize | idempotency.go:174-208 | refines the table operation and reports supersession; the result becomes part of the store |
| MemoryStore.MemoryIdempotencyStore.Get | idempotency.go:245-262 | answers with a fresh copy of the unexpired recorded result, or a miss |
| MemoryStore.MemoryIdempotencyStore.Set | idempotency.go:265-295 | refines the table operation, for which `SetLaw` and `SetNilLaw` hold; the result becomes part of the store |
| MemoryStore.MemoryIdempotencyStore.Delete | idempotency.go:298-303 | refines the table operation |
| MemoryStore.MemoryIdempotencyStore.RemoveExpired | idempotency.go:321-331 | the deleting loop leaves exactly the unexpired entries |
| MemoryStore.IdempotentProvider.constructor | idempotency.go:348-373 | a zero TTL becomes five minutes, a missing store a new empty one; both are written into the caller's configuration object, if there is one |
| MemoryStore.IdempotentProvider.Send | idempotency.go:386-465 | the reply and the store after one Send, by the answer of Reserve or its error; whatever is returned lies outside the store, whose stored errors wrap nothing but what it was given |
| MemoryStore.IdempotentProvider.Settle | idempotency.go:412-464 | records a copy of the outcome, or releases the claim when an error came without a result |
| MemoryStore.IdempotentProvider.SendUnreserved | idempotency.go:484-507 | the same for the check-then-act path; an error of Get is handed on and not read as a miss |
| Isolation.OutsideMutationIsInvisible | idempotency.go:210-233 | no change to objects outside the store moves its table |
| Isolation.Session.ApplyMutation | idempotency.go:210-233 | new objects, any write to a known struct, metadata map or provider error, and any relinking of known objects leave the store's table alone and its objects unreachable |
| Isolation.Session.Do | idempotency.go:399-465 | one line of a script: a provider that returns a held result hands over what that result says at that moment, and the table and the value seen follow from it |
| Isolation.Session.Run | idempotency.go:216-262 | over any script of mutations, Sends whose providers return new or held results, Gets, Reserves and sweeps, every value seen and the final table are those that the outcomes of the Sends yield on a table of values |
| Isolation.MutationsCanBeDropped | idempotency.go:216-233 | without the mutations every other action sees the same value in the same table, and the end is the same |
| Isolation.DirectSetStaysShared | idempotency.go:290-293 | the boundary: a result given to Set directly stays shared, and the caller's write breaks the store's table |
| SendProtocol.ReachableInv | idempotency.go:386-465 | in every reachable state each claim in the store belongs to a Send between its grant and its settlement, or one whose settlement was refused; any other Send that returned leaves none behind |
| SendProtocol.StepKeepsNoOrphans | idempotency.go:412-464 | each step keeps this, outside writes included |
| SendProtocol.ReachableHoldersOwn | idempotency.go:131-208 | in every run without outside writes, a holder within its deadline owns the entry |
| SendProtocol.AtMostOneTimelyHolder | idempotency.go:20-67 | never do two Sends hold one key, or have a refused settlement on it, both within their deadlines |
| SendProtocol.InFlightMeanwhile | idempotency.go:399-405 | while a Send holds the key within its deadline, or its settlement was refused, every other that takes the lock ends with ErrSendInFlight and no provider call |
| SendProtocol.LostOutcomeIsSentAgain | idempotency.go:467-474 | a claim whose settlement was refused gives way to exactly those Sends that read the clock at or past its deadline, and they call the provider again |
| SendProtocol.AbsentEntryMeansOverrun | idempotency.go:201-207 | without outside writes, a Send that comes to settle and finds no entry has outlasted its claim |
| SendProtocol.OutsideStepLaw | idempotency.go:265-331 | a sweep step drops exactly what is past its expiry; outside Set and Delete take effect at once; no other step without a caller touches the store |
| SendProtocol.SweptStaysAway | idempotency.go:321-331 | an entry swept after its expiry comes back only by a new grant, a settlement or an outside Set for its key |
| SendProtocol.PhasesMoveForward | idempotency.go:386-465 | a Send passes its phases in order and keeps its claim |
| SendProtocol.EntryDuringFlight | idempotency.go:142-151 | while a timely Send is in flight the entry is its claim |
| SendProtocol.OutcomeIsRecorded | idempotency.go:185-206 | a timely Send's Finalize is not refused |
| SendProtocol.RecordLasts | idempotency.go:131-208 | a recorded result stands until it expires, over any run |
| SendProtocol.Agreement | idempotency.go:399-465 | from a grant until its outcome expires, every other Send of the key ends with ErrSendInFlight or with that very result, without calling the provider, and no other Send settles or tries to |
| Overrun.OverrunBreaksAgreement | idempotency.go:412-464 | for any ttl and any lateness from the ttl on, two Sends of a key return their own outcomes; the store keeps the later claim's, or, if that one released, records the earlier one's |
| Overrun.AgreementBoundary | idempotency.go:386-465 | agreement holds in all runs whose Sends of the key end within a given time of their clock reading if and only if that time is less than the ttl |
| Provenance.ResultsComeFromCalls | idempotency.go:386-465 | without an outside Set, every result recorded for a key or returned by a Send for it was returned by a provider call for that key |
| SendProtocol.RunFollowsTrace | idempotency.go:386-465 | a run's table is what the claim table makes of the run's operations |
| SendProtocol.GrantsExclude | idempotency.go:131-208 | exclusion over runs: unless released by its holder, a claim keeps the key until its deadline |
| SendProtocol.ProviderCallsAreSpaced | idempotency.go:137-151 | n provider calls for one key with unreleased claims span at least (n - 1) * (ttl - gap) |
| SequentialSend.SameAsProviderMethods | idempotency.go:386-507 | without a sweep under a Send, the two paths' tables are those of the claim table |
| SequentialSend.SendReserving | idempotency.go:386-465 | the provider's Send leaves the reserving path's table and returns its reply |
| SequentialSend.SendChecking | idempotency.go:484-507 | sendUnreserved leaves the checking path's table and returns its reply |
| SequentialSend.UninterruptedSend | idempotency.go:386-465 | a protocol Send that nobody interrupts leaves that table and returns that reply |
| SequentialSend.MissShows | idempotency.go:412-507 | after a miss both paths show the new result, or nothing, and elsewhere what they showed |
| SequentialSend.EventKeepsAlike | idempotency.go:386-507 | an untied event keeps the two stores alike |
| SequentialSend.RepliesAgreeUnlessTied | idempotency.go:399-491 | one Send: the paths answer alike if and only if the clock is not exactly at the expiry |
| SequentialSend.PathsAgree | idempotency.go:386-507 | any sequence: same replies and same provider calls until the first tie, where they part |
| SequentialSend.NoClaimsBetweenSends | idempotency.go:412-464 | a sequential reserving Send leaves no claim, even after an overrun |
| Retry.Send | retry.go:85-125 | the loop does what `IsRun` describes, and waits the computed delays |
| Retry.RunsAreUnique | retry.go:85-125 | that description determines the calls and the ending |
| Retry.RunsAreLocal | retry.go:85-125 | a run depends on no outcome past its last call |
| Retry.CallDecides | retry.go:91-124 | for every call of a run, by what it returned: OK ends the loop, (nil, nil) crashes it, a provider error with a reason not listed is returned with its result; all else is followed by another call, exhaustion or a cancelled wait |
| Retry.CallCount | retry.go:89-124 | calls = min(min(first stopping outcome, MaxRetries) + 1, first cancelled wait); the last outcome is returned, the context error on cancellation |
| Retry.CallsAtAll | retry.go:89-91 | the provider is called if and only if 0 <= MaxRetries < max int |
| Retry.FailingResultsAreRetried | retry.go:109-124 | a failing result with a nil error, at any attempt of any run and whatever its reason, is followed by another attempt, a cancelled wait, or exhaustion |
| Retry.NothingButFailingResults | retry.go:109-124 | with nothing else in the stream every attempt is used up and the last result comes back with a nil error |
| Retry.RunEndings | retry.go:91-124 | the ways a run can end |
| Retry.RunOnFixedResult | retry.go:109-124 | one repeated error-free result: a success ends the loop at once, a failure never does |
| Retry.DelayLaw | retry.go:59-65 | every delay is RetryDelay * (attempt + 1) * BackoffMultiplier without its fraction, or the cap if that is less |
| Retry.DefaultDelay | retry.go:21-34 | the default settings wait 200ms longer each time and 5s at most |
| Retry.DelayIsMonotone | retry.go:59-65 | for non-negative settings delays grow with the attempt up to the cap |
| Retry.IntegralDelay | retry.go:59-65 | with an integral step c the delay is c * (attempt + 1), capped |
| Retry.TotalDelayFormula | retry.go:59-102 | the closed form of the summed backoff |
| Retry.TotalDelayIsCapped | retry.go:59-102 | n waits never exceed n times the cap |
| Registry.Registry.Register | registry.go:25-39 | installs a valid provider, changes nothing on an invalid or nil one |
| Registry.Registry.Unregister | registry.go:97-101 | removes the channel |
| Registry.Registry.Clear | registry.go:151-156 | removes every provider |
| Registry.Registry.Get | registry.go:71-80 | the provider of the channel, or not_registered |
| Registry.Registry.Send | registry.go:88-94 | one call of that provider, or the lookup's error |
| Registry.GetIsLastRegistered | registry.go:25-101 | a channel answers with its last successful Register not undone since |
| Registry.RetrySend | retry.go:171-211 | the loop over a registry that others change between attempts does what `IsRun` describes of the answers of the changing registry, and waits the computed delays |
| Registry.UnderIsAfter | registry.go:25-101 | the registry that attempt i meets is the one its whole history of changes leaves, in order |
| Registry.SameAsRetryProvider | retry.go:171-211 | while the registration stands, retrying through the registry is retrying the provider |
| Registry.UnregisteredStopsTheLoop | retry.go:200-204 | a missing registration ends the loop unless not_registered is retryable |
| Composition.TimelyResultIsRecorded | idempotency.go:412-461 | a base result produced before its claim runs out is recorded |
| Composition.RecordAnswersAttempt | idempotency.go:142-147 | an attempt that finds a record is answered by it and leaves it |
| Composition.AttemptIsTrace | idempotency.go:386-465 | an attempt leaves the table of its sequence of store operations and goes by its Reserve's answer in their midst |
| Composition.UndisturbedAttempt | idempotency.go:386-465 | an attempt nobody disturbs is a Send that nothing interleaves with |
| Composition.NoSecondBaseCall | retry.go:91-121 | retry over idempotency: after a recorded base result no later attempt within the ttl reaches the base provider |
| Composition.LoopAfterRecordedResult | retry.go:85-125 | a recorded success is returned by the next attempt; a recorded failure exhausts the loop and comes back with a nil error |
| Composition.InFlightIsRetryable | retry.go:43-47 | ErrSendInFlight is retried under every configuration |
| Composition.LoopEndings | retry.go:85-125 | the loop over an idempotent provider ends cancelled, with a recorded result, with its own claim's outcome, or with ErrSendInFlight on exhaustion |
| Composition.LoopTimeBound | retry.go:85-125 | a loop holds a claim for at most MaxRetries + 1 calls and MaxRetries waits |
| Composition.LoopTimeExact | retry.go:85-125 | with calls of equal length the time is exactly its calls and the waits entered |
| PacedLoops.LoopsAreRetries | retry.go:85-125 | an inner loop that is over in a run is a run of the retry loop on its base calls' outcomes |
| PacedLoops.RetriesAreLoops | retry.go:85-125 | and every run of the retry loop is the inner loop of some run, crash and cancellation included |
| PacedLoops.HoldersAreTimely | retry.go:59-125 | when each base call, wait and end of a Send keeps its pace, no Send holds its claim longer than MaxRetries + 1 calls, MaxRetries waits with their slack, and the two ends |
| PacedLoops.NoSecondHolder | idempotency.go:412-464 | idempotency over retry: when that is below the ttl, every holder that did not crash is within its deadline and owns the entry, and another can coexist only overdue, crashed or with its settlement refused |
| Composition.CancelledBackoffReleases | idempotency.go:425-438 | cancellation during backoff makes Send abandon its claim, and the next Reserve is granted |
| ErrorChain.ProviderError.WithProvider | errors.go:70-74 | renames the error in place and touches nothing else |
| ErrorChain.ProviderError.WithError | errors.go:77-80 | replaces what the error wraps in place and touches nothing else |
| ErrorChain.FirstOfSnapshot | errors.go:175-181 | the search finds the same error whether the chain is read before or after it |
| ErrorChain.NormalizeError | errors.go:184-209 | completes the first provider error of the chain in place and returns it, or wraps the error as send_failed |
| ErrorChain.NormalizedParts | errors.go:189-208 | an error without a provider error keeps its text as the message of a send_failed; another keeps reason and message, and only empty fields are filled in |
| ErrorChain.NormalizedIsStable | errors.go:189-199 | normalization keeps the reason found first and is idempotent; for other arguments exactly when both fields are filled |
| ErrorChain.NormalizeTwice | errors.go:184-209 | a second call on the same chain changes nothing |
| ErrorChain.IsRetryable | retry.go:38-56 | the loop decides membership of the reason; errors without one are retryable |
| ErrorChain.NormalizedRetryable | errors.go:201-208 | normalization preserves retryability if and only if the chain holds a provider error or send_failed is retryable |
| ErrorChain.SearchSeesThroughWrapping | errors.go:175-181 | wrapping hides no provider error, at any depth |
| CacheKey.CacheKeyReadsBack | idempotency.go:525-527 | a channel without ':' and any idempotency key are read back from their store key |
| CacheKey.BuildCacheKeyIsInjective | idempotency.go:525-527 | for channels without ':' the key determines channel and idempotency key |
| CacheKey.CollidingKeys | idempotency.go:525-527 | what two equal keys have in common, for any channels |
| CacheKey.ChannelsCollide | idempotency.go:525-527 | two channels can share a key if and only if one followed by ':' is a prefix of the other |
| CacheKey.DifferentSendsDoNotMeet | idempotency.go:392-405 | Sends for different channels or keys neither block nor answer each other |
| KeyIndependence.KeysAreIndependent | idempotency.go:386-465 | at every moment of every run, a key's entry and its Sends are what they are in the run without all other keys' steps |
| KeyIndependence.SendsAreIndependent | idempotency.go:392-405 | the same for (channel, idempotency key) pairs, channels being free of ':' |
| Template.SimpleTemplateRenderer.WithDelimiters | template.go:115-119 | replaces both delimiters of the same renderer |
| Template.SimpleTemplateRenderer.Render | template.go:122-129 | with any delimiters the result is that of some order of the parameters, and of one ReplaceAll for one parameter; with proper delimiters, if the first character of one occurs in no value and nowhere outside the tags, the simultaneous substitution |
| Template.ReplaceAllCutsAndJoins | template.go:126 | ReplaceAll cuts the text at the leftmost non-overlapping occurrences and joins the parts with the replacement |
| Template.EmptyPattern | template.go:126 | for the empty pattern the replacement stands before each character and at the end |
| Template.ProperDelimiters | template.go:107-119 | the default delimiters are proper, and so are "${" and "}"; what a clean key is for them |
| Template.ReplaceInPieces | template.go:125-126 | for proper delimiters, one ReplaceAll replaces exactly the tags of its key, if the first character of one delimiter occurs nowhere outside the tags |
| Template.FoldSubstitutes | template.go:122-129 | replacing one after another, in any order, is substituting all at once, unknown tags kept |
| Template.OrderDoesNotMatter | template.go:124 | two orders give one result |
| Template.DirtyValuesBreakConfluence | template.go:124-127 | for proper delimiters, a value that is another parameter's tag makes the order show |
| Template.JoinedValuesBreakConfluence | template.go:124-127 | so do any two values that make up a tag between them, though neither need hold both marks |
| Mail.MessageIDDomain | smtp.go:428-433 | the domain is not empty, has no '@', and no character from elsewhere |
| Mail.DomainOfAddress | smtp.go:428-433 | an address local@domain gives back its domain |
| Mail.NoDomain | smtp.go:428-433 | a sender without '@', or that ends in one, gets localhost |
| Mail.BuildEmailBody | smtp.go:253-287 | the message written field by field; a reader gets lines and body back if and only if no field breaks its line; for guarded fields a lookup by name in what was read finds each once, with what it was given |
| Mail.FieldsByName | smtp.go:257-278 | sender under From, recipient under To, the subject if there is one, the two fixed fields, and the id with the sender's domain, each once |
| Mail.ReadsBackIffFramed | smtp.go:253-287 | the same for any list of header lines and any body |
| Mail.GuardLaw | smtp.go:417-419 | the guard refuses exactly the values that hold a carriage return, a line feed or a NUL |
| Mail.GuardedHeadersAreFramed | smtp.go:396-419 | fields that pass the control-character guard keep the frame |
| HttpProvider.ReadSendResponse | http.go:414-436 | a body is accepted, whole, if and only if it is no longer than the limit, 1 MiB by default, and reads without error; which failure is reported otherwise |
| HttpProvider.HTTPProvider.MapErrorCode | http.go:338-363 | known codes are reasons by the same name, all others send_failed |
| HttpProvider.HTTPProvider.Send | http.go:255-335 | a result on every path, OK if and only if the error is nil, the error beside it being its own; when that is, and reason and message of every failure by circumstance |
| HttpProvider.DecimalReadsBack | http.go:311 | the decimal status in the message stands for the status |
| HttpProvider.SendAndJudge | retry.go:109-121 | under the default settings a transport failure, and a code rate_limited, timeout or provider_down, is tried again; any other failure ends the loop with its result |
| HttpProvider.RetryKeepsSound | retry.go:85-125 | over such a provider the retry loop never crashes and returns sound outcomes |
| HttpProvider.RecordedReplySound | idempotency.go:399-465 | over a provider that is sound, every Send that called it returns a sound outcome; any other reply but ErrSendInFlight is a recorded result without its error, sound exactly if the recorded call succeeded |

## Left out

- Network, TLS, JSON, URLs and the SMTP dialogue: the provider is an oracle.
- The library formatters of addresses and subjects (net/mail, mime): what they return is a parameter of the mail model,
  assumed to carry no line break when their input passed the guards.
- The cleanup goroutine, its ticker, `Close` and `sync.Once`: the sweep is a step that may happen at any time.
- Contexts: only a flag that says whether cancellation wins a wait, and a step for the write that a store refuses.
- Panics inside a provider.
- Interleaving on the heap: the classes run one call at a time; interleaved calls are the subject of the step system,
  which works on values. Locks are the atomicity of a step.
- Retry.DelayIsMonotone: float64 rounding and out-of-range conversion are not modelled; delays are exact rationals
  truncated to integers.
- Registry.Registry.Clear: clears the providers only; the factories, a second map that Send and Get never read, are not
  modelled.
- Mail.GuardedHeadersAreFramed: asks the guard of the formatted fields, while the source applies it to what the
  formatters are given.
- Template.SimpleTemplateRenderer.Render: for several parameters and delimiters that are empty or hold each other's
  first character, only that the result is that of some order of ReplaceAll.
- Error types that define their own `As` or `Is`, and the exact wording of error texts that embed other texts.
- The registry's factories, listings and global instance, the locale texts, the message builders, configuration maps
  and masking of destinations: each is a single lookup, assignment or string operation, and no property above depends
  on it.
