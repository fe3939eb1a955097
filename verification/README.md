# Verified model of dockerls

dockerls recommends, builds and gates container images.  This project models the parts of it whose
correctness does not show on the page, and proves what they promise for every input, every history or
every interleaving:

- **YamlExpansion** — the meter that refuses a YAML document for what it would expand to, without
  expanding it, and the nesting check behind it.
- **GlobMatch, FileTree, ContextDigest** — the build-context digest: pruning ignored directories during
  the walk, sorting, and the framed byte stream that is hashed.
- **FleetWalk** — the capped search for Dockerfiles in a checkout.
- **RateLimit** — the token bucket and the circuit breaker, in real arithmetic over a clock that never
  goes back.
- **SingleFlight, Measurement, MeasurementCalls, MeasurementAnswers, Prescan** — the protocol by which
  concurrent requests share one computation, the measurement service on top of it with what becomes of each
  call and which measurement is remembered, and the batch that fills its results in advance.  The first two
  are transition systems whose steps are the stretches of code between two suspension points, and the
  classes beside them show that the code takes those steps.
- **ExpiringCache, MeasurementStore** — the lazily expiring cache and the layered store of scans and
  evaluations kept in it.
- **LineJoining, BoundedNumbers, DockerfileStages** — the Dockerfile parser: continued lines, the numbers it
  reads, and which USER and base the final stage ends up with.
- **Remediation, RankedSample, ScanSample, BuildPipeline** — what automatic remediation adds to a
  Dockerfile, the bounded sample a scan report keeps, and the gates before a push.
- **Options, Sequences, Text, Sorting** — shared vocabulary: optional answers, strings, a stable sort.

`dafny verify dfyconfig.toml` checks everything.

Loops, fields and in-place updates of the source are methods and classes here, each proved against a
function or a step of a transition system; the main results are about those functions and steps.  What
lies outside (file system, registry, scanners, Docker, policies, clocks) answers arbitrarily.

## Where the code and its description differ

The model follows the code.  Each of these is stated exactly below, with a lemma that exhibits it:

- A caller can receive a cancellation it did not ask for, if it joins work in the moment between that work
  being cancelled and its leaving the table (`SingleFlight.ForeignCancellation`, `JoinedTooLate`).
- A caller that has asked to stop and asks again cancels the work even if somebody has joined it meanwhile
  (`SingleFlight.SecondRequestReachesWaiters`); no other request to stop finds anybody waiting
  (`SingleFlight.StopReachesWaitersIff`).
- "One scan per key and run" does not hold: a request that arrives after a flight left the table and
  before its first waiter resumed starts another (`Measurement.SecondScanOfFinishedKey`); at most that one
  and at most once (`Measurement.AtMostOneStrayComputation`), and exactly while it has not come to the scanner
  (`Measurement.ScanAfterFinishedIff`).
- A rate limiter whose burst is below one never grants (`RateLimit.ServedIffCapacity`).
- `put_scan` accepts a scan whose reference does not name the digest; reading refuses it
  (`MeasurementStore.RoundTrip`).
- A wall clock that is set back loses cache entries it would still serve
  (`ExpiringCache.ClockSetBackLosesEntries`), and never makes an answer wrong (`ExpiringCache.AnyClockIsSafe`).
- The text the engine is given for a run key identifies the key whenever image names hold no separator
  (`Prescan.PlainNamesIdentifyKeys`).  Otherwise two hinted requests of one run can share a text
  (`Prescan.HintedTextsCanMeet`, and exactly when in `HintedTextsMeetIff`), but it takes a name and a hint that
  both hold the separator: a digest pinned by the user is a plain hint, and the one discovery source that
  reports a digest, the Docker Hub client, refuses such names.  The run keys themselves are tuples and never
  collide.
- A uid written with digits that are not decimal, such as a superscript, passes the digit test and makes the
  whole parse raise (`DockerfileStages.SuperscriptIsRefused`, `UserIsRead`); zeros of another script are not
  dropped from a uid (`BoundedNumbers.ForeignZerosHideZero`).
- A comment that ends in a backslash takes the directive after it along (`LineJoining.CommentSwallowsBlock`).
- A final stage that carries the name it starts from ends up with no base image
  (`DockerfileStages.SelfNamedStageHasNoBase`, `UnsetIffNeverEnds`), and with a USER other than the build's
  unless it has its own or there is none above (`DockerfileStages.SelfNamedUserIff`).
- A remediation patch goes before the first USER of the whole file, else after the last FROM, so it can
  miss the final stage (`Remediation.ReachesFinalStage`).
- The pip patch does not contain the text that guards it, and is inserted again in every round that asks
  for it (`Remediation.PipIsPatchedEveryTime`).
- A rebuild that cannot be scanned is gated on the scan of an earlier image (`BuildPipeline.StaleScanIsTrusted`,
  `PublishedImageWasScanned`), and a rebuilt image does not come from the Dockerfile that was digested
  (`BuildPipeline.RebuiltImageIsNotWhatWasDigested`).
- An error raised after the push turns the exit code into an error; the image stays published
  (`BuildPipeline.Execute`).

## Model

| member | source | states |
|---|---|---|
| YamlExpansion.UnfoldingIsUnique | dockerls/utils/safe_yaml.py:113-129 | following every edge from a node gives at most one finite tree, so its node count is well defined |
| YamlExpansion.UnfoldsByChildren | dockerls/utils/safe_yaml.py:148-152 | the list of children the meter walks is what the reference follows: every item of a sequence, the key and the value of every pair of a mapping, nothing of a scalar |
| YamlExpansion.SumIsClampedSize | dockerls/utils/safe_yaml.py:140-162 | one plus the clamped sizes of the children, clamped again, is the tree's node count when that fits the limit and limit+1 when it does not or there is no finite tree |
| YamlExpansion.Meter.ExpandedSize | dockerls/utils/safe_yaml.py:113-162 | on any graph, shared or cyclic, returns the clamped size, leaves the active set as it was, keeps every memo entry right, and never opens a node's edges twice |
| YamlExpansion.MeasureDocument | dockerls/utils/safe_yaml.py:91-95 | from an empty memo: exactly the tree's node count when it is within the limit, limit+1 otherwise, following at most as many edges as the graph has |
| YamlExpansion.FiniteUnlessCyclic | dockerls/utils/safe_yaml.py:113-139 | there is no finite expansion exactly when some path from the root meets a node twice |
| YamlExpansion.DepthIsCutNesting | dockerls/utils/safe_yaml.py:165-180 | the cut-off depth walk returns the true nesting depth cut at one past the limit, so its verdict is the true one |
| YamlExpansion.NestingIsLongestChain | dockerls/utils/safe_yaml.py:165-180 | the nesting depth is the length of the longest chain of values each inside the one before, through lists and dictionary values alike |
| YamlExpansion.SafeLoad | dockerls/utils/safe_yaml.py:57-110 | data is returned exactly when the bytes, the expansion and the true nesting are all within their limits and construction succeeds, and it is what was constructed; each refusal has exactly its own cause |
| GlobMatch.TokensAppend | dockerls/infrastructure/hashing.py:154-165 | appending `/*` to any pattern appends a slash and a star to its tokens, whatever brackets it leaves open |
| GlobMatch.TokensIff | dockerls/infrastructure/hashing.py:154-165 | a pattern is read in exactly one way: stars, question marks, closed classes and literals that spell it, an opening bracket being a literal only when nothing closes it |
| GlobMatch.MatchIff | dockerls/infrastructure/hashing.py:154-165 | a text matches if and only if it can be cut into one piece for each token: any text for a star, one character for a question mark, one of the class for a class, itself for a literal |
| GlobMatch.CoversIff | dockerls/infrastructure/hashing.py:154-165 | a pattern ignores a path if and only if it matches the path, or it spells or matches the path of a directory on the way, or matches the name of one |
| GlobMatch.PlainCoversIff | dockerls/infrastructure/hashing.py:154-165 | a pattern without wildcards ignores a path if and only if it is the path, a directory path above it, or the name of a directory on the way |
| GlobMatch.CoversBelow | dockerls/infrastructure/hashing.py:154-165 | a pattern that covers a path covers everything below it, whichever of its four tests covered it |
| GlobMatch.IgnoredBelow | dockerls/infrastructure/hashing.py:97-104 | an ignored directory has every path below it ignored |
| GlobMatch.IgnorePatterns | dockerls/infrastructure/hashing.py:139-151 | a pattern is in force exactly when some line that is not blank, a comment or a re-inclusion says it, up to slashes at the end |
| GlobMatch.StripSlashesIs | dockerls/infrastructure/hashing.py:150 | exactly the slashes at the end of a line are taken off |
| GlobMatch.SlashesIgnoreNothing | dockerls/infrastructure/hashing.py:150-165 | a line holding only a slash ignores no path |
| ContextDigest.NothingKeptBelow | dockerls/infrastructure/hashing.py:97-104 | filtering the full walk keeps no file of an ignored directory |
| ContextDigest.Walk | dockerls/infrastructure/hashing.py:87-136 | the pruned stack walk returns exactly the sorted list of the files a full walk followed by filtering would return: in order of path, a file if and only if the tree holds it and no pattern matches it or a directory on the way |
| ContextDigest.WalkChildren | dockerls/infrastructure/hashing.py:117-130 | one directory's entries are filed, pushed or dropped so that files plus what the stack still holds stays what the full walk keeps |
| ContextDigest.AllFilesAreThere | dockerls/infrastructure/hashing.py:106-130 | the full walk lists a file under a path exactly when the tree holds it there through readable directories |
| ContextDigest.AllFilesAreDistinct | dockerls/infrastructure/hashing.py:106-130 | no path is listed twice |
| ContextDigest.KeptIsKeptAt | dockerls/infrastructure/hashing.py:87-136 | the kept files are, path by path, those present and neither matched by a pattern nor below a directory that is |
| ContextDigest.PlainPatternsKeep | dockerls/infrastructure/hashing.py:87-165 | with patterns without wildcards: a file is kept if and only if the tree holds it and no pattern names it, a directory path above it, or a directory on the way |
| ContextDigest.FrameIsInjective | dockerls/infrastructure/hashing.py:79-82 | path, NUL, fixed-width digest and newline can be read back off the front of a stream |
| ContextDigest.FrameLayout | dockerls/infrastructure/hashing.py:79-82 | a frame is the path, a NUL, the digest and a newline |
| ContextDigest.StreamIsInjective | dockerls/infrastructure/hashing.py:69-82 | equal streams come from equal lists of files |
| ContextDigest.HashContext | dockerls/infrastructure/hashing.py:57-84 | refuses exactly the contexts over the file limit; otherwise hashes the stream of the sorted kept files and returns their number |
| ContextDigest.StreamIdentifiesContext | dockerls/infrastructure/hashing.py:57-136 | two contexts give the same stream if and only if they keep the same file at every path: listing order and ignored content cannot show |
| FleetWalk.ListingOrderIsIrrelevant | dockerls/application/use_cases/fleet_scan.py:195-231 | the Dockerfiles of a tree do not depend on the order directories are listed in |
| FleetWalk.OrderIsComplete | dockerls/application/use_cases/fleet_scan.py:195-231 | a visit that meets nothing too deep and nothing unreadable has met every Dockerfile outside skipped and symlinked directories |
| FleetWalk.OrderIsReal | dockerls/application/use_cases/fleet_scan.py:195-231 | cut off or not, a visit meets no Dockerfile the tree does not hold, and none too often |
| FleetWalk.DockerfilesAreDistinct | dockerls/application/use_cases/fleet_scan.py:195-231 | no path is there twice |
| FleetWalk.Walk | dockerls/application/use_cases/fleet_scan.py:195-231 | the result is the first files met up to the cap, sorted; all of them are there and none twice; the flag is raised exactly when the tree has an enterable directory too deep or a file met was over the cap; without flag and blocked directory the result is every Dockerfile there is |
| FleetWalk.TooDeepIff | dockerls/application/use_cases/fleet_scan.py:207-210 | the depth cap cuts a visit off exactly when some chain of listed directories that are entered goes further down than it allows |
| FleetWalk.Descend | dockerls/application/use_cases/fleet_scan.py:205-229 | the stack loop meets entries in exactly one order, missing and repeating none |
| FleetWalk.ListChildren | dockerls/application/use_cases/fleet_scan.py:216-229 | one directory's entries in name order: files taken up to the cap, directories stacked so that they come up next in reverse |
| FleetWalk.ChildrenAreInOrder | dockerls/application/use_cases/fleet_scan.py:210 | the order a directory is gone through in is that of its names |
| FleetWalk.RelativeTextIsRead | dockerls/application/use_cases/fleet_scan.py:188-192 | the text of an unreadable directory tells its path component by component, and is a dot for the root |
| RateLimit.RateLimiter.constructor | dockerls/utils/rate_limit.py:47-57 | starts full, with the burst or else the rate as its capacity |
| RateLimit.RateLimiter.Attempt | dockerls/utils/rate_limit.py:67-79 | one locked attempt: refill up to capacity, then take a token or compute the wait for the missing part |
| RateLimit.RateLimiter.Acquire | dockerls/utils/rate_limit.py:59-81 | with capacity at least one a lone caller is granted after at most one sleep, which takes the computed wait, up to a tenth more by jitter, and what the wake-up is late |
| RateLimit.WaitIsEnough | dockerls/utils/rate_limit.py:72-81 | a caller that sleeps the computed wait finds a token |
| RateLimit.NothingIsEverGranted | dockerls/utils/rate_limit.py:47-81 | a bucket that cannot hold a whole token never grants, in any run |
| RateLimit.ServedIffCapacity | dockerls/utils/rate_limit.py:47-81 | a caller can be served at all if and only if the capacity is at least one |
| RateLimit.AfterIsBounded | dockerls/utils/rate_limit.py:67-73 | after any attempts of any callers the tokens lie between zero and the capacity |
| RateLimit.Conservation | dockerls/utils/rate_limit.py:67-75 | tokens granted plus tokens left never exceed tokens at the start plus the refill |
| RateLimit.ExactBalance | dockerls/utils/rate_limit.py:67-75 | tokens at the start plus the refill are exactly what was granted, what is left, and what the capacity cut off |
| RateLimit.BurstTakesWholeTokens | dockerls/utils/rate_limit.py:67-75 | attempts at one moment are granted exactly as many whole tokens as there are, and leave the rest |
| RateLimit.RunsCompose | dockerls/utils/rate_limit.py:59-81 | grants of a run are grants of its first part plus grants of the rest from where that left the bucket |
| RateLimit.WindowBudget | dockerls/utils/rate_limit.py:47-81 | in any run and any window of it, at most capacity plus refill over the window is granted |
| RateLimit.CircuitBreaker.IsOpen | dockerls/utils/rate_limit.py:106-109 | open exactly when the calls since the last success reach the threshold and the last failure is less than a cooldown ago |
| RateLimit.CircuitBreaker.RecordSuccess | dockerls/utils/rate_limit.py:120-122 | keeps the state a function of the calls so far |
| RateLimit.CircuitBreaker.RecordFailure | dockerls/utils/rate_limit.py:124-130 | keeps the state a function of the calls so far; a further failure restarts the cooldown |
| RateLimit.OneSuccessCloses | dockerls/utils/rate_limit.py:120-130 | whatever happened before a success is forgotten |
| SingleFlight.InvKept | dockerls/utils/single_flight.py:47-79 | every step of every caller, the work or the event loop keeps the protocol's invariant |
| SingleFlight.OneUnfinishedPerKey | dockerls/utils/single_flight.py:47-54 | in every run two unfinished computations have different keys |
| SingleFlight.WaitersAreCounted | dockerls/utils/single_flight.py:55-58 | the waiter count of a flight is the number of callers suspended on it |
| SingleFlight.OneCallerPerFlightIsUnshared | dockerls/utils/single_flight.py:48-57 | every flight has exactly one caller that is told its result is not shared |
| SingleFlight.SameOutcomeForAll | dockerls/utils/single_flight.py:56-68 | callers of one flight that receive an outcome receive the same one |
| SingleFlight.CancelledOnlyUnwaited | dockerls/utils/single_flight.py:58-68 | work is first cancelled at an instant when its last waiter has just left |
| SingleFlight.StopReachesWaitersIff | dockerls/utils/single_flight.py:58-68 | a request to stop, first or repeated, finds somebody waiting if and only if it is a repeated one and a caller that joined too late still waits |
| SingleFlight.CallbackRemovesItsOwnFlight | dockerls/utils/single_flight.py:70-79 | when a done-callback runs the table holds its own flight: it never removes a newer one |
| SingleFlight.NothingLeftBehind | dockerls/utils/single_flight.py:40-79 | with nobody suspended and no callback due, nothing runs and the table is empty |
| SingleFlight.ForeignCancellation | dockerls/utils/single_flight.py:58-75 | a caller gets a cancellation it did not ask for exactly when it joined work already cancelled, unless the work stopped itself |
| SingleFlight.JoinedTooLate | dockerls/utils/single_flight.py:66-75 | a run in which cancelled work has a waiter: a caller that joined too late |
| SingleFlight.OthersCanBeCancelled | dockerls/utils/single_flight.py:58-68 | a run in which a caller that never left receives the cancellation of work others gave up |
| SingleFlight.SecondRequestReachesWaiters | dockerls/utils/single_flight.py:58-68 | a run in which a repeated request to stop reaches work somebody waits for |
| SingleFlight.FlightTable.Enter | dockerls/utils/single_flight.py:47-57 | joining or starting a flight is the protocol's step |
| SingleFlight.FlightTable.Leave | dockerls/utils/single_flight.py:58-67 | leaving, and cancelling when last, is the protocol's step |
| SingleFlight.FlightTable.Deliver | dockerls/utils/single_flight.py:56-68 | handing out the outcome is the protocol's step |
| SingleFlight.FlightTable.OnDone | dockerls/utils/single_flight.py:70-79 | the done-callback is the protocol's step |
| Measurement.InvKept | dockerls/application/services/measurement.py:384-530 | every stretch of the service's code keeps its invariant together with the protocol's |
| Measurement.InvHolds | dockerls/application/services/measurement.py:384-530 | the invariant holds after every run |
| Measurement.ScansAreSingleAndCapped | dockerls/application/services/measurement.py:487-530 | in every run at most one scanner call per key is in flight, at most the cap in total, and each began before the limit with at least the least duration of a scan left |
| Measurement.AllowsIff | dockerls/utils/deadline.py:71-78 | a scan may start if and only if there is no limit or its least duration fits before it |
| Measurement.SlotDecides | dockerls/application/services/measurement.py:487-530 | given a slot, work scans, is reported as not started, or is interrupted, exactly by what is left of the budget |
| Measurement.OnlyConfirmedAsksStore | dockerls/application/services/measurement.py:440-449 | in every run only work whose identity was confirmed looks in the store |
| Measurement.OnlyMissesAreScanned | dockerls/application/services/measurement.py:440-470 | in every run work goes to the scanner only after the store had nothing for it, or because its identity was not confirmed |
| Measurement.CountersAreExact | dockerls/application/services/measurement.py:98-106 | scans, cache hits, not started and duplicates are the numbers of pieces of work and returns of their kind, batches included |
| MeasurementCalls.CallInvHolds | dockerls/application/services/measurement.py:384-417 | the callers of the flight table are the calls that fly, one for one |
| MeasurementCalls.CallHasItsCase | dockerls/application/services/measurement.py:384-417 | a call that flies has one caller to itself; handed a measurement it is exactly one of duplicate, cache hit, scanned, not started, refused or interrupted, as its own or the shared work ended; whoever left, was cancelled or raised past is none |
| MeasurementCalls.CallsAreCounted | dockerls/application/services/measurement.py:384-530 | each counter is the number of calls of its case, batches included, plus the work whose starting call has not been answered, and for scans the work still storing or failed after its scan |
| MeasurementCalls.UnclaimedIff | dockerls/application/services/measurement.py:411-417 | work counts without a call exactly while the call that started it waits, or if it gave up |
| Measurement.PrefillsAreHandedOutOnce | dockerls/application/services/measurement.py:398-407 | each prefilled measurement is handed out once, as it was put, under its key, and is there until then |
| Measurement.FinishedStays | dockerls/application/services/measurement.py:402-416 | once a measurement is remembered no step forgets it or starts work for its key |
| MeasurementAnswers.AnswersAreGenuine | dockerls/application/services/measurement.py:398-417 | in every run whatever is remembered for a key, or answered from memory, is what a flight of that key ended with or what was handed out for it from a batch |
| MeasurementAnswers.RemembersExactly | dockerls/application/services/measurement.py:402-417 | a step remembers the measurement the work ended with, for whoever resumes or joins it done, or the one a batch put in place; no other step changes what is remembered |
| MeasurementAnswers.HandedOutWasPrefilled | dockerls/application/services/measurement.py:399-403 | what was handed out from a batch was put in place for that key by a batch |
| Measurement.AtMostOneStrayComputation | dockerls/application/services/measurement.py:402-416 | after a key is remembered no work is added for it, at most one flight of it is unfinished, and over any continuation at most one scanner call for it begins |
| Measurement.ScanAfterFinishedIff | dockerls/application/services/measurement.py:402-530 | after any run that has remembered a key, a scan of it can still start if and only if an unfinished flight of the key has not come to the scanner, enough of the budget is left and the cap is not zero |
| Measurement.SecondScanOfFinishedKey | dockerls/application/services/measurement.py:409-417 | a run in which a scan starts for a key that is already remembered |
| Measurement.Service.Measure | dockerls/application/services/measurement.py:384-411 | the start of a request is one step: mismatch, prefetched, remembered, or joining or starting work; the answer given at once is what was prefetched or remembered for the key |
| Measurement.Service.Resumes | dockerls/application/services/measurement.py:411-417 | a resumed request returns and remembers the measurement its work ended with, and counts a duplicate exactly when it shared it; a failure changes nothing |
| Measurement.Service.ScanBounded | dockerls/application/services/measurement.py:487-530 | taking a slot starts a scan when the budget allows one, else ends the work as not started |
| Prescan.DedupIsInjective | dockerls/application/services/measurement.py:153-155 | joining with the separator loses nothing when no component contains it |
| Prescan.SameKeyIff | dockerls/application/services/measurement.py:363-382 | two requests are one measurement if and only if they are of one kind and agree in manifest and platform; in hint, platform and name; or in reference and platform |
| Prescan.KindsNeverCollide | dockerls/application/services/measurement.py:363-382 | keys of different kinds never become the same text, whatever their components contain |
| Prescan.TextIdentifiesKey | dockerls/domain/value_objects/platform.py:49-58 | with platforms that pass their own check, two requests that are not both hinted have the same text exactly when they have the same key, whatever digests and references hold |
| Prescan.HintedTextsMeetIff | dockerls/application/services/measurement.py:153-155 | two hinted requests have the same text if and only if they have the same key, or one hint continues with the other platform and the other name with a platform of its own |
| Prescan.HintedIsInjective | dockerls/application/services/measurement.py:363-382 | hinted texts identify their keys unless the hint of one and the name of the other hold the separator |
| Prescan.PlainNamesIdentifyKeys | dockerls/utils/validation.py:13-18 | with names that hold no separator, as the admitted image names do, any two requests with legal platforms have the same text exactly when they have the same key, whatever digests, references and hints hold |
| Prescan.HintedTextsCanMeet | dockerls/application/services/measurement.py:153-155 | two requests for one platform with different keys and the same text, a separator in a name and in a hint |
| Prescan.PendingIsFresh | dockerls/application/services/measurement.py:560-593 | a pending key is new, appears once and was not in the store |
| Prescan.EveryRequestIsPlaced | dockerls/application/services/measurement.py:560-593 | no request is forgotten: mismatched, known, stored or pending |
| Prescan.ChunksConcatenate | dockerls/application/services/measurement.py:597-600 | the chunks in order are the pending list, none empty, all but the last of exactly the chunk size and the last no longer; everything in one chunk for size zero; a negative size gives no chunks at all |
| Prescan.ChunkSizeIs | dockerls/application/services/measurement.py:597 | the size asked for unless that is zero; else no cutting without a budget, and twice the concurrency but at least eight with one |
| Prescan.FilledByPosition | dockerls/application/services/measurement.py:627-645 | each key of a chunk gets the result at its own position |
| Prescan.FillAllIsFilled | dockerls/application/services/measurement.py:601-646 | filling chunk by chunk is filling the finished prefix of the pending list at once |
| Prescan.FinishedChunksSurvive | dockerls/application/services/measurement.py:601-646 | when a batch stops early exactly the finished chunks are prefilled, one entry per key, and nothing stored before is lost |
| Prescan.Batch.Select | dockerls/application/services/measurement.py:560-593 | the selection loop yields the pending keys in order and puts the stored ones in place |
| Prescan.Batch.Prescan | dockerls/application/services/measurement.py:539-646 | handles, stops or raises as the first unfinished chunk dictates; exactly the finished chunks are in place, and after an answer of the wrong length also what could be paired with the keys of its chunk |
| ExpiringCache.VersionedKeysDiffer | dockerls/cache/sqlite_cache.py:89-90 | different keys have different rows |
| ExpiringCache.TableHoldsLastWrites | dockerls/cache/sqlite_cache.py:95-157 | over any history a row is the last write to its key, unless a later read or cleanup dropped it |
| ExpiringCache.DroppedIsExpired | dockerls/cache/sqlite_cache.py:95-157 | under a clock that does not go back a dropped row has expired |
| ExpiringCache.CacheRefinesTimedMap | dockerls/cache/sqlite_cache.py:95-157 | under such a clock a read answers the value last set and not since deleted, cleared or expired |
| ExpiringCache.AnyClockIsSafe | dockerls/cache/sqlite_cache.py:95-157 | under any clock an answer is the timed map's or missing, and missing exactly when a read or cleanup saw a later time |
| ExpiringCache.ClockSetBackLosesEntries | dockerls/cache/sqlite_cache.py:98-106 | a history in which setting the clock back loses an entry |
| ExpiringCache.ExtraReadsChangeNothing | dockerls/cache/sqlite_cache.py:95-157 | two histories with the same writes answer alike: inserted reads and cleanups change no later answer |
| ExpiringCache.SQLiteCache.Get | dockerls/cache/sqlite_cache.py:95-106 | answers a live row, deletes a stale one, leaves the rest |
| ExpiringCache.ReadBack | dockerls/cache/sqlite_cache.py:95-106 | under a clock that does not go back, reading the object answers as the timed map of everything done to it |
| ExpiringCache.SQLiteCache.Set | dockerls/cache/sqlite_cache.py:111-130 | replaces the row with a new expiry |
| ExpiringCache.SQLiteCache.Delete | dockerls/cache/sqlite_cache.py:135-139 | removes the row |
| ExpiringCache.SQLiteCache.Clear | dockerls/cache/sqlite_cache.py:144-147 | removes every row |
| ExpiringCache.SQLiteCache.Cleanup | dockerls/cache/sqlite_cache.py:152-157 | removes exactly the expired rows and returns how many |
| ExpiringCache.SQLiteCache.Stats | dockerls/cache/sqlite_cache.py:162-174 | the expired figure is what a cleanup at that instant would remove |
| MeasurementStore.MaterialIsInjective | dockerls/application/services/measurement_store.py:211-213 | registry, repository, digest and platform can be read back from the key material |
| MeasurementStore.ScanKeyIsInjective | dockerls/application/services/measurement_store.py:211-213 | scan rows of different scanners or identities are different rows |
| MeasurementStore.EvalKeyIsInjective | dockerls/application/services/measurement_store.py:445-449 | so are evaluation rows, by scanner, policy and identity |
| MeasurementStore.BarsMixPolicies | dockerls/application/services/measurement_store.py:445-449 | a separator in a scanner's name would let evaluations of different policies share a row |
| MeasurementStore.LayersNeverMeet | dockerls/application/services/measurement_store.py:211-213 | a scan row is never an evaluation row |
| MeasurementStore.ScanRowIsLatest | dockerls/application/services/measurement_store.py:288-337 | over any history a scan row is the record of the last scan stored for that identity and scanner |
| MeasurementStore.LatestRecordHoldsLatestPut | dockerls/application/services/measurement_store.py:288-337 | the record of the last scan stored holds exactly what was put: the whole scan and its own time, the identity, scanner, version, revision and options, when it was stored, and a lifetime that is the shorter one when the revision is unknown |
| MeasurementStore.EvalRowIsLatest | dockerls/application/services/measurement_store.py:491-517 | likewise an evaluation row |
| MeasurementStore.ValidateIsReusable | dockerls/application/services/measurement_store.py:238-286 | a record passes validation exactly when it is reusable: same version and options, complete scan naming the digest, unexpired, revisions known and equal or both unknown and recent |
| MeasurementStore.MissReasonIsTrue | dockerls/application/services/measurement_store.py:238-286 | whatever reason a stored record is refused for is true of it |
| MeasurementStore.EvictedIffSenseless | dockerls/application/services/measurement_store.py:228-236 | a read evicts exactly rows that are no record of this schema and layer |
| MeasurementStore.ScanHitIsLatest | dockerls/application/services/measurement_store.py:215-286 | over any history and any clock a scan hit holds exactly the latest scan put for that identity and scanner, and that scan is good for the reader |
| MeasurementStore.ScanHitIffReusable | dockerls/application/services/measurement_store.py:215-286 | under a clock that does not go back there is a hit if and only if the latest scan put is good for the reader: same version and options, reference naming the digest, within its lifetime, revisions known and equal or both unknown and the scan recent |
| MeasurementStore.EvaluationHitRestsOnScan | dockerls/application/services/measurement_store.py:451-489 | an evaluation hit is the latest for that identity, scanner and policy, and rests on a scan hit with the measurement time it was derived from |
| MeasurementStore.EvaluationHitIff | dockerls/application/services/measurement_store.py:451-489 | under a clock that does not go back there is an evaluation hit if and only if the scan underneath hits and the latest evaluation was derived from it, has not expired and rests on recent threat intelligence |
| MeasurementStore.RoundTrip | dockerls/application/services/measurement_store.py:238-337 | storing a complete scan and reading it within its lifetime hits if and only if the scanner's reference names the digest, and the hit holds exactly what was stored |
| MeasurementStore.Store.GetScan | dockerls/application/services/measurement_store.py:215-236 | reads, validates and evicts what makes no sense, as one step of the history |
| MeasurementStore.Store.PutScan | dockerls/application/services/measurement_store.py:288-337 | writes exactly complete scans of confirmed identities and never raises |
| MeasurementStore.Store.GetEvaluation | dockerls/application/services/measurement_store.py:451-489 | re-reads the scan underneath before it answers, as one step of the history; a read that raises is a miss that leaves the rest alone |
| MeasurementStore.Store.PutEvaluation | dockerls/application/services/measurement_store.py:491-517 | writes the evaluation's row as one step of the history and counts a failed write |
| LineJoining.BlocksAreUnique | dockerls/infrastructure/dockerfile_validator.py:315-343 | there is one way to cut a file into runs of continued lines |
| LineJoining.LineIsInOneBlock | dockerls/infrastructure/dockerfile_validator.py:315-343 | every physical line lies in exactly one of them |
| LineJoining.Join | dockerls/infrastructure/dockerfile_validator.py:301-343 | the loop yields each run's text with the number of its first line, skipping blanks and comments, and loses nothing at the end of the file |
| LineJoining.BlockSaysItsLines | dockerls/infrastructure/dockerfile_validator.py:317-341 | the text of a run has the characters of its lines that are not blank, in order, without the backslashes that continue them |
| LineJoining.LinesStayApart | dockerls/infrastructure/dockerfile_validator.py:319-325 | where two lines of a run meet there is a blank |
| LineJoining.CommentSwallowsBlock | dockerls/infrastructure/dockerfile_validator.py:319-336 | a finished run whose first line has content is parsed exactly when that line is not a comment |
| LineJoining.DirectiveLostBehindComment | dockerls/infrastructure/dockerfile_validator.py:319-336 | a USER directive the parser never sees |
| BoundedNumbers.BoundedInt | dockerls/infrastructure/dockerfile_validator.py:119-136 | refused exactly when the digits, ASCII zeros dropped, are no longer than the maximum and not all decimal; a number exactly when they are as short, all decimal and within the maximum; never more digits than the conversion takes |
| BoundedNumbers.ReadsWhatWasWritten | dockerls/infrastructure/dockerfile_validator.py:119-136 | a number written in decimal is read as itself |
| BoundedNumbers.PlainNumbersAreRead | dockerls/infrastructure/dockerfile_validator.py:119-136 | so do decimal digits of any script that do not begin with a zero of their own |
| BoundedNumbers.AsciiNumbersAreRead | dockerls/infrastructure/dockerfile_validator.py:119-136 | ASCII digit strings of any length give the number they spell exactly when it is within the maximum |
| BoundedNumbers.ForeignZerosHideZero | dockerls/infrastructure/dockerfile_validator.py:119-136 | zeros of another script are not dropped: enough of them make a zero implausible |
| DockerfileStages.UserIsRead | dockerls/infrastructure/dockerfile_validator.py:506-511 | the name is what precedes the first colon; the group is a uid, or refused, exactly as its digits are read |
| DockerfileStages.PlainUserIsRead | dockerls/infrastructure/dockerfile_validator.py:506-511 | an operand without a colon is the name, with no uid |
| DockerfileStages.SuperscriptIsRefused | dockerls/infrastructure/dockerfile_validator.py:506-511 | a USER operand whose group passes the digit test and makes the conversion raise |
| DockerfileStages.StageIsItsOwnSegment | dockerls/infrastructure/dockerfile_validator.py:383-511 | a stage is its own FROM and the last USER before the next; no later directive touches it |
| DockerfileStages.LinkAgrees | dockerls/infrastructure/dockerfile_validator.py:357-371 | one alias is looked up as a build resolves it exactly when the stage names neither itself nor a later stage |
| DockerfileStages.BaseResolvesAsBuilt | dockerls/infrastructure/dockerfile_validator.py:373-381 | the base walk takes a build's way to the external image at its end if and only if no stage on that way names its own alias or a later one |
| DockerfileStages.UserResolvesAsBuilt | dockerls/infrastructure/dockerfile_validator.py:360-371 | then the USER found is the nearest one going up |
| DockerfileStages.ClearChainIsClearToUser | dockerls/infrastructure/dockerfile_validator.py:357-381 | the condition for the base is enough for the USER |
| DockerfileStages.UnsetIffNeverEnds | dockerls/infrastructure/dockerfile_validator.py:373-381 | the base stays unset if and only if every alias on the way leads to a stage, for ever |
| DockerfileStages.ParentsUserIff | dockerls/infrastructure/dockerfile_validator.py:360-371 | for a stage whose parent has a USER: the walk finds the build's USER if and only if the stage has its own or names no stage from itself down |
| DockerfileStages.UserIffLastLink | dockerls/infrastructure/dockerfile_validator.py:360-371 | with every earlier link agreeing: the walk finds the build's USER if and only if the link that leads to it agrees too |
| DockerfileStages.StrayWayCanAgree | dockerls/infrastructure/dockerfile_validator.py:360-371 | five stages on which an earlier wrong turn still comes to the build's USER |
| DockerfileStages.SelfNamedUserIff | dockerls/infrastructure/dockerfile_validator.py:357-371 | for a final stage carrying the name it starts from: the USER found is the build's if and only if it has its own or there is none above |
| DockerfileStages.SelfNamedStageHasNoBase | dockerls/infrastructure/dockerfile_validator.py:357-381 | a final stage carrying the name it starts from has no base, and only its own USER |
| DockerfileStages.NodeAsNode | dockerls/infrastructure/dockerfile_validator.py:357-381 | `FROM node AS node` alone: a build pulls `node`, the parser reports no base |
| DockerfileStages.DockerfileParser.Parse | dockerls/infrastructure/dockerfile_validator.py:301-345 | joining, collecting and resolving compose: it raises exactly when a USER in a stage is refused; else the stages are those of the file's runs, USER and base those of the walks |
| DockerfileStages.DockerfileParser.ReadStages | dockerls/infrastructure/dockerfile_validator.py:383-511 | the loop over directives builds the stages, or raises at the first USER in a stage that is refused |
| DockerfileStages.DockerfileParser.ResolveFinalStage | dockerls/infrastructure/dockerfile_validator.py:347-381 | both loops end on every file and find what the walks find |
| Remediation.MentionedByALine | dockerls/application/use_cases/build_image.py:757-763 | a guard text occurs in a file exactly when it occurs in one of its lines |
| Remediation.InsertInstruction | dockerls/application/use_cases/build_image.py:820-841 | goes before the first USER line, else after the last FROM line, else after the first line |
| Remediation.PlaceIs | dockerls/application/use_cases/build_image.py:820-841 | the line it lands on is the first USER; without one it lands right behind the last FROM, and without that behind the first line |
| Remediation.DirectivesAre | dockerls/application/use_cases/build_image.py:825-836 | a directive is its word in any case with a blank behind it, and not a longer word |
| Remediation.InsertionAddsOneLine | dockerls/application/use_cases/build_image.py:820-841 | the new file's lines are the old ones with the instruction among them |
| Remediation.ReachesFinalStage | dockerls/application/use_cases/build_image.py:820-841 | the patch lands after the last FROM if and only if no USER precedes it |
| Remediation.Derive | dockerls/application/use_cases/build_image.py:735-818 | one round applies exactly the patches the report calls for and the file does not mention, in order |
| Remediation.PatchesAreApplied | dockerls/application/use_cases/build_image.py:735-818 | apk is applied exactly for a fixable system finding on an Alpine base that does not upgrade yet, apt for one on a Debian or Ubuntu base when apk is not due, npm for a finding in it, pip for one in pip, setuptools or wheel |
| Remediation.OpensslOnItsBase | dockerls/application/use_cases/build_image.py:750-776 | a fixable openssl is answered by apk on alpine, by apt on debian, ubuntu and slim, and by nothing on scratch |
| Remediation.RemediationOnlyAdds | dockerls/application/use_cases/build_image.py:735-841 | after any rounds of any one-line patches, striking the patches' lines gives back the original lines in order, and what is struck is one command for each patch applied |
| Remediation.AfterMentions | dockerls/application/use_cases/build_image.py:757-800 | after any rounds a guard occurs exactly when the original had it or an applied command brings it |
| Remediation.SelfGuardedPatchesAreAppliedOnce | dockerls/application/use_cases/build_image.py:757-800 | as long as rounds respect guards, a patch whose command contains its own guard is applied at most once over all rounds |
| Remediation.SystemPatchesAreAppliedOnce | dockerls/application/use_cases/build_image.py:776-793 | the apk, apt and npm patches are each applied at most once over all rounds |
| Remediation.PipIsPatchedEveryTime | dockerls/application/use_cases/build_image.py:795-800 | the pip patch is applied in exactly the rounds whose report names pip, setuptools or wheel, unless the original had the guard |
| RankedSample.SortIsByLevel | dockerls/application/use_cases/build_image.py:1196-1201 | sorting by severity is each level's findings in turn, in the scanner's order |
| RankedSample.EachLevelKeepsWhatFits | dockerls/application/use_cases/build_image.py:1195-1201 | a prefix keeps of each level its first members, as many as better levels leave room for |
| ScanSample.SampleKeepsWhatFits | dockerls/application/use_cases/build_image.py:1172-1201 | so does the report's sample of a hundred |
| ScanSample.SampleShowsTheWorst | dockerls/application/use_cases/build_image.py:1179-1201 | something at or above a level was found if and only if the sample shows something at or above it |
| ScanSample.WhatIsCountedIsShown | dockerls/application/use_cases/build_image.py:1147-1201 | a nonzero count at or above a level has a finding in the sample to name, and conversely |
| ScanSample.ParseTrivy | dockerls/application/use_cases/build_image.py:1094-1117 | each severity is counted as often as the scanner spells it, in any letter case, whatever is left as unknown; the total is the number of findings; fixable ones are those with a fixed version; the sample shows reported findings |
| ScanSample.ParseGrype | dockerls/application/use_cases/build_image.py:1119-1158 | likewise, with negligible findings counted as low and the first fixed version shown |
| BuildPipeline.Remediate | dockerls/application/use_cases/build_image.py:337-404 | the remediation loop computes the recursive account of its rounds |
| BuildPipeline.ScanIsOfLastImage | dockerls/application/use_cases/build_image.py:337-404 | whatever patches the rounds derive: within the round bound, the scan in force is of the image under the tag if and only if nothing was rebuilt or the scan after the last rebuild succeeded |
| BuildPipeline.RunStops | dockerls/application/use_cases/build_image.py:340-405 | every rebuild but the last still found something, and the loop stops only for want of rounds, of findings, or of a patch, file or build to go on with |
| BuildPipeline.HistoryIsOfTheRun | dockerls/application/use_cases/build_image.py:383-398 | the history has one entry for each rebuild that could be scanned, each entry shows what that scan counted, and the figures run unbroken from the first scan to the one in force |
| BuildPipeline.ReportIsOfSample | dockerls/application/use_cases/build_image.py:750-760 | what remediation is given are the sample's packages and fixed versions, in order |
| BuildPipeline.LastImageOnlyAdds | dockerls/application/use_cases/build_image.py:337-404 | the last image's Dockerfile is the original with patch lines added, at least one for each rebuild |
| BuildPipeline.NothingRebuiltIff | dockerls/application/use_cases/build_image.py:346-381 | nothing is rebuilt if and only if no round is allowed or the first one has no file, no patch or no build |
| BuildPipeline.RebuiltImageIsNotWhatWasDigested | dockerls/application/use_cases/build_image.py:300-327 | the image under the tag comes from the digested Dockerfile if and only if no round is allowed or the first one has no file, no patch or no build |
| BuildPipeline.Execute | dockerls/application/use_cases/build_image.py:244-512 | an image is handed to the registry if and only if it was asked for, validated, built, passes the threshold with a scan present, meets the policy, its digested source held and no error came up before; it is the image under the tag; success means exactly that the push went through and nothing raised after it, and the policy exit code exactly that a rule was looked at and not met |
| BuildPipeline.PublishedMeans | dockerls/application/use_cases/build_image.py:244-512 | an image that may be published was validated without errors or by force, built, passed the threshold on a scan that is present, breaks no rule of the policy, and its digested source held, with nothing raised on the way |
| BuildPipeline.NothingElseStops | dockerls/application/use_cases/build_image.py:244-512 | and nothing else stops it |
| BuildPipeline.RebuiltIff | dockerls/application/use_cases/build_image.py:330-405 | the image is rebuilt if and only if remediation and a scan were asked for, the scan found something, a round is allowed and the first one goes through |
| BuildPipeline.PublishedImageWasScanned | dockerls/application/use_cases/build_image.py:384-428 | with a threshold the image published is the one gated if and only if the scan after the last rebuild succeeded |
| BuildPipeline.StaleScanIsTrusted | dockerls/application/use_cases/build_image.py:384-386 | a run that publishes a rebuild nobody scanned |
| Sorting.LeqStringIff | dockerls/application/use_cases/fleet_scan.py:210 | the order of names: a prefix first, else the smaller character where two names first differ |
| Sorting.LeqPathIff | dockerls/infrastructure/hashing.py:135 | the order of paths: one above another first, else the smaller name where they first differ |
| Text.StripIs | dockerls/infrastructure/dockerfile_validator.py:329 | stripping takes the blanks off both ends and nothing else |
| Text.CaseFolding | dockerls/application/use_cases/build_image.py:1133 | folding case pairs the letters of the alphabet and leaves other characters alone |

## Left out

- The hash itself, UTF-8 encoding and files that cannot be read while being hashed: file digests are strings of fixed width.
- Names with NUL or slash, or twice in one directory, which a file system does not produce; symlink races.
- Other line separators than newline, other blanks than space, tab, newline and carriage return, and letter case outside ASCII.
- The digit tables of a particular Unicode version: which characters are digits, and which decimal, is a parameter with the facts all versions share.
- The regular expressions that recognise Dockerfile directives: what they make of a logical line is a parameter of `Parse`; the other directives and the rule checks are not part of this model.
- Rounding: rates, clocks and lifetimes are real numbers.  Negative or zero rates and periods, which the limiter's constructor refuses, are preconditions.
- Fairness among callers of the rate limiter: a caller that finds the token gone tries again; how often is not bounded.
- RateLimit.RateLimiter.Acquire: stated for one caller between whose attempts nobody else comes; under contention the budget results are what holds.
- Which directory names are skipped and which file names count as Dockerfiles: the search is proved for any choice of both.
- Reading the fleet's files once found, and the report on them.
- DockerfileStages.UserResolvesAsBuilt: one way only; after a wrong turn further from the USER the walk may still come to it by other stages (`StrayWayCanAgree`), and when it does is not characterised.  The exact cases are a wrong turn right before the USER (`UserIffLastLink`) and a final stage that names itself (`SelfNamedUserIff`).
- Building Python objects from YAML nodes: the constructed value is an arbitrary answer.
- The identity and readiness flights of the measurement service, provenance texts, and prescan running while single measurements do: a batch is one atomic fill in the service's model.
- `resolve` answers, `scan_batch` answers and engine errors: arbitrary.
- The mapping and facts layers of the measurement store and its list of diagnostics; an eviction that itself fails; the clock is read once per operation; a digest is only required to have its width.
- Scanner names and policies with the separator in them, and writes of the rest of the application to the store's own rows: the histories of the store have neither.
- Docker, Trivy, Grype, threat intelligence and the registry: success, failure and reports are arbitrary; argument lists, logs, redaction and timeouts are not part of this model.
- Gate and policy evaluation, and merging the policy's threshold with the command line's: arbitrary functions of the scan and the digests.
- Remediated files are read back as they were written; the hardened template and provenance archive are not part of this model.
- Attribution of findings, summaries and report rendering.
- The event loop's scheduling order, beyond a waiter resuming after the done-callback that was registered before it: steps are interleaved arbitrarily.
- `Deadline.cap` and `run_within` as functions of their own: preparing, scanning and batches may be interrupted at any time, and only the check before a scan looks at the clock.
