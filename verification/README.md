# Models of the build, CI and debugging logic

This project states, as Dafny models with machine-checked proofs, what the repository's stateful scripts guarantee.
Each module follows one component.

| module | component |
|---|---|
| `Cidr`, `Reservation` | choosing a free IPv4 block (section 3.1 of RFC 4632) and reserving it under a lock directory shared by any number of processes |
| `Scheduler` | the rolling scheduler of end-to-end cases with model capacities, exclusive locks and a bound on workers |
| `QuestionDriver`, `QuestionWitnesses`, `Conversation` | the simulated user that answers clarifications from supplied facts only, and the conversation it remembers |
| `Extras` | the dependency closure in which packages are taken again when their extras grow |
| `ChunkedScan`, `Handoff`, `Materialize` | release tooling: the artifact scanner, the signing handoff archive, the copy that materialises links |
| `DraftCache` | the fingerprint cache of model responses |
| `SseStream`, `Dedup`, `ExecutionTree` | the debugger: splitting an event stream (section 9.2.5 of the WHATWG HTML Standard), removing repeated events, building the execution tree |

`Wrappers` holds `Option` and `Result`. `dafny verify dfyconfig.toml` checks everything.

Everything outside the program's control is arbitrary: the order in which processes step and fail, which futures
complete, how reads split a stream or a file, what the language model and the fact resolver reply, what a marker,
digest, fingerprint, parser or regular expression computes. A theorem about a run is a theorem about every such choice.

Loops of the source are methods with loops, proved against a function that states the result independently of the
loop (`Kept`, `Run`, `Runs`, `Walk`, `Split`, `IdealRun`, `AbsorbAll`, ...). The conversation and the execution tree,
which the source updates in place, are classes whose invariant ties their fields to the whole history.

## What turned out differently from what one would expect

- The dependency closure need not be the least closed map: a package stays when its requirement applied before an extra
  was requested and no longer does. `Extras.PersistentIffEndsLeast` shows that it is the least map on every graph and in
  every order of work exactly when a marker that holds without extras holds with every extra.
- A CR LF pair that falls between two reads is counted as two line ends. `SseStream.SplitAsWholeIffNoCut` shows that
  the blocks are those of the whole stream exactly when no pair is cut.
- Two envelopes with one key inside a single row both survive deduplication. `Dedup.DistinctIffNoRowRepeats` gives the
  exact condition.
- A row that is reduced to some of its envelopes may not yield them again. Then a restored session can forget a key
  (`Dedup.BareEnvelopeIsForgotten`), one key can occur in two kept rows, and a second pass can drop a row
  (`Dedup.WrappedEnvelopeComesBack`). The kept rows carry exactly the survivors, at every moment, exactly when whatever
  remains of a reduced row is an envelope by itself (`Dedup.CarriesAllIff`); a second pass changes nothing exactly when
  no key occurs in two kept rows (`Dedup.KeptIsIdempotent`); and `Dedup.ResumesIffKeysAreKept` says exactly when a
  restored session goes on as before.
- A build path longer than the overlap can fall between two windows (`ChunkedScan.LongBuildPathIsMissed`); up to 513
  bytes it cannot.
- Only the first ten missing fields, in sorted order, are looked at (`QuestionDriver.ConsideredIff`). A question is
  answered although its zone is missing when ten other missing fields come first (`QuestionWitnesses.LongListHidesZone`).
- An answer can state a field and also say that it is undecided (`QuestionWitnesses.NoticeContradictsFact`), and it can
  state an identity and also say that it comes later (`QuestionWitnesses.DeferralContradictsFact`).
  `QuestionDriver.NoticeIsStaleIff` and `QuestionDriver.DeferralIsStaleIff` give the exact conditions on the question,
  the facts and the replies.
- An envelope without coordinates goes to the last step even when that belongs to another pipeline
  (`ExecutionTree.StrayEnvelope`). `ExecutionTree.UnderOwnPipelineIff` says exactly when it is shown below its own.
- A chunk's prompt keeps the original key order while its fingerprint sorts the keys. The cache is transparent exactly
  when chunks with one id and fingerprint get responses that parse alike up to the final sort
  (`DraftCache.TransparentIffFingerprintSuffices`).
- An empty pin passes the scheduler's validation but still pins the case, to a model with an empty name
  (`Scheduler.EmptyPinStrays`). `Scheduler.PlacedInPoolIff` says exactly when every case stays on its own pool.
- A process that dies while it holds the lock leaves the lock directory behind for good: nobody gets the lock any more
  and the registry stays as it is (`Reservation.AbandonedLockStays`). Safety does not suffer, and once everybody has
  come to an end the lock is free exactly when nobody abandoned it (`Reservation.LockIsFreeAtTheEnd`).

## Model

| member | source | states |
|---|---|---|
| `Reservation.ReservationsAreSafe` | scripts/e2e_question_driver.py:792-838 | After every interleaving of any number of processes, including ones that give up, fail or are killed anywhere: a returned subnet lies in its network, avoids the caller's occupied blocks and, under a registry, is recorded there; recorded blocks of one VPC are pairwise disjoint; no two processes hold the lock, and no two callers of one VPC get overlapping subnets |
| `Reservation.UndisturbedReservation` | scripts/e2e_question_driver.py:803-838 | A process that finds the lock free and is not disturbed returns what the choice against the recorded blocks gives, which `Cidr.ChooseIsFirstFree` pins down, appends exactly that block, and leaves the lock free and everybody else alone |
| `Reservation.StepKeepsInv` | scripts/e2e_question_driver.py:806-838 | Every step of every process keeps mutual exclusion, the registry's disjointness, the freshness of what a holder read and the validity of every grant, and the registry is only ever appended to |
| `Reservation.Run` | scripts/e2e_question_driver.py:803-838 | The invariant holds after any finite run, and the final registry extends the initial one entry by entry; an unreadable registry or entry is never overwritten |
| `Reservation.OnlyHolderReleases` | scripts/e2e_question_driver.py:836-838 | Although the lock directory records no owner, only the process that holds it removes it |
| `Reservation.LockIsFreeAtTheEnd` | scripts/e2e_question_driver.py:806-838 | When every process has come to an end, the lock directory is gone exactly when none abandoned it |
| `Reservation.AbandonedLockStays` | scripts/e2e_question_driver.py:806-838 | Once a process has died holding the lock, every later run keeps the lock taken, lets nobody else hold it, leaves the registry alone, and everybody still waiting goes on waiting or fails |
| `Reservation.KilledHolderBlocks` | scripts/e2e_question_driver.py:806-838 | Killing the holder at any moment blocks everybody else for good |
| `Reservation.StepKeepsLock` | scripts/e2e_question_driver.py:806-819 | The directory exists exactly while one process is between making and removing it |
| `Reservation.ReadIsCurrent` | scripts/e2e_question_driver.py:822-829 | A block chosen after reading the registry is usable and disjoint from every block recorded for the VPC; corrupt data and exhaustion lead to the cleanup |
| `Reservation.ReplaceAppends` | scripts/e2e_question_driver.py:829-834 | Replacing the file records the chosen block, keeps every earlier record and keeps the blocks disjoint |
| `Reservation.ChosenAvoidsGranted` | scripts/e2e_question_driver.py:822-834 | A block about to be recorded is disjoint from every block already granted in its VPC |
| `Reservation.DirectIsUsable` | scripts/e2e_question_driver.py:800-801 | Without a registry the call raises exactly for networks of length 25 to 31 and otherwise returns the choice, which lies in the network and avoids the occupied blocks |
| `Cidr.OverlapIsNesting` | scripts/e2e_question_driver.py:795-798 | The end-point test for overlap holds exactly when the blocks share an address, and exactly when one contains the other; it is symmetric |
| `Cidr.ChooseIsSound` | scripts/e2e_question_driver.py:795-798 | The choice raises exactly for networks of length 25 to 31, returns a block inside the network that is free of all taken blocks, prefers the desired block when it is free, and returns none exactly when every candidate collides |
| `Cidr.ChooseIsFirstFree` | scripts/e2e_question_driver.py:795-798 | When the desired block is outside the network or taken, the result is the block at base + 256 * i for the least free i below min(256, 2^(24-p)), and none exactly when there is no such i; a /32 network offers itself alone |
| `Cidr.ChooseIsComplete` | scripts/e2e_question_driver.py:795-798 | Fewer than min(256, 2^(24-p)) taken blocks of length at least 24 cannot exhaust a /p network |
| `Cidr.FirstFreeIsFirst` | scripts/e2e_question_driver.py:795-798 | Every candidate before the chosen one is taken |
| `Cidr.CoverBound` | scripts/e2e_question_driver.py:795-798 | Each taken block spoils at most one candidate |
| `Cidr.Slash24sInside` | scripts/e2e_question_driver.py:796 | The candidates are the first 256 aligned /24 blocks, all inside the network |
| `Scheduler.ScheduledCases` | scripts/ci/model_pool.py:47-96 | Which refusal is raised and when; "no model capacity" exactly when some case can never be served; exactly the servable cases are yielded, each as often as submitted and, unless an empty pin strays, on a model of its pool; with one worker they are yielded in the order in which they were submitted; the waits divide the yields into batches that were running at their wait, every refill goes through the pending cases in order, starting from what the wait before it left, each wait is maximal, and the invariant holds at every wait and yield, whatever completes |
| `Scheduler.RunAll` | scripts/ci/model_pool.py:59-96 | The loop terminates with measure 2 * pending + running, yields exactly the servable cases, and each pass starts cases in order |
| `Scheduler.Refill` | scripts/ci/model_pool.py:62-86 | One pass leaves either all workers busy or only cases that have to wait; those it starts and those it leaves keep their order, and when a case is started every earlier one that stays pending has to wait next to those running then; no case is lost or duplicated |
| `Scheduler.OvertakenStarts` | scripts/ci/model_pool.py:62-86 | A case that is started overtakes only cases that have to wait |
| `Scheduler.BlockedIsWaits` | scripts/ci/model_pool.py:65-78 | In every reachable state a case is passed over exactly when its lock is held by a running case or every model it may use, its pin or else its pool, runs as many cases as its capacity, at most two for the diagnosis model |
| `Scheduler.OneStarts` | scripts/ci/model_pool.py:62-86 | With one worker and nothing running, a pass starts the first pending case |
| `Scheduler.OneWorkerKeepsOrder` | scripts/ci/model_pool.py:61-96 | With one worker and a model for every case the cases are yielded in the order in which they were submitted |
| `Scheduler.Round` | scripts/ci/model_pool.py:61-96 | One refill, one wait for an arbitrary non-empty set and its draining keep everything conserved and shrink the measure |
| `Scheduler.Drain` | scripts/ci/model_pool.py:89-96 | Exactly the completed futures leave, in any order, with the invariant at each yield |
| `Scheduler.DispatchKeepsInv` | scripts/ci/model_pool.py:65-86 | Starting a case keeps exact per-model counts within capacity, exact lock ownership, the worker bound and conservation, and unblocks nothing |
| `Scheduler.CompleteKeepsInv` | scripts/ci/model_pool.py:89-96 | Completing any future keeps the same invariant and moves its case to the yielded ones |
| `Scheduler.DispatchPlacement` | scripts/ci/model_pool.py:67-82 | A case is placed on an allowed model below its limit such that every allowed model with room runs more cases, or as many and was given at least as many before |
| `Scheduler.LeastLoadedIsFirst` | scripts/ci/model_pool.py:79 | Ties go to the earliest model of the pool |
| `Scheduler.YieldedWhenIdle` | scripts/ci/model_pool.py:87-88 | When nothing runs after a refill, the cases left over are exactly the unservable ones |
| `Scheduler.PinsAccepted` | scripts/ci/model_pool.py:50-54 | Pins are refused unless the pool is enabled, the case is live and the model belongs to its pool |
| `Scheduler.PrimeAtMostTwo` | scripts/ci/model_pool.py:75 | At most two cases ever run on glm-5.3-prime |
| `Scheduler.PoolCapacities` | scripts/ci/model_pool.py:69-76 | With disjoint pools every model stays within its own pool's capacity; for a model with an empty name this needs that no empty pin strays |
| `Scheduler.PlacedInPoolIff` | scripts/ci/model_pool.py:50-70 | Every yielded case ran on a model of its own pool exactly when no servable case has an empty pin while its pool has no model with an empty name |
| `Scheduler.EmptyPinStrays` | scripts/ci/model_pool.py:50-70 | A configuration whose empty pin passes validation and places the case outside its pool |
| `Scheduler.WaitedOnceMore` | scripts/ci/model_pool.py:61-96 | One more wait keeps the division of the yields into batches |
| `QuestionDriver.AnswerQuestion` | scripts/e2e_question_driver.py:262-642 | For every helper and resolver: the call is counted, refused when there is nothing but white space and, exactly, when over budget; otherwise the decision is the one spelled out step by step in `Decided`, from the question, the facts and the replies alone: the choice that counts, the first ten missing fields, deferrals, preferences beside the question, both lookups, the three ways to admit an absence, the refusal, and the answer with its facts in order, its option, its notices and its category (the first of VPC, zone and block that it renders, else the goal). Every answer is grounded in known facts and real non-control options that a reply named; with replies that pass the helper's validation no supplied fact changes; every identity among the first ten of the last list consulted is known or deferred, and what that list reports beyond them stays unknown; exactly the stale notices and deferrals contradict the facts; at most four helper and two resolver calls |
| `QuestionDriver.DecisionIsSpelledOut` | scripts/e2e_question_driver.py:281-642 | What the screening and the reply compute is the decision spelled out, with its intermediate plans |
| `QuestionDriver.PreferencesRefusedIff` | scripts/e2e_question_driver.py:416-528 | When only purpose, workload, scale or budget stay missing after both lookups, the call is refused exactly when no real option covers them and the question mentions something required or a secret, names an identity that is neither known nor put off, or allows no text, or the goal is unknown, the detail is specific, or the selection is not of known facts |
| `QuestionDriver.StationsPass` | scripts/e2e_question_driver.py:319-414 | Each step before the verdict, from the list of missing fields through deferrals, unrelated preferences and both lookups, changes exactly what is spelled out for it |
| `QuestionDriver.CountingPrevails` | scripts/e2e_question_driver.py:281-310 | The second opinion replaces the first exactly when that one lists something unknown and the second selects known facts and lists strings |
| `QuestionDriver.ConsideredIsAgenda` | scripts/e2e_question_driver.py:321-322 | The fields looked at are the unknown ones, under their own name or as "other", each once, in order, cut after ten |
| `QuestionDriver.SortedIsAlphabetical` | scripts/e2e_question_driver.py:321-322 | The order of the names is the alphabetical order of their spellings |
| `QuestionDriver.DeferSpelledOut` | scripts/e2e_question_driver.py:323-349 | Exactly the declared, unknown VPC and zone leave the list when free text is allowed; those missing or asked for are announced, and if one was missing all facts are restated without an option |
| `QuestionDriver.OpenSpelledOut` | scripts/e2e_question_driver.py:352-370 | Exactly the preferences that a grounded question is not about become undecided; workload counts as purpose, and a prefix is related to a block |
| `QuestionDriver.IdentifySpelledOut` | scripts/e2e_question_driver.py:375-399 | If only "other" is missing, exactly the uncovered VPC and zone that the question names are looked up; what is offered joins the facts, and then a convincing review replaces choice and list |
| `QuestionDriver.EnquireSpelledOut` | scripts/e2e_question_driver.py:400-414 | The missing fields with an offered value become facts and are selected in addition, the others stay missing |
| `QuestionDriver.MayAdmitIff` | scripts/e2e_question_driver.py:416-486 | The exact conditions for admitting an absence: a real option, preferences only, or an unnamed detail only |
| `QuestionDriver.Session` | scripts/e2e_question_driver.py:270-275 | Over any run of calls at most twelve answers, and at most three to one question |
| `QuestionDriver.Decide` | scripts/e2e_question_driver.py:281-642 | The decision after the budget check, with the same guarantees about the last list consulted and the exact condition for a refusal because of missing facts |
| `QuestionDriver.Prepare` | scripts/e2e_question_driver.py:281-528 | After choosing and screening, every identity considered from the last list consulted is settled, and what goes into the answer is the outcome of the screening |
| `QuestionDriver.NoticeIsStaleIff` | scripts/e2e_question_driver.py:364-412 | A known field is reported as undecided exactly when it was dropped as unrelated, the accepted identity review lists it among its first ten, and the resolver then has a usable value for it |
| `QuestionDriver.DeferralIsStaleIff` | scripts/e2e_question_driver.py:323-412 | A known identity is announced for later exactly when it was put off, the accepted identity review lists it among its first ten, and the resolver then has a usable value for it |
| `QuestionDriver.SuppliedIsKept` | scripts/e2e_question_driver.py:242-245 | When the replies name missing fields as the helper's validation demands, every supplied fact is still there in the end, unchanged |
| `QuestionDriver.PassedOverStaysUnknown` | scripts/e2e_question_driver.py:321-414 | A field that the last list reports beyond its first ten stays unknown |
| `QuestionDriver.UnanswerableIff` | scripts/e2e_question_driver.py:400-528 | The screening leaves fields over exactly when some stay missing after both lookups and none of the three conditions admits them |
| `QuestionDriver.ChooseFacts` | scripts/e2e_question_driver.py:281-310 | The helper is asked again exactly when it claims that something unknown is missing, and only an acceptable second choice replaces the first |
| `QuestionDriver.Screen` | scripts/e2e_question_driver.py:319-528 | Screening answers only when every missing identity has become a fact or was deferred by the user |
| `QuestionDriver.OpenedOk` | scripts/e2e_question_driver.py:321-370 | Before any lookup only preferences that the question is not about are admitted as undecided |
| `QuestionDriver.DeferKeepsPlan` | scripts/e2e_question_driver.py:323-349 | Exactly the declared, still unknown identities that are missing or asked for are deferred |
| `QuestionDriver.DropKeepsPlan` | scripts/e2e_question_driver.py:352-370 | Exactly the unrelated preferences are admitted, and only for a grounded, non-mandatory question |
| `QuestionDriver.LookUpIdentities` | scripts/e2e_question_driver.py:375-399 | The lookup happens exactly when only an unnamed detail is missing and the question names an uncovered identity; the helper is asked again exactly when something was found, and its choice counts exactly when acceptable |
| `QuestionDriver.LookUpKeepsPlan` | scripts/e2e_question_driver.py:400-414 | A lookup makes known exactly the listed fields with a usable reply and leaves exactly the others on the list |
| `QuestionDriver.LookupEnriches` | scripts/e2e_question_driver.py:379-406 | Whatever the resolver replies, only requested, non-blank values for missing fields become facts |
| `QuestionDriver.AdmitAbsencesKeepsPlan` | scripts/e2e_question_driver.py:416-486 | Fields are admitted as undecided all together or not at all, exactly under one of three conditions, and never when the question needs them |
| `QuestionDriver.AdmitIsAllowed` | scripts/e2e_question_driver.py:416-486 | Each of the three ways to admit an absence implies that the question leaves room for it |
| `QuestionDriver.ReplyInText` | scripts/e2e_question_driver.py:529-634 | The text answer that the basis calls for: facts in order after the goal, the option exactly when it is backed and no control, the notices, the category; one parameter at a time when asked so; refused exactly without facts or without the parameter |
| `QuestionDriver.NarrowParameters` | scripts/e2e_question_driver.py:573-608 | What remains, in order: everything but the other parameter, with the requested one added at the end if it was not selected; the request comes from the options, else, with several selected, from the question, else from a review that names one known parameter and misses nothing; refused exactly when none is singled out or it is unknown |
| `QuestionDriver.OneParameterIff` | scripts/e2e_question_driver.py:589-602 | The review singles out a parameter exactly when it misses nothing, selects known facts only and names that parameter once and no other |
| `QuestionDriver.ReplyByOption` | scripts/e2e_question_driver.py:539-642 | An option is returned exactly when the choice or its review names a real non-control option backed by known facts, and it is that option |
| `QuestionDriver.ReviewOption` | scripts/e2e_question_driver.py:549-567 | A review is accepted exactly when it selects known facts, reports nothing unknown and names an existing option |
| `QuestionDriver.GoalComesFirst` | scripts/e2e_question_driver.py:609-628 | When a goal is known the answer opens with it, unchanged |
| `QuestionDriver.ClausesAreAll` | scripts/e2e_question_driver.py:609-628 | The answer holds every rendered fact, the option, the notice of what is undecided and that of what comes later, in this order, each clause once |
| `QuestionDriver.ClausesAreGrounded` | scripts/e2e_question_driver.py:609-628 | Every clause of an answer is a known fact, the chosen option, or one of the two fixed notices |
| `QuestionDriver.ConsideredIff` | scripts/e2e_question_driver.py:321-322 | A missing field is looked at exactly when fewer than ten missing fields sort before it |
| `QuestionDriver.UpToTenAllConsidered` | scripts/e2e_question_driver.py:321-322 | With at most ten missing fields none is passed over |
| `QuestionDriver.TenWhenPassedOver` | scripts/e2e_question_driver.py:321-322 | When a reported field is not looked at, exactly ten different ones are, and the zone is not among them |
| `QuestionWitnesses.LongListHidesZone` | scripts/e2e_question_driver.py:321-528 | Every call whose missing zone has ten missing fields before it, all known to the resolver, is answered although the zone is neither known nor deferred |
| `QuestionWitnesses.NoticeContradictsFact` | scripts/e2e_question_driver.py:364-628 | A call whose answer states the region and says that it is undecided |
| `QuestionWitnesses.DeferralContradictsFact` | scripts/e2e_question_driver.py:323-634 | A call whose answer states the VPC and says that it comes later |
| `QuestionDriver.Sum` | scripts/e2e_question_driver.py:273 | The sum of all counts, whatever the order of the map |
| `QuestionDriver.BoundedNext` | scripts/e2e_question_driver.py:272-275 | One more call keeps the bounds on answers, in total and for each question |
| `Conversation.Converse` | scripts/e2e_question_driver.py:63-82 | After any run of goal changes, answers and acknowledgements the stored turns are the last six of the ideal log since the last goal change, flags included |
| `Conversation.QuestionConversation.ChangeGoal` | scripts/e2e_question_driver.py:70-75 | A different goal clears the turns; the result says whether a goal was replaced |
| `Conversation.QuestionConversation.RememberAnswer` | scripts/e2e_question_driver.py:645-648 | The turn is added and at most six remain, in step with the ideal log |
| `Conversation.QuestionConversation.AcknowledgeQuestion` | scripts/e2e_question_driver.py:77-82 | The latest turn with the question is marked, in step with the ideal log |
| `Conversation.WindowOfMarked` | scripts/e2e_question_driver.py:77-82 | Acknowledging commutes with forgetting old turns |
| `Conversation.WindowOfLonger` | scripts/e2e_question_driver.py:645-648 | Forgetting after each answer gives the window of the full log |
| `Conversation.MarkReversed` | scripts/e2e_question_driver.py:79-82 | The backward search marks the latest match and nothing else |
| `Extras.PythonComponents` | desktop/scripts/generate_release_metadata.py:108-150 | Terminates on every dependency graph; the extras form a closed map of shippable packages with exactly their components; a failure says "not installed" exactly for a package without distribution and otherwise that evidence of a licence is missing; with persistent markers the map is the least closed one and the run fails exactly when every closed map needs a package that is not installed or not licensed |
| `Extras.StepDecreases` | desktop/scripts/generate_release_metadata.py:119-149 | Untaken names, untaken name/extra pairs and the queue length decrease lexicographically, also around cycles |
| `Extras.StepKeeps` | desktop/scripts/generate_release_metadata.py:119-149 | Every package not queued has been taken with its current extras, and everything taken is closed |
| `Extras.StepKeepsLeast` | desktop/scripts/generate_release_metadata.py:119-149 | With persistent markers the work stays below every closed map, and a failure names a package every closed map contains |
| `Extras.SoundStep` | desktop/scripts/generate_release_metadata.py:119-149 | A step keeps the worklist invariant; a failing one names a package that cannot be shipped and, with persistent markers, that every closed map contains |
| `Extras.StepComponents` | desktop/scripts/generate_release_metadata.py:137 | The recorded components are those of the taken packages |
| `Extras.EmptyQueueIsClosed` | desktop/scripts/generate_release_metadata.py:118-150 | An empty queue means that the map is closed |
| `Extras.ClosedAtMeans` | desktop/scripts/generate_release_metadata.py:138-144 | A package is closed exactly when each of its requirements without marker, or whose marker holds for one of its extras or, if it has none, for the empty one, is included with its extras |
| `Extras.LeastIsUnique` | desktop/scripts/generate_release_metadata.py:108-150 | There is at most one least closed map |
| `Extras.PersistentIffMonotone` | desktop/scripts/generate_release_metadata.py:138-144 | Requirements are monotone in the extras exactly when their markers are persistent |
| `Extras.RetractedRequirementStays` | desktop/scripts/generate_release_metadata.py:138-149 | For every requirement without a persistent marker there is a graph on which a run keeps its package although no closed map needs it |
| `Extras.PersistentIffEndsLeast` | desktop/scripts/generate_release_metadata.py:138-149 | A requirement's marker is persistent exactly when every run on every graph with that marker ends with the least closed map |
| `Extras.OrderIsIrrelevant` | desktop/scripts/generate_release_metadata.py:108-150 | Whichever queued name is taken at each turn, and however seeds and requirements are ordered, runs that end give the same map, and none fails where another succeeds |
| `Extras.SeedQueue` | desktop/scripts/generate_release_metadata.py:108-114 | The loop over the seeds builds the initial work |
| `Extras.AbsorbRequirements` | desktop/scripts/generate_release_metadata.py:139-149 | The loop over a package's requirements absorbs the applicable ones in order |
| `Extras.Turn` | desktop/scripts/generate_release_metadata.py:119-149 | One turn of the loop is one step of the worklist and records the package it takes |
| `ChunkedScan.ScanArtifactFile` | desktop/scripts/verify_release.py:91-107 | For every split into reads the private-material verdict is that of a whole-file search, and a build path is reported exactly when some window sees one whole |
| `ChunkedScan.ScanPieces` | desktop/scripts/verify_release.py:95-107 | For any markers and any pattern the early exit changes no verdict |
| `ChunkedScan.BuildPathVerdict` | desktop/scripts/verify_release.py:27-31 | A reported build path is in the file; one of at most 513 bytes is reported |
| `ChunkedScan.BuildPathIff` | desktop/scripts/verify_release.py:27-31 | A build path is exactly /Users/ or /home/ or a letter with :\Users\, a non-empty user name without separator, NUL and line ends, and the closing separator |
| `ChunkedScan.MarkersSeenWhole` | desktop/scripts/verify_release.py:20-26 | Every marker occurrence is seen whole by some window |
| `ChunkedScan.WindowSearch` | desktop/scripts/verify_release.py:101-103 | Searching a window finds exactly the matches of the file inside that window |
| `ChunkedScan.WindowIsSlice` | desktop/scripts/verify_release.py:101-106 | A window is a slice of the file that starts 512 bytes before its piece |
| `ChunkedScan.TailOfWindow` | desktop/scripts/verify_release.py:106 | The kept tail depends on what was read, not on how it was split |
| `ChunkedScan.ShortMatchIsSeen` | desktop/scripts/verify_release.py:94-106 | A match of at most 513 bytes is seen whole by the window of the piece with its last byte |
| `ChunkedScan.LongBuildPathIsMissed` | desktop/scripts/verify_release.py:27-31 | A long build path cut after its last segment is in the file and is not reported |
| `ChunkedScan.FindMarker` | desktop/scripts/verify_release.py:102 | Finds whether some marker occurs |
| `ChunkedScan.FindMatch` | desktop/scripts/verify_release.py:103 | Finds whether some substring matches |
| `Handoff.RoundTrip` | desktop/scripts/signing_handoff.py:79-230 | Build, write, verify and extract into an empty tree restores every path, byte, link and regular-file mode when the link targets are relative and free of ".."; otherwise extraction refuses an unsafe link |
| `Handoff.BuiltIsAccepted` | desktop/scripts/signing_handoff.py:79-212 | An archive written from a built manifest is accepted for the same identity and stage |
| `Handoff.VerifyArchive` | desktop/scripts/signing_handoff.py:162-212 | Accepts exactly the archives whose manifest and entries agree, and whose paths are safe |
| `Handoff.AcceptedIsBijection` | desktop/scripts/signing_handoff.py:162-212 | Acceptance means one entry for every record and one record for every entry besides the manifest, with matching size and digest, a known type, a mode within the permission bits and a path of proper names |
| `Handoff.AcceptedManifestFixesContents` | desktop/scripts/signing_handoff.py:162-230 | With a collision-free digest any accepted archive that carries a tree's manifest extracts to that tree, whoever wrote it |
| `Handoff.ExtractRestores` | desktop/scripts/signing_handoff.py:215-230 | Placing the records of a tree one by one restores that tree |
| `Handoff.ExtractArchive` | desktop/scripts/signing_handoff.py:215-230 | The loop makes directories, places every record in order, through links already placed where its path meets them, and stops at the first refusal |
| `Handoff.ExtractionStaysInside` | desktop/scripts/signing_handoff.py:215-230 | Extracting any archive into a destination of proper names without outward links puts every file and link under a path of proper names, hence below the destination, and leaves no outward link |
| `Handoff.ExtractionKeepsTree` | desktop/scripts/signing_handoff.py:215-230 | Extracting any archive into a tree gives a tree: nothing comes below a file or a link, and every link names something |
| `Handoff.ExtractionPersists` | desktop/scripts/signing_handoff.py:215-230 | Nothing disappears, no link changes and no link takes the place of a file |
| `Handoff.PlaceAddsOne` | desktop/scripts/signing_handoff.py:215-230 | A placed record puts the stored bytes in one place: as a link for type "symlink", otherwise as a file with the recorded mode |
| `Handoff.SafeLinkIff` | desktop/scripts/signing_handoff.py:224-226 | A link is refused exactly when its target starts with a slash or reads ".." between slashes |
| `Handoff.OutwardLinkLeadsOut` | desktop/scripts/signing_handoff.py:215-230 | Through an outward link that is already in the destination, a file below it goes outward |
| `Handoff.CreateArchive` | desktop/scripts/signing_handoff.py:131-146 | Writes the manifest and then every recorded file with its bytes or link text, or fails when one is missing |
| `Handoff.ManifestBuiltIff` | desktop/scripts/signing_handoff.py:79-113 | A manifest is refused for its identity exactly when platform, tag, version, commit, stage or publisher do not fit; a built one records every selected file in order with its type and mode |
| `Handoff.ReleaseTagIff` | desktop/scripts/signing_handoff.py:23 | A release tag is exactly "v" and three numbers in decimal form, without leading zeros |
| `Handoff.ReadArchiveManifest` | desktop/scripts/signing_handoff.py:149-159 | Duplicated names, a missing or foreign manifest are refused, and nothing else |
| `Handoff.CheckRecords` | desktop/scripts/signing_handoff.py:190-204 | All records are accepted one by one and their normalised names collected |
| `Handoff.SignTargetsExact` | desktop/scripts/signing_handoff.py:65-76 | The files to be signed are exactly the selected ones with one of the eight known names |
| `Handoff.SafeIffUnderDesktop` | desktop/scripts/signing_handoff.py:40-46 | A clean relative path is accepted, unchanged, exactly when it lies under desktop |
| `Handoff.SafeIff` | desktop/scripts/signing_handoff.py:40-46 | Every string: accepted exactly when it is not absolute, its components start with desktop and none is ".."; the result are its components, all proper names |
| `Handoff.PartIff` | desktop/scripts/signing_handoff.py:40-46 | A name is a component exactly when the path reads it between slashes or ends |
| `Handoff.PartsMeans` | desktop/scripts/signing_handoff.py:40-46 | A path is split at every slash; empty components and "." are dropped |
| `Handoff.PartsOfPosix` | desktop/scripts/signing_handoff.py:40-46 | Joining clean components and splitting again gives them back |
| `Handoff.DistinctByCount` | desktop/scripts/signing_handoff.py:207 | Comparing the length with the size of the set detects duplicates exactly |
| `Materialize.Stage` | desktop/scripts/build_sidecar.py:81-98 | Terminates on every graph, raises exactly when a directory cycle is reachable from the source, and otherwise writes exactly the link-free unfolding |
| `Materialize.WalkReads` | desktop/scripts/build_sidecar.py:81-98 | What stands at each place of the copy: the content that links and placeholders on the way lead to |
| `Materialize.CopyMaterialized` | desktop/scripts/build_sidecar.py:81-98 | The same below given ancestors, leaving everything outside the target as it was |
| `Materialize.TrappedDown` | desktop/scripts/build_sidecar.py:90-95 | A cycle found below an entry is a cycle of the directory |
| `Materialize.TrappedUp` | desktop/scripts/build_sidecar.py:90-95 | A cycle of a directory is found below one of its entries |
| `Materialize.ChildUnfolded` | desktop/scripts/build_sidecar.py:93-96 | Copying one entry unfolds exactly that entry |
| `Materialize.FileUnfolded` | desktop/scripts/build_sidecar.py:97-98 | A copied file is the whole unfolding of a file |
| `DraftCache.TransparentIffFingerprintSuffices` | scripts/rendering/generate_ros_architecture_draft_rules.py:206-225 | Runs from every cache of true responses return the sorted rules and parse errors of a run from the empty cache exactly when id and fingerprint determine how the response parses, up to the order between different sort keys |
| `DraftCache.RunIsDirect` | scripts/rendering/generate_ros_architecture_draft_rules.py:290-325 | A run from a cache of true responses returns the sorted rules and parse errors of asking the model every time |
| `DraftCache.RunAddsUp` | scripts/rendering/generate_ros_architecture_draft_rules.py:305-325 | For any number of chunks the rules are the sorted concatenation of the parsed responses in chunk order, and the parse errors the number of malformed ones |
| `DraftCache.DirectAddsUp` | scripts/rendering/generate_ros_architecture_draft_rules.py:305-325 | The same for asking the model every time |
| `DraftCache.RunKeepsTrueResponses` | scripts/rendering/generate_ros_architecture_draft_rules.py:290-313 | A run leaves a cache of true responses |
| `DraftCache.SecondRunIsFree` | scripts/rendering/generate_ros_architecture_draft_rules.py:290-313 | An immediate second run calls no model exactly when chunks with one id have one fingerprint |
| `DraftCache.NoCallsIffAllHit` | scripts/rendering/generate_ros_architecture_draft_rules.py:290-313 | No model call happens exactly when every chunk hits the initial cache |
| `DraftCache.RunTouchesOnlyItsIds` | scripts/rendering/generate_ros_architecture_draft_rules.py:290-313 | Entries of other chunks are left alone |
| `DraftCache.RunDraftGeneration` | scripts/rendering/generate_ros_architecture_draft_rules.py:290-325 | The loop computes that run: parse errors, cache, calls, and the rules in order, sorted at the end |
| `DraftCache.SortedIsStableSort` | scripts/rendering/generate_ros_architecture_draft_rules.py:325 | The final sort orders the rules by resource type and classification, loses none and keeps the order among equal keys |
| `DraftCache.SortedEqualIffAlike` | scripts/rendering/generate_ros_architecture_draft_rules.py:325 | Two lists are sorted into the same list exactly when they hold, for every key, the same rules in the same order |
| `DraftCache.SingleResult` | scripts/rendering/generate_ros_architecture_draft_rules.py:293-304 | A cached response to another chunk with the same id and fingerprint is noticed exactly when the two do not parse alike |
| `SseStream.StreamEvents` | scripts/a2a/debugger.py:4699-4742 | For every fragmentation the emitted events are those of the complete blocks of everything seen, up to the first stopping event; otherwise the unfinished block is kept |
| `SseStream.FragmentationIsIrrelevant` | scripts/a2a/debugger.py:4699-4742 | Two fragmentations of a stream without cut pairs, in particular without CR, give the same events |
| `SseStream.SplitAsWholeIffNoCut` | scripts/a2a/debugger.py:4709-4712 | The stream is split as a whole exactly when no CR LF pair was cut by a read |
| `SseStream.SeenVersusStream` | scripts/a2a/debugger.py:4709-4710 | Each cut pair adds exactly one line end |
| `SseStream.ReplacementsNormalize` | scripts/a2a/debugger.py:4710 | Replacing CR LF and then CR turns every line end into one LF |
| `SseStream.NormalizeConcat` | scripts/a2a/debugger.py:4710 | Normalising piecewise differs from normalising the whole only at a cut pair |
| `SseStream.SplitExtends` | scripts/a2a/debugger.py:4711-4712 | What has been split off stays split off; more text affects the rest only |
| `SseStream.JoinSplit` | scripts/a2a/debugger.py:4711-4712 | Splitting loses no character |
| `SseStream.SplitIsLeftmost` | scripts/a2a/debugger.py:4711-4712 | The text is split at the leftmost empty line each time |
| `SseStream.EmitBlocks` | scripts/a2a/debugger.py:4713-4738 | Blocks are parsed in order up to and including the first stopping event |
| `SseStream.StoppedStays` | scripts/a2a/debugger.py:4733-4741 | Reading on after a stop would emit nothing more |
| `Dedup.Online` | scripts/a2a/debugger.py:1762-1804 | Feeding values one by one stores what the offline pass keeps and remembers every key |
| `Dedup.DedupeRawSseEvents` | scripts/a2a/debugger.py:1632-1661 | The offline pass keeps, of every row, the envelopes whose key no earlier row carries |
| `Dedup.AppendRawEvent` | scripts/a2a/debugger.py:1776-1800 | One arriving value is stored filtered, or dropped, and its keys are remembered |
| `Dedup.KeptIsIdempotent` | scripts/a2a/debugger.py:1632-1661 | A second pass changes nothing exactly when no key occurs in two kept rows, in particular when reduced rows are restorable |
| `Dedup.NoKeyInTwoRows` | scripts/a2a/debugger.py:1638-1650 | No key occurs in two kept rows when whatever remains of a reduced row is an envelope by itself |
| `Dedup.KeptIsSameIff` | scripts/a2a/debugger.py:1632-1661 | A pass leaves any list as it is exactly when no key occurs in two of its rows |
| `Dedup.FirstOccurrenceSurvives` | scripts/a2a/debugger.py:1638-1650 | An envelope without key, or with a key no earlier row carries, survives |
| `Dedup.UnseenInOrder` | scripts/a2a/debugger.py:1638-1644 | What remains of a row are its envelopes without key or with a new one, in order |
| `Dedup.KeptCarriesSurvivors` | scripts/a2a/debugger.py:1632-1661 | The kept rows carry exactly the survivors, in order, when reduced rows are restorable |
| `Dedup.CarriesAllIff` | scripts/a2a/debugger.py:1632-1661 | They do so after every prefix of the rows exactly when whatever remains of each reduced row is an envelope by itself |
| `Dedup.DistinctIffNoRowRepeats` | scripts/a2a/debugger.py:1638-1650 | The survivors' keys are distinct exactly when no row brings one new key twice |
| `Dedup.RepeatInsideOneRowSurvives` | scripts/a2a/debugger.py:1638-1650 | Two envelopes of one row with the same key are both kept |
| `Dedup.ResumeAsIfUninterrupted` | scripts/a2a/debugger.py:1625-1630 | Rebuilding the key set from the kept rows and going on stores what an uninterrupted session stores when reduced rows are restorable |
| `Dedup.ResumesIffKeysAreKept` | scripts/a2a/debugger.py:1625-1630 | A restored session goes on as an uninterrupted one, whatever arrives, exactly when the kept rows carry the keys of all rows |
| `Dedup.StoredCarriesIff` | scripts/a2a/debugger.py:1651-1656 | What is stored of a row carries its novel envelopes exactly when nothing was filtered or everything that remains is an envelope by itself |
| `Dedup.CollapseIsExtractedIff` | scripts/a2a/debugger.py:1870-1917 | The envelopes extracted from a reduced value are those it was reduced to exactly when each of them is an envelope by itself |
| `Dedup.ExtractInOrder` | scripts/a2a/debugger.py:1870-1877 | A list yields the envelopes of its items one after the other |
| `Dedup.WrappedEnvelopeComesBack` | scripts/a2a/debugger.py:1632-1661 | Otherwise one key can occur in two kept rows and a second pass drops one of them |
| `Dedup.BareEnvelopeIsForgotten` | scripts/a2a/debugger.py:1776-1800 | A batched object that is no envelope by itself loses its key when stored bare |
| `Dedup.KeptKeys` | scripts/a2a/debugger.py:1625-1630 | The kept rows carry every key that ever arrived when reduced rows are restorable |
| `Dedup.SeenGrows` | scripts/a2a/debugger.py:1776-1790 | Remembering the keys of what is kept remembers the keys of what arrived |
| `Dedup.RememberKeys` | scripts/a2a/debugger.py:1645-1650 | Every non-empty key of the kept envelopes is remembered |
| `ExecutionTree.Replay` | scripts/a2a/debugger.py:3254-3269 | After any sequence of envelopes the nodes form a forest in which every kind is below its proper kind and every node hangs where it was mentioned first; each envelope was routed to one existing node, spelled out from the envelopes up to it for every kind of event; and each timeline holds exactly its envelopes, in order, in maximal runs |
| `ExecutionTree.HangsWhereFirstMentioned` | scripts/a2a/debugger.py:2823-2872 | A node exists exactly when an envelope mentioned it, and hangs where the first of them put it |
| `ExecutionTree.RootIsFirstPipeline` | scripts/a2a/debugger.py:2823-3019 | Below which pipeline each kind of node is shown, in terms of its first mention |
| `ExecutionTree.UnderOwnPipelineIff` | scripts/a2a/debugger.py:3021-3048 | An envelope routed to a step is shown below its own pipeline exactly when an envelope of that pipeline named the step first |
| `ExecutionTree.StrayEnvelope` | scripts/a2a/debugger.py:3021-3048 | An envelope without coordinates lands below another pipeline's step |
| `ExecutionTree.Tree.AppendExecutionTreeEvent` | scripts/a2a/debugger.py:3254-3269 | Creates every node the envelope names, loses none, keeps the invariant and appends to exactly one timeline |
| `ExecutionTree.Tree.EnsureTreeNode` | scripts/a2a/debugger.py:2823-2872 | A new node hangs in exactly one place; a known one keeps its place |
| `ExecutionTree.Tree.EnsureNodes` | scripts/a2a/debugger.py:3254-3266 | The nodes named by an envelope exist afterwards, from the pipeline down |
| `ExecutionTree.Tree.EnsureStepNode` | scripts/a2a/debugger.py:2906-2929 | The step node exists and is remembered |
| `ExecutionTree.Tree.EnsureCandidateNode` | scripts/a2a/debugger.py:2951-2969 | The candidate node exists and is remembered |
| `ExecutionTree.Tree.EnsureCandidateStepNode` | scripts/a2a/debugger.py:2979-3003 | The candidate step exists and is remembered, only below a candidate |
| `ExecutionTree.Tree.EnsureSkeletonSteps` | scripts/a2a/debugger.py:3005-3019 | Every announced step of a candidate exists |
| `ExecutionTree.Tree.AppendTimelineItem` | scripts/a2a/debugger.py:3111-3166 | The timeline grows by one event, merged into the open group of its kind |
| `ExecutionTree.RenderShowsEveryNodeOnce` | scripts/a2a/debugger.py:3755-3786 | Rendering from the roots terminates and shows every node exactly once |
| `ExecutionTree.ForestAddsRoot` | scripts/a2a/debugger.py:2839-2847 | Adding a root keeps the forest |
| `ExecutionTree.ForestAddsChild` | scripts/a2a/debugger.py:2839-2847 | Adding a child below a node of lower rank keeps the forest |
| `ExecutionTree.RunsAreMaximal` | scripts/a2a/debugger.py:3118-3164 | Delta groups are exactly the maximal runs of one kind |
| `ExecutionTree.AppendedIsExtend` | scripts/a2a/debugger.py:3121-3148 | Following the remembered group merges as looking at the end of the timeline would |
| `ExecutionTree.GroupsStep` | scripts/a2a/debugger.py:3121-3164 | The remembered groups are exactly the open ends of the timelines |
| `ExecutionTree.StepIsLatest` | scripts/a2a/debugger.py:2906-2929 | The step that envelopes without coordinates fall back to is the one named last |
| `ExecutionTree.StepNowIff` | scripts/a2a/debugger.py:2906-2929 | Which step is the last one named, from the log |
| `ExecutionTree.CandidateIsCurrent` | scripts/a2a/debugger.py:2906-2969 | A remembered candidate was named since its step was last started, ended or changed |
| `ExecutionTree.CandidateNowIff` | scripts/a2a/debugger.py:2906-2969 | Which candidate is current, from the log: the last one named since the step was last started, ended or changed |
| `ExecutionTree.CandidateStepIsCurrent` | scripts/a2a/debugger.py:2951-3003 | A remembered candidate step was reported for the remembered candidate, in the same stay at its step |
| `ExecutionTree.CandidateStepNowIff` | scripts/a2a/debugger.py:2951-3003 | Which candidate step is current, from the log: the last one reported since the candidate last changed |
| `ExecutionTree.TargetIsRight` | scripts/a2a/debugger.py:3021-3048 | The target exists and has the level that the kind of event calls for |
| `ExecutionTree.TargetIsExact` | scripts/a2a/debugger.py:3021-3048 | From the log alone: an interrupt or step event goes to the last step or else to its pipeline, a pipeline event to its pipeline, a candidate event to the last candidate of the current stay or else as a step event, and deltas, tools, requests, candidate steps and everything else to the last candidate step or else as a candidate event |
| `ExecutionTree.TextIsInjective` | scripts/a2a/debugger.py:2740-2757 | Distinct nodes have distinct key texts |

## Left out

- HTTP, subprocess, cloud SDK and language-model calls; where a modelled component makes one, its reply is arbitrary.
- Regular-expression engines: the verdicts of the question driver's patterns are fields of the pending question. The
  scanner's build-path patterns are written out as languages.
- JSON, ZIP and SHA-256 encodings: JSON decodes as it was encoded, an archive is a list of named contents, a digest is
  an arbitrary function, and the registry is keyed by the VPC id itself instead of its hash.
- Wall-clock deadlines: a process that waits for the lock may give up at any attempt.
- IPv6 blocks, and requests whose blocks are not valid networks.
- Diagnostics counters, and the report of `ModelAssignment`.
- White space other than blank, tab, CR and LF; the publisher of a handoff is given without surrounding white space.
- The payload that the question driver sends to its helper, and its lock slot; of the validation of the helper's replies
  only the names of missing fields matter here; the extraction of case facts; the wiring of the conversation into a call (the conversation is modelled by itself).
- The separator that joins the clauses of an answer: an answer is the list of its distinct clauses.
- Dangling links, and the unresolved path that is returned on Windows, when links are materialised.
- The external attributes of ZIP entries, empty directories, and a required path that is a link to something other than
  a file; at extraction, directories are the places that have something below them.
- The chunking and compaction of resource facts that feed the draft cache, and its summary of each chunk.
- The debugger's page, styles and buttons, its tree sort order and first sequence numbers, timelines of normal chat and
  trees restored from a snapshot; byte-level decoding of the stream; the key fallback to the current task.
- The live acceptance runners with their fixtures, the generation of endpoints, the assembly of the skill runtime's
  manifest, and the ownership bookkeeping of stacks.
- Extras.PythonComponents: without persistent markers only closure is claimed, not leastness.
- ChunkedScan.BuildPathVerdict: completeness is claimed for matches of at most 513 bytes.
