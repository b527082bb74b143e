# Verified model of the storage streamer

Dafny proofs about four connected parts of the repository. `dafny verify dfyconfig.toml` checks all
of them.

**The frame scheduler.** `SessionModel` gives one poll of `StreamDriver` as a function of the
session, the free permits of its budget and everything the environment answers during that poll.
`SessionInvariant` says what each phase keeps, `SessionRuns` proves order and completeness over
whole runs, `SessionWakeups`, `SessionProgress` and `SessionLiveness` that no wake-up is lost, that
self-waking ends and that a driver nobody keeps waiting finishes. `SessionFaults` and
`SessionDelivery` prove when a driver fails, and that one to which nothing fails delivers the whole
request; `SessionEffects` that every plan is served, not only the front one. `BudgetSystem` proves
that any number of sessions share a budget safely, interleaved between any two of their accesses to
it, and `BudgetShares` that each takes all it can. `StreamSession` and `FrameMemory` are the same
code as objects updated in place, each method proved equal to its transition function. `Sizing`
relates windows and rates.

**The quota engine.** `Cadence` holds the two-horizon GCRA buckets, resources, pools and the engine
as values; `CadenceChoice` proves the choice optimal, `CadenceRuns` the rate bounds and the
independence of the commit horizon over all interleavings of a shared handle, `TokenBuckets` the
refinement to a token bucket, `CadencePace` the closed form of a burst, `CadenceReleases` when a
dropped reservation gives its headroom back. `CadenceCommits` proves when a commit costs admissions
nothing, `CadenceBlind` and `CadenceBursts` that commits in time do not show in what is handed out.
`QuotaEngine` has the engine, the handle and its permits as objects. Instants are integer
nanoseconds; each section under the mutex is one step.

**Bytes and frames.** `Frames` (assembler, codec, download), `Upload` (chunking, padding,
numbering), `ByteStream` (range mapping and clipping) and `Segments` (sessions over stored segments)
compose into end-to-end theorems. The cipher is a pair of functions of which only the round trip and
the tag length are assumed (`Frames.RoundTrips`, which some cipher satisfies:
`Frames.SomeCipherRoundTrips`).

**The catalogs.** Tables are maps, and transactions atomic steps that handlers interleave. Plaintext
bodies are carried along as history so that round trips can be stated. For files, `FilesModel`,
`FilesSafety` and `FilesCatalog` have the catalog, `FilesAcceptance` exactly what it accepts,
`FilesHandlers` and `FilesOwners` the upload handlers and whose reservations they take away,
`FileDownloads` and `FilesUploads` the round trips. For S3, `S3Model`, `S3Safety` and `S3Catalog`
have the catalog, `S3Leases` its use by handlers and the garbage collector, `S3Reads` reads in more
than one query, `S3Contents` the bytes that rows stand for, and `S3Service` the cutting of bodies,
the choice of parts and the walk over a range. `S3Handlers` has the handlers, one catalog access at
a time, `S3Runs` what their runs keep, `S3Keeping` until when objects, parts, uploads and orphans
stay, and `S3Downloads` proves for all interleavings that what was put, copied or assembled is what
a later get streams.

Where the code falls short of what one might expect, the code is modelled as it is, a concrete input
is given, and the exact condition under which it holds is proved:

- `complete_multipart` clears no orphan mark, and takes the size and the segments it is given. With
  parts read early it can leave a linked segment to the garbage collector
  (`S3Reads.LateCompleteLosesData`), or record a wrong size (`S3Reads.TornParts`). It keeps the
  catalog sound with right sizes exactly if none of its segments is marked when it runs and the size
  is theirs (`S3Safety.CompleteKeepsIff`).
- `parts` reads the rows first and their segments afterwards. Size and segments of a part fit
  together exactly if the part is still there with that size (`S3Downloads.SplitPartsExact`).
- `get_object` reads in two queries. A copy from a source deleted in between records a size without
  bytes (`S3Reads.TornCopy`); the two answers fit together exactly if the object is still there or
  empty (`S3Reads.SplitReadExact`). For the files catalog the same pattern is safe
  (`FilesSafety.CompletedIsFinal`). A torn read harms only the object made from it and copies of
  that: sizes go wrong in no other access (`S3Runs.FitsIff`), and what else is put or stored is
  served as if nothing had been torn (`S3Downloads.PutThenGet`).
- A handler that takes longer than an hour from storing a segment to linking it can link one whose
  blob is gone (`S3Reads.LateLinkLosesData`). Linking is safe exactly if the collector has listed
  none of the segments by then (`S3Leases.LinkKeepsIff`), as it is within the hour.
- A files reservation has no owner. Undoing a failed attach takes a reservation that another handler
  made exactly if any stands at the index (`FilesOwners.UndoTakesAnothers`,
  `FilesOwners.UndoTakesAnothersIff`). A failed upload does exactly if one stands there and somebody
  else took the handler's own before (`FilesOwners.FailureTakesAnothers`,
  `FilesOwners.FailureTakesAnothersIff`).
- The comment at crates/quota-engine/src/cadence_async.rs:134-136 says a dropped reservation gives
  its headroom back. Dropped with nothing in between, a reservation that another bucket made wait
  may leave a bucket held until the instant admitted (`CadenceReleases.DropKeepsHeadroom`). As seen
  from any instant on, headroom is back exactly if that is not before the instant admitted, or the
  instant admitted lies within the allocation horizon of every bucket touched
  (`CadenceReleases.DropRestoresHeadroomIff`). A commit horizon is never touched
  (`CadenceRuns.SameCommitsSameGate`).
- A commit no later than the instant handed takes no further headroom, as long as nothing was
  released and no header came in (`CadenceCommits.AllocationIsReplay`). After the release of an
  older reservation it may (`CadenceCommits.CommitAfterStaleRelease`): the horizon then no longer
  has room for what is outstanding. The allocation horizon follows the admissions and releases alone
  exactly if no commit, header or release ever runs into the other horizon
  (`CadenceCommits.AllocationIsReplayIff`).

## Model

| member | source | states |
|---|---|---|
| `SessionRuns.OrderAndCompleteness` | crates/frame-streamer/src/stream.rs:335-585 | Over any run, with any object sizes, windows and interleaving of source, URL, download and sink answers, the frames given to the sink are a prefix of the requested frames in global order; once the driver reaches its close phase they are all of those the source supplied, and the full count if the source did not end. |
| `SessionWakeups.NoLostWakeup` | crates/frame-streamer/src/stream.rs:403-521 | A poll that neither ends nor wakes itself leaves a registration on what it waits for: the sink when the front frame is ready or the sink is still closing, the front's URL ticket or download when it is not, the source when nothing is planned. |
| `SessionWakeups.NoLostWakeupInterrupted` | crates/frame-streamer/src/stream.rs:403-585 | The same when other sessions use the budget and grant a ticket in the middle of the poll. |
| `SessionProgress.SelfWakesBounded` | crates/frame-streamer/src/stream.rs:496-585 | Over any run a driver wakes itself at most three times per requested frame plus once, so self-waking polls are finite. |
| `BudgetSystem.WakesBoundedUnderInterleaving` | crates/frame-streamer/src/stream.rs:496-585 | The same bound for every session among any number on one budget, interleaved between any two of their accesses to it, before and after the session ends. |
| `SessionLiveness.ReachesClose` | crates/frame-streamer/src/stream.rs:496-585 | Liveness: a driver to which nothing answers pending is, after more polls than three per requested frame, in its close phase with everything supplied sent, or has failed; when it fails is the next rows' matter. |
| `SessionDelivery.Delivers` | crates/frame-streamer/src/stream.rs:335-585 | With nothing failing and nothing pending, more polls than three per requested frame end in the close phase with exactly the requested frames sent, whatever the objects' sizes and wherever the request begins and ends in them. |
| `SessionFaults.PollAbortsIff` | crates/frame-streamer/src/stream.rs:550-584 | A poll fails exactly if something it was answered or asked of the budget is an error: the transfer model, a permit count beyond `u32`, a source error, an empty or overflowing object that was wanted, a URL error, a download error or a download with too many or too few frames, or the sink. No error consumed is swallowed. |
| `SessionDelivery.AbortsIff` | crates/frame-streamer/src/stream.rs:496-585 | Over whole runs a driver has failed exactly if some poll of the run, up to then, met such an error. |
| `SessionDelivery.NeverFails` | crates/frame-streamer/src/stream.rs:496-585 | A run answered without errors, over objects whose frames fit a `u64`, never fails, whatever is pending in between. |
| `SessionDelivery.PlanEnds` | crates/frame-streamer/src/stream.rs:439-468 | In such a run a download is asked for its end exactly after its last useful frame. |
| `SessionFaults.PollObjectsExact` | crates/frame-streamer/src/stream.rs:335-386 | The object loop takes objects from the source exactly while fewer frames are planned than aimed at and the request goes on, and refuses exactly a source error, an empty object, or one beyond the largest index. |
| `SessionFaults.RefreshFailsIff` | crates/frame-streamer/src/stream.rs:296-333 | Refreshing fails exactly if the transfer model does or more than `u32::MAX` permits are missing and free. |
| `SessionFaults.FillFundedAbortsIff` | crates/frame-streamer/src/stream.rs:496-521 | The rest of a fill fails exactly by the source, a URL or a download. |
| `SessionEffects.LooksAhead` | crates/frame-streamer/src/stream.rs:335-386 | After a fill, frames are planned ahead for the window and the URL prefetch, or all that is requested is, or the source has ended or is waited for. |
| `SessionEffects.WindowIsUsed` | crates/frame-streamer/src/stream.rs:388-401 | After authorizing, as many frames are in flight or buffered as the window and the plans have room for. |
| `SessionEffects.EveryUrlServed` | crates/frame-streamer/src/stream.rs:403-434 | Every ticket is polled, not only the front one's, and a download opens exactly when its URL is there and one of its frames is authorized. |
| `SessionEffects.EveryDownloadServed` | crates/frame-streamer/src/stream.rs:436-471 | Every download that may go on is polled once, and what it yields is appended. |
| `SessionEffects.DownloadsArePaidFor` | crates/frame-streamer/src/stream.rs:419-434 | In every run no download is open for an object none of whose frames was authorized. |
| `SessionEffects.EveryPlanRegistered` | crates/frame-streamer/src/stream.rs:403-471 | After a poll that does not fail, every outstanding ticket is registered, and every download that may go on is too unless the poll woke itself. |
| `SessionEffects.OnlyPendingRegistered` | crates/frame-streamer/src/stream.rs:335-585 | And nothing else is: whatever is registered answered pending in that poll. |
| `SessionEffects.PollSendsIff` | crates/frame-streamer/src/stream.rs:550-584 | A frame is sent exactly if the next one is at hand after the fill and the sink is ready and takes it. |
| `SessionEffects.PopFreesSurplus` | crates/frame-streamer/src/stream.rs:473-484 | Sending a frame returns at once exactly the permits above both the window and what is in flight. |
| `SessionWakeups.NextIsAuthorized` | crates/frame-streamer/src/stream.rs:388-401 | After `authorize` with a window of at least one frame, the next planned frame to emit is authorized: the head of line cannot be starved. |
| `SessionWakeups.UrlsLinkTheNext` | crates/frame-streamer/src/stream.rs:403-434 | After `poll_urls` succeeds, whichever plan holds the next frame to emit and lacks it, front or later, has a registered URL ticket or an open download. |
| `SessionRuns.RightsInterval` | crates/frame-streamer/src/stream.rs:388-401 | Authorized but unemitted frames form exactly the interval of the next `committed` global frames. |
| `BudgetSystem.MemorySafety` | crates/frame-streamer/src/memory.rs:33-110 | For any number of sessions, interleaved between any two of their accesses to the budget, free permits plus allocations plus granted uncollected tickets equal the capacity at every step, each session keeps buffered <= committed <= allocation, and all together never buffer more than the capacity. |
| `BudgetSystem.OrderUnderInterleaving` | crates/frame-streamer/src/stream.rs:335-585 | Under the same interleaving every session has sent a prefix of its requested frames, and all of them once nothing is planned and nothing is left to plan. |
| `BudgetSystem.UndisturbedPoll` | crates/frame-streamer/src/stream.rs:296-333 | The single budget accesses of a poll, taken without interruption, make up exactly the poll of the transition function. |
| `BudgetSystem.AllDropped` | crates/frame-streamer/src/stream.rs:524-541 | Dropping every session gives the whole budget back. |
| `BudgetSystem.ActKeeps` | crates/frame-streamer/src/stream.rs:296-333 | Every single budget access, fill and emission of any session, and every grant and drop, keeps conservation and every session's invariant. |
| `BudgetSystem.SessionWithinAllocation` | crates/frame-streamer/src/stream.rs:188-195 | Buffered frames never exceed committed ones, nor these the allocation. |
| `SessionInvariant.RefreshFunds` | crates/frame-streamer/src/stream.rs:296-333 | `refresh_allocation` conserves permits and ends with the allocation at the larger of the window and what is committed; the window stays at least one. How large it is, `RefreshFills` says. |
| `SessionInvariant.RefreshFills` | crates/frame-streamer/src/stream.rs:296-333 | A successful refresh takes all it can: the allocation is the larger of what is committed and the least of the window wanted and all that was free or held; if it is short of the window the budget is empty and a ticket is waiting. |
| `SessionInvariant.OpenFills` | crates/frame-streamer/src/stream.rs:213-237 | A session opens with the least of the window wanted and all that is free. |
| `SessionInvariant.GrowAvailableExact` | crates/frame-streamer/src/stream.rs:281-294 | Growing takes exactly what is missing, as far as the budget has it, and fails only beyond `u32::MAX`. |
| `BudgetShares.SharesGrow` | crates/frame-streamer/src/stream.rs:296-320 | With other sessions acting in between, each budget access of a refresh takes all it finds up to the window; one that ends short found the budget empty and left a ticket waiting. |
| `BudgetShares.OpeningGrows` | crates/frame-streamer/src/stream.rs:213-237 | The same for opening. |
| `BudgetShares.DiesIff` | crates/frame-streamer/src/stream.rs:524-585 | Among others on one budget, a session is dropped as failed exactly if the stage it is in meets an error. |
| `SessionInvariant.AcceptKeeps` | crates/frame-streamer/src/stream.rs:347-384 | Planning one object keeps the plans tiling the useful global frames, whatever part of the object the request needs. |
| `SessionInvariant.PollObjectsKeeps` | crates/frame-streamer/src/stream.rs:335-386 | The whole object loop keeps the invariant and changes nothing received or emitted. |
| `SessionInvariant.RemainingIsPlanned` | crates/frame-streamer/src/stream.rs:341-341 | The frames counted as planned are exactly those between the next frame to emit and the end of the plans. |
| `SessionInvariant.AuthorizeSpends` | crates/frame-streamer/src/stream.rs:388-401 | Authorizing spends exactly what is available or what is missing, whichever is less. |
| `SessionInvariant.AuthorizeInFront` | crates/frame-streamer/src/stream.rs:392-400 | A later plan gets rights only once every earlier one has all of its own. |
| `SessionInvariant.AuthorizeKeeps` | crates/frame-streamer/src/stream.rs:388-401 | Authorizing keeps the invariant and stays within the allocation. |
| `SessionInvariant.AfterUrlsKeeps` | crates/frame-streamer/src/stream.rs:403-434 | Collecting URLs and opening downloads moves no frame counter and no buffered frame of any plan. |
| `SessionInvariant.AfterDownloadsKeeps` | crates/frame-streamer/src/stream.rs:436-471 | Received frames are the object's own next ones, never beyond the rights. |
| `SessionInvariant.DiscardKeeps` | crates/frame-streamer/src/stream.rs:486-494 | Discarding exhausted plans at the front loses no frame. |
| `SessionInvariant.PopKeeps` | crates/frame-streamer/src/stream.rs:473-484 | Popping hands over the next global frame, and shrinks the allocation without losing a permit. |
| `SessionInvariant.FrameAt` | crates/frame-streamer/src/stream.rs:355-369 | Frame `k` of an object sits in the global sequence at that object's offset plus `k`. |
| `SessionRuns.DrainedIsComplete` | crates/frame-streamer/src/stream.rs:512-516 | With no plan left and the source or the request exhausted, exactly the requested frames have been sent. |
| `SessionRuns.FillKeeps` | crates/frame-streamer/src/stream.rs:496-521 | One `poll_fill` keeps the invariant, and reports completion only with no plan left and the source or the request exhausted. |
| `SessionRuns.PollKeeps` | crates/frame-streamer/src/stream.rs:550-584 | One driver poll keeps the invariant, whatever the sink answers. |
| `SessionProgress.PollProgress` | crates/frame-streamer/src/stream.rs:550-584 | Each self-waking poll strictly advances a count over frames planned, received and emitted and downloads finished. |
| `SessionProgress.ProgressBounded` | crates/frame-streamer/src/stream.rs:550-584 | That count never exceeds three per requested frame. |
| `StreamSessions.StreamSession.Open` | crates/frame-streamer/src/stream.rs:213-237 | Opening takes one permit and what the window can get; failing takes none. |
| `StreamSessions.StreamSession.GrowAvailable` | crates/frame-streamer/src/stream.rs:281-294 | The allocation grows by what is missing as far as the budget has it. |
| `StreamSessions.StreamSession.PollTicket` | crates/frame-streamer/src/stream.rs:298-309 | An unneeded ticket is dropped with its permit returned; a granted one is merged. |
| `StreamSessions.StreamSession.RequestTicket` | crates/frame-streamer/src/stream.rs:312-320 | One more permit is taken at once or asked for. |
| `StreamSessions.StreamSession.RefreshAllocation` | crates/frame-streamer/src/stream.rs:296-333 | The in-place update equals the transition function, budget included. |
| `StreamSessions.StreamSession.PollObjects` | crates/frame-streamer/src/stream.rs:335-386 | The loop pulls objects until enough frames are planned, with the same errors. |
| `StreamSessions.StreamSession.AcceptObject` | crates/frame-streamer/src/stream.rs:347-384 | One object adds exactly its useful frames to the plan. |
| `StreamSessions.StreamSession.Authorize` | crates/frame-streamer/src/stream.rs:388-401 | The loop hands rights front to back. |
| `StreamSessions.StreamSession.PollUrls` | crates/frame-streamer/src/stream.rs:403-434 | Both loops, the first URL error included; what stays pending is registered. |
| `StreamSessions.StreamSession.PollDownload` | crates/frame-streamer/src/stream.rs:439-468 | One download is polled once, with both protocol errors. |
| `StreamSessions.StreamSession.PollDownloads` | crates/frame-streamer/src/stream.rs:436-471 | The loop over all plans, with what progressed and what parked. |
| `StreamSessions.StreamSession.DiscardFinished` | crates/frame-streamer/src/stream.rs:486-494 | The loop drops exactly the exhausted front plans. |
| `StreamSessions.StreamSession.PopReady` | crates/frame-streamer/src/stream.rs:473-484 | The next frame of the front plan, with the allocation shrunk behind it. |
| `StreamSessions.StreamSession.PollFill` | crates/frame-streamer/src/stream.rs:496-521 | The phases in order, stopping at the first error. |
| `StreamSessions.StreamDriver.Poll` | crates/frame-streamer/src/stream.rs:550-584 | One poll of the driver: fill, emit at most one frame to a ready sink, then flush or close. |
| `FrameMemory.FrameBudget.Create` | crates/frame-streamer/src/memory.rs:20-31 | A budget has its whole capacity free; zero and oversized capacities are refused. |
| `FrameMemory.FrameBudget.TryReserve` | crates/frame-streamer/src/memory.rs:56-81 | A permit takes exactly its frames from the budget, or nothing with the right error. |
| `FrameMemory.FramePermit.Merge` | crates/frame-streamer/src/memory.rs:97-100 | Merging adds up the frames held. |
| `FrameMemory.FramePermit.ShrinkTo` | crates/frame-streamer/src/memory.rs:102-109 | Shrinking returns exactly the surplus to the budget, never more. |
| `Sizing.WindowFitsIffRateBelow` | crates/frame-streamer/src/sizing.rs:16-53 | Adjunction: a rate's window fits `c >= 1` frames exactly if the rate is at most `max_rate_for(c)`. |
| `Sizing.SizingMonotone` | crates/frame-streamer/src/sizing.rs:16-53 | Windows grow with the rate and rates with the window. |
| `Sizing.TargetFits` | crates/frame-streamer/src/stream.rs:270-279 | The window of `target_rate` fits the granted frames, and the target is the requested rate exactly when that fits. |
| `Sizing.TargetWindow` | crates/frame-streamer/src/stream.rs:326-332 | Sizing a target rate can only fail on the URL prefetch count. |
| `Sizing.WindowIsLeast` | crates/frame-streamer/src/sizing.rs:16-34 | `window_for` is the least window with which a consumer at that rate never runs dry while an object is fetched, its frames arriving at the object's rate after the first byte, and the least prefetch that covers what is consumed while a URL is fetched; it fails exactly without frames or beyond the machine's counts. |
| `CadenceRuns.CommitRateBound` | crates/quota-engine/src/cadence.rs:46-110 | Over every interleaving of reserve, commit, release, drop and update, the commits touching any one bucket, shared or private, in any window of length W number at most its effective capacity plus floor(W/T). |
| `CadenceRuns.ScheduleBound` | crates/quota-engine/src/cadence.rs:70-84 | Without releases the send instants handed out obey the same bound, although they may go backwards in time. |
| `TokenBuckets.GcraRefinesTokenBucket` | crates/quota-engine/src/cadence.rs:46-110 | Over every run of waits, commits and headers a GCRA bucket and a token bucket agree on level and verdicts. |
| `TokenBuckets.StepRefines` | crates/quota-engine/src/cadence.rs:66-110 | Each operation does to the token level what it does to the horizon. |
| `TokenBuckets.HeaderCapsLevel` | crates/quota-engine/src/cadence.rs:101-110 | After a header the level is the least of what it was, the reported tokens and the capacity. |
| `TokenBuckets.NewBucketIsFull` | crates/quota-engine/src/cadence.rs:46-64 | A new bucket is a full token bucket of capacity minus safety, at least one. |
| `CadencePace.BurstThenPace` | crates/quota-engine/src/cadence.rs:217-284 | On an idle engine, whenever created, with one resource per pool the n-th claim made at one instant is handed that instant plus the largest of (n - C)T over the touched buckets, if positive. |
| `CadencePace.ClaimsTrack` | crates/quota-engine/src/cadence.rs:66-84 | After n claims on an idle engine every touched bucket's allocation horizon follows the closed form. |
| `CadencePace.PaceAbsorbs` | crates/quota-engine/src/cadence.rs:82-84 | A bucket pushed ahead by another bucket's wait never overtakes the closed form. |
| `CadenceBursts.BurstWithCommits` | crates/quota-engine/src/cadence.rs:217-284 | The same with commits at that instant in between: the n-th reservation admitted is still handed the closed form, whichever of the earlier ones were committed meanwhile. |
| `CadenceBlind.CommitsAreInvisible` | crates/quota-engine/src/cadence.rs:217-284 | In a run without headers and releases whose commits come no later than handed and in the order of the clock, every reservation is handed what it would be without any commit. |
| `CadenceCommits.AllocationIsReplay` | crates/quota-engine/src/cadence.rs:80-99 | In such a run the allocation horizon is the fold of the admissions alone. |
| `CadenceCommits.AllocationIsReplayIff` | crates/quota-engine/src/cadence.rs:80-110 | In any run, headers, releases and late commits included, the allocation horizon is all along the fold of the admissions and releases iff no commit, header or release ever runs into the other horizon. |
| `CadenceCommits.CommitAfterStaleRelease` | crates/quota-engine/src/cadence.rs:80-99 | Counterexample: after the release of an older reservation, a commit at the very instant handed moves the allocation horizon an interval further. |
| `CadenceCommits.CommitCostsNothingIff` | crates/quota-engine/src/cadence.rs:80-99 | Committing what was just reserved leaves the headroom as it was iff it comes no later than the instant reserved or the horizon before. |
| `CadenceCommits.CommitMovesIff` | crates/quota-engine/src/cadence.rs:96-99 | A commit leaves the allocation horizon alone iff its own horizon stays within it. |
| `CadenceCommits.PushesNoFurther` | crates/quota-engine/src/cadence.rs:96-110 | A commit or header pushes the allocation horizon as far as the commit horizon and no further. |
| `CadenceCommits.CommitCostsOneSlot` | crates/quota-engine/src/cadence.rs:80-99 | A single token reserved and committed at once is handed again one interval later. |
| `CadenceChoice.ChoiceOptimality` | crates/quota-engine/src/cadence.rs:174-233 | `peek_reserve` returns a choice consistent with the pins and no consistent combination is admissible earlier; none exactly when some pool has no eligible resource. |
| `CadenceChoice.EarliestIsLeast` | crates/quota-engine/src/cadence.rs:217-248 | The instant computed is the least one at which no touched bucket refuses. |
| `CadenceChoice.LivenessIsSet` | crates/quota-engine/src/cadence.rs:308-316 | Exactly the first resource with the key becomes live, or not; nothing else changes. |
| `CadenceChoice.LivenessDecides` | crates/quota-engine/src/cadence.rs:174-184 | A resource taken out is never chosen, one that is back is what a demand for its key gets, and demands for other keys get what they got. |
| `CadenceRuns.CommitHorizonIsReplay` | crates/quota-engine/src/cadence.rs:96-110 | After any run a bucket's commit horizon is the fold of its commits and headers alone. |
| `CadenceRuns.SameCommitsSameGate` | crates/quota-engine/src/cadence_async.rs:82-105 | Two histories with the same commits and headers gate every choice alike, whatever was reserved, refused, released or dropped. |
| `CadenceRuns.HorizonsOrdered` | crates/quota-engine/src/cadence.rs:29-33 | Over any run no commit horizon falls and the allocation horizon never lies before it. |
| `CadenceRuns.StaleTargetIsLowerBound` | crates/quota-engine/src/cadence_async.rs:82-105 | A wake-up target once read stays a lower bound of the live gate, whatever happens until then. |
| `CadenceReleases.DropRestoresHeadroomIff` | crates/quota-engine/src/cadence_async.rs:134-154 | Dropping a reservation, with nothing in between, leaves every bucket with the headroom it had, as seen from any instant on, iff that instant is not before the one admitted or the one admitted lies within the allocation horizon of every bucket touched; so always at once if it did not have to wait. The engine itself is as before iff the latter. |
| `CadenceReleases.SameHeadroomMeans` | crates/quota-engine/src/cadence.rs:66-93 | Two buckets that differ in their allocation horizon have the same headroom from an instant on iff every later reservation leaves both alike, and both then make it wait as long. |
| `CadenceReleases.DropKeepsHeadroom` | crates/quota-engine/src/cadence_async.rs:134-154 | Counterexample: a busy bucket makes a reservation wait, and dropping it leaves an idle bucket without headroom until that instant. |
| `CadenceReleases.ReleaseUndoesReserve` | crates/quota-engine/src/cadence.rs:70-93 | Releasing what was reserved at an instant leaves a bucket's horizon at that instant if it lay beyond the horizon, and unchanged otherwise; its headroom from another instant on is as before iff the one reserved is beyond neither. |
| `CadenceRuns.ApplyAt` | crates/quota-engine/src/cadence.rs:236-330 | Each step changes exactly the addressed buckets, in exactly the way its kind says. |
| `CadenceRuns.GateHolds` | crates/quota-engine/src/cadence.rs:253-276 | A commit passes only when every touched bucket would admit it by itself. |
| `CadenceRuns.FiringsPushHorizon` | crates/quota-engine/src/cadence.rs:66-100 | Firings inside a window and the horizon behind them grow together. |
| `Cadence.Position` | crates/quota-engine/src/cadence.rs:176-176 | A fixed pin resolves to the first live resource with its key, or to none if there is no such resource. |
| `Cadence.MostRested` | crates/quota-engine/src/cadence.rs:177-184 | A free pin resolves to the first of the least loaded live resources, or to none if none is alive. |
| `QuotaEngines.QuotaEngine.PeekReserve` | crates/quota-engine/src/cadence.rs:217-233 | The loops over buckets and pools compute the least-loaded choice and its instant without changing anything. |
| `QuotaEngines.QuotaEngine.EarliestCommit` | crates/quota-engine/src/cadence.rs:253-265 | The loops compute the commit gate. |
| `QuotaEngines.QuotaEngine.ChangeEvery` | crates/quota-engine/src/cadence.rs:238-246 | Every shared bucket and every bucket of the picked resources changes, and nothing else. |
| `QuotaEngines.QuotaEngine.Admit` | crates/quota-engine/src/cadence.rs:238-248 | Only allocation horizons advance; the picked keys are returned in pool order. |
| `QuotaEngines.QuotaEngine.DoCommit` | crates/quota-engine/src/cadence.rs:269-276 | Commit horizons advance at the given instant. |
| `QuotaEngines.QuotaEngine.Release` | crates/quota-engine/src/cadence.rs:318-330 | Allocation horizons roll back, never below the commit horizon. |
| `QuotaEngines.QuotaEngine.Claim` | crates/quota-engine/src/cadence.rs:280-284 | Peek and admit as one; no resource, no change. |
| `QuotaEngines.QuotaEngine.Reconcile` | crates/quota-engine/src/cadence.rs:287-306 | Headers tighten the named buckets of the first resource with the key. |
| `QuotaEngines.QuotaEngine.SetAlive` | crates/quota-engine/src/cadence.rs:308-316 | Liveness of the first resource with the key. |
| `QuotaEngines.QuotaHandle.Reserve` | crates/quota-engine/src/cadence_async.rs:59-80 | Admits iff the slot is within the deadline; refusal leaves the handle as it was. |
| `QuotaEngines.QuotaHandle.TryCommit` | crates/quota-engine/src/cadence_async.rs:88-105 | One turn of the commit loop: spends now iff the gate is open, else names the instant to sleep until. |
| `QuotaEngines.QuotaHandle.Release` | crates/quota-engine/src/cadence_async.rs:147-154 | Explicit release and drop: gives the headroom back once, and nothing after a commit. |
| `QuotaEngines.QuotaHandle.Update` | crates/quota-engine/src/cadence_async.rs:110-128 | A header under the lock. |
| `QuotaEngines.QuotaHandle.SetAlive` | crates/quota-engine/src/cadence_async.rs:130-132 | Liveness under the lock. |
| `QuotaEngines.ResolveFree` | crates/quota-engine/src/cadence.rs:177-183 | The loop finds the first of the least loaded live resources. |
| `QuotaEngines.ResolveFixed` | crates/quota-engine/src/cadence.rs:176-176 | The loop finds the first live resource with the key. |
| `QuotaEngines.MaxSlackOf` | crates/quota-engine/src/cadence.rs:130-143 | The running maximum of the slacks. |
| `Frames.DecodeUndoesEncode` | crates/frame-streamer/src/frame.rs:83-142 | Decoding a frame at its own index returns the payload; a frame is `tag || ciphertext` of the fixed size. |
| `Frames.FrameAssembler.Create` | crates/frame-streamer/src/frame.rs:20-29 | Refuses the zero frame size. |
| `Frames.FrameAssembler.Push` | crates/frame-streamer/src/frame.rs:31-33 | Bytes are appended. |
| `Frames.FrameAssembler.NextFrame` | crates/frame-streamer/src/frame.rs:35-41 | A whole frame off the front iff there is one; no byte is lost or reordered. |
| `Frames.FrameAssembler.Finish` | crates/frame-streamer/src/frame.rs:47-57 | Succeeds iff nothing is pending. |
| `Frames.FeedAppend` | crates/frame-streamer/src/stream.rs:121-129 | Bytes that arrive later continue where the earlier ones left off. |
| `Frames.DownloadFrames` | crates/frame-streamer/src/stream.rs:98-137 | The frames yielded and the way the download ends depend on the concatenated response only, not on its chunks. |
| `Frames.DecodePending` | crates/frame-streamer/src/stream.rs:123-129 | The inner loop decodes every complete frame, stopping at the first surplus or forged one. |
| `Frames.AuthenticDownload` | crates/frame-streamer/src/stream.rs:98-137 | For authentic bytes the download succeeds iff the response has exactly (end - start) * frame_size bytes, then yields exactly the stored payloads, and never yields a wrong frame. |
| `Frames.StoredSuffix` | crates/frame-streamer/src/stream.rs:98-112 | The bytes of frames `[k, ..)` start at `k * frame_size` of the stored object. |
| `Uploads.CutChunk` | crates/frame-streamer/src/upload.rs:174-183 | The inner loop fills and emits payloads without losing a byte. |
| `Uploads.CutBody` | crates/frame-streamer/src/upload.rs:152-197 | The frames are the padded payloads of the body whatever its chunks; too large, broken and empty bodies are told apart. |
| `Uploads.PaddedHoldsBody` | crates/frame-streamer/src/upload.rs:187-195 | The payloads hold the body followed only by zeros. |
| `Uploads.PaddedShape` | crates/frame-streamer/src/upload.rs:165-195 | There are ceil(size / payload) payloads, all full. |
| `Uploads.PaddedIs` | crates/frame-streamer/src/upload.rs:174-195 | Full frames followed by a remainder are the payloads of their concatenation, so chunk boundaries do not matter. |
| `Uploads.EncodeFrames` | crates/frame-streamer/src/upload.rs:104-114 | Frame `k` is stored encrypted under index `k`; one frame too many is refused. |
| `Uploads.Upload` | crates/frame-streamer/src/upload.rs:142-217 | An upload succeeds exactly for a non-empty body within the limit, of the announced length, that the store takes to its end, and leaves the encrypted padded payloads; after a wrong length they are left exactly if deleting them fails. |
| `Uploads.HintFits` | crates/frame-streamer/src/upload.rs:161-165 | A size within the byte limit never announces more frames than the limit. |
| `Uploads.CodecRoundTrip` | crates/frame-streamer/src/upload.rs:152-197 | Uploading under any chunking and downloading any frame range under any other returns those padded payloads. |
| `ByteStreams.RequestFrames` | crates/frame-streamer/src/byte.rs:62-71 | The frames requested are the fewest whole ones covering the bytes. |
| `ByteStreams.ClippingSink.StartSend` | crates/frame-streamer/src/byte.rs:218-226 | What has been forwarded is always the window `skip, length` of everything received. |
| `ByteStreams.WindowGrows` | crates/frame-streamer/src/byte.rs:218-226 | Clipping frame by frame clips the whole. |
| `ByteStreams.ClippedExactly` | crates/frame-streamer/src/byte.rs:147-165 | Clipping the requested frames yields exactly bytes `[a, b)`; fewer frames yield a prefix. |
| `Segments.FramesHoldContent` | crates/files-gateway/src/catalog.rs:212-214 | If all but the last segment are aligned, the padded frames hold the file's bytes at their own offsets. |
| `Segments.GlobalFrames` | crates/frame-streamer/src/stream.rs:355-369 | The scheduler's global frames of a list of objects are their stored payload frames in order. |
| `Segments.DownloadsServe` | crates/frame-streamer/src/stream.rs:98-137 | What the download backend yields for a stored object is what the scheduler is assumed to be served. |
| `Segments.SessionYieldsRange` | crates/frame-streamer/src/byte.rs:140-204 | A session over an aligned list of objects outputs a prefix of the requested bytes, and all of them when it closes. |
| `Segments.SessionDelivers` | crates/frame-streamer/src/byte.rs:140-204 | With nothing failing and nothing pending, a session over an aligned list of objects outputs exactly the requested bytes within three polls per frame and one more. |
| `FileDownloads.FilesRoundTrip` | crates/files-gateway/src/lib.rs:247-293 | For any segmentation, upload order, chunking and interleaving, once a file is complete, streaming any non-empty range yields exactly those bytes of its segments' plaintexts in index order. |
| `FilesUploads.UploadThenStream` | crates/files-gateway/src/lib.rs:156-293 | Upload, then stream, among any other handlers, disconnects and restarts: once an upload is reported and its file complete, its body lies in the file at its index behind the segments before it, and streaming any range of it yields exactly that range. |
| `FilesUploads.FileIsItsUploads` | crates/files-gateway/src/catalog.rs:102-271 | A completed file consists of reported uploads only, the i-th uploaded as its segment i, and contains every upload reported for it. |
| `FileDownloads.ObjectsOfWhole` | crates/files-gateway/src/catalog.rs:246-264 | A complete file's object list is aligned and as long as the recorded size. |
| `FilesSafety.FilesSafe` | crates/files-gateway/src/catalog.rs:62-229 | In every reachable catalog attached bytes stay within the allocation; a completed file has no reservation, indices 0..n-1, all but its last segment aligned, and its size is the sum. |
| `FilesSafety.RunKeeps` | crates/files-gateway/src/catalog.rs:23-229 | Every run of transactions and restarts keeps that. |
| `FilesSafety.CompletedIsFinal` | crates/files-gateway/src/catalog.rs:231-271 | Nothing that happens later changes a completed file, so its two-query read is consistent. |
| `FilesSafety.CompletesExactly` | crates/files-gateway/src/catalog.rs:170-229 | Completing succeeds iff the file exists, is not complete and is whole; exceeding the allocation is never the reason. |
| `FilesAcceptance.AttachesIff` | crates/files-gateway/src/catalog.rs:102-168 | A segment is attached iff the file exists and is open, the reservation stands, the id is new, the segment has bytes and frames, and it fits the allocation, filling it up included; each refusal has its own error under its own condition. |
| `FilesAcceptance.AttachLeaves` | crates/files-gateway/src/catalog.rs:102-168 | An attachment puts the segment in place of its reservation and uses exactly its size; a refusal leaves everything but, beyond the allocation, the reservation; other files are as they were. |
| `FilesAcceptance.ReservesIff` | crates/files-gateway/src/catalog.rs:62-90 | An index is reserved iff the file is open and the index free; each refusal has its own error and changes nothing. |
| `FilesAcceptance.CreatesIff` | crates/files-gateway/src/catalog.rs:42-60 | A file is created iff its id is new and its size fits an `i64`, and leaves every other file as it was. |
| `FilesAcceptance.CompletesIff` | crates/files-gateway/src/catalog.rs:170-229 | A file is completed iff it is open, nothing is pending, and every row is in place and aligned; each refusal has its own error, the first bad row deciding; instant and size are recorded. |
| `FilesAcceptance.OthersStay` | crates/files-gateway/src/catalog.rs:92-229 | Completing and cancelling leave every other file as it was, and completing every row and what the file declared. |
| `FilesAcceptance.UploadAccepted` | crates/files-gateway/src/lib.rs:156-209 | Once its index is reserved, an upload is refused only for its size, its id or an empty segment. |
| `FilesOwners.AcceptedIff` | crates/files-gateway/src/lib.rs:156-209 | In every history a handler whose body was stored succeeds iff a reservation stands at its index and the segment fits; unless somebody else's step took it, its own stands. |
| `FilesSafety.CompletedIsWhole` | crates/files-gateway/src/catalog.rs:189-216 | The checks of `complete_file` accept exactly the whole files. |
| `FilesSafety.AttachKeeps` | crates/files-gateway/src/catalog.rs:102-168 | Attaching keeps the allocation, whichever way it ends. |
| `FilesSafety.CancelsExactly` | crates/files-gateway/src/catalog.rs:92-100 | A cancellation removes a reservation iff one stands at the index; it does not ask who made it. |
| `FilesOwners.UndoTakesAnothersIff` | crates/files-gateway/src/lib.rs:188-199 | In every history, undoing a failed attach takes a reservation another handler made iff any reservation stands at the index: the own one is gone by then. |
| `FilesOwners.FailureTakesAnothersIff` | crates/files-gateway/src/lib.rs:181-187 | In every history, a failed upload takes a reservation another handler made iff one stands at the index and an earlier step of somebody else took the own one. |
| `FilesOwners.AttachTakesAnothersIff` | crates/files-gateway/src/catalog.rs:102-168 | The same for attaching, which uses a reservation up when it succeeds or exceeds the allocation. |
| `FilesOwners.OwnedUnlessTaken` | crates/files-gateway/src/lib.rs:156-209 | A handler at work owns the reservation at its index iff no step of somebody else took it. |
| `FilesOwners.UndoTakesAnothers` | crates/files-gateway/src/lib.rs:188-199 | Counterexample: undoing the failed attach of one handler takes the reservation a second one began. |
| `FilesOwners.FailureTakesAnothers` | crates/files-gateway/src/lib.rs:181-187 | Counterexample: the failing second upload then takes the reservation a third one began. |
| `FilesSafety.PurgeKeeps` | crates/files-gateway/src/catalog.rs:36-38 | A restart drops exactly the reservations: every attached row stays, of open and of completed files. |
| `FilesCatalog.Catalog.constructor` | crates/files-gateway/src/catalog.rs:23-40 | Connecting drops the reservations of an earlier process. |
| `FilesCatalog.Catalog.CreateFile` | crates/files-gateway/src/catalog.rs:42-60 | A new file with its allocation; duplicates and oversized allocations are refused. |
| `FilesCatalog.Catalog.ReserveSegment` | crates/files-gateway/src/catalog.rs:62-90 | A reservation at a free index of an uncompleted file. |
| `FilesCatalog.Catalog.CancelReservation` | crates/files-gateway/src/catalog.rs:92-100 | Removes a reservation, never an attachment. |
| `FilesCatalog.Catalog.AttachSegment` | crates/files-gateway/src/catalog.rs:102-168 | All outcomes, the rollback and the lost reservation of an oversized upload included. |
| `FilesCatalog.Catalog.CheckRows` | crates/files-gateway/src/catalog.rs:205-216 | The loop over the joined rows: first gap or misalignment, else the total. |
| `FilesCatalog.Catalog.CompleteFile` | crates/files-gateway/src/catalog.rs:170-229 | All checks in order, then size and time are recorded. |
| `FilesCatalog.Catalog.CompletedFile` | crates/files-gateway/src/catalog.rs:231-271 | Size and segments of a completed file. |
| `FilesCatalog.ParseRange` | crates/files-gateway/src/lib.rs:319-354 | Refuses exactly when no byte is asked for; else the bytes asked for, as one non-empty range within the file. |
| `FilesHandlers.UploadSegment` | crates/files-gateway/src/lib.rs:156-209 | Alone, an upload succeeds iff the body was stored, the index is free in an open file, the id is new, and the segment has bytes and frames and fits, each failure having its own condition; it attaches its segment or leaves no trace in the catalog, and the blob of a refused attach stays stored iff deleting it fails. |
| `FilesHandlers.UndoLeavesNoTrace` | crates/files-gateway/src/lib.rs:181-199 | Cancelling right after reserving restores every row. |
| `FilesHandlers.UploadsAreDurable` | crates/files-gateway/src/lib.rs:156-209 | Among any other handlers, disconnects and restarts, every attached segment keeps its blob and every reported upload stays attached where it was uploaded to. |
| `S3Downloads.PutThenGet` | crates/s3-gateway/src/service.rs:324-402 | Put, then get, with any handlers and collectors in between at every catalog access, late and torn ones included: the put of a body succeeds iff its segments are still there, as they are if all handlers so far were punctual; a later get finds it iff nothing was put, copied, completed or deleted under its own key since, and then has the body's size and streams exactly the requested range of the body. |
| `S3Downloads.CopyThenGet` | crates/s3-gateway/src/service.rs:678-720 | Copy, then get, in any run: until its own key is overwritten the copy is found, has the source's size and serves what the source held if nothing overwrote that before its segments were read, and no bytes otherwise. |
| `S3Downloads.CompleteThenGet` | crates/s3-gateway/src/service.rs:589-650 | Complete, then get, in any run: the completion succeeds iff all segments read still exist, and if no part was uploaded again between being listed and read the object is found until its key is overwritten and serves what the parts held, one after the other, with that size. |
| `S3Downloads.PartHoldsBody` | crates/s3-gateway/src/service.rs:548-588 | In any run a part upload succeeds iff its segments and the upload exist, the number is valid and the body is not empty; unless uploaded again, the part then stays exactly until its upload ends, with the tag given, and holds the body. |
| `S3Keeping.ObjectStaysIff` | crates/s3-gateway/src/catalog.rs:241-351 | In any run an object stays, its row and its links, exactly until something is put, copied or completed under its own key or it is deleted, whatever is done to anything else. |
| `S3Keeping.StepRow` | crates/s3-gateway/src/catalog.rs:241-333 | One step makes a key's row new, removes it, or leaves it, exactly as the step is a link or completion of that key, its deletion, or anything else. |
| `S3Keeping.StepLinks` | crates/s3-gateway/src/catalog.rs:241-333 | An object keeps its links, unchanged, iff the step does not overwrite it. |
| `S3Keeping.PartStaysIff` | crates/s3-gateway/src/catalog.rs:384-494 | In any run a part that is not uploaded again stays, size, tag and segments, exactly until its upload is completed or aborted. |
| `S3Keeping.StepPart` | crates/s3-gateway/src/catalog.rs:384-494 | One step records a part with its size, tag and segments, drops it with its upload, or leaves it. |
| `S3Keeping.UploadStays` | crates/s3-gateway/src/catalog.rs:353-366 | An upload is for the key it was begun for until it is completed or aborted. |
| `S3Keeping.StepUpload` | crates/s3-gateway/src/catalog.rs:353-494 | One step begins an upload for its key, ends it, or leaves it. |
| `S3Keeping.StepMark` | crates/s3-gateway/src/catalog.rs:594-599 | Linking a segment again takes its mark off, any other step keeps a mark that is there and sets one, with its own instant, exactly if it leaves the segment unlinked. |
| `S3Keeping.OrphanStays` | crates/s3-gateway/src/catalog.rs:496-506 | In any run an orphan keeps the instant it became one until it is linked again, and goes only if the collector forgets it. |
| `S3Keeping.GarbageIsCollected` | crates/s3-gateway/src/service.rs:58-74 | In every punctual run a segment not linked again is gone once the collector has listed it, over an hour after it became an orphan, deleted its blob and forgotten it. |
| `S3Downloads.LeftAloneIsAsListed` | crates/s3-gateway/src/catalog.rs:418-432 | Parts that nobody stores, of an upload nobody ends, are read as they were listed. |
| `S3Downloads.CompletesItsKey` | crates/s3-gateway/src/service.rs:589-650 | A handler completes an upload under the key it was begun for, as long as nobody ended it. |
| `S3Downloads.S3RoundTrip` | crates/s3-gateway/src/service.rs:362-402 | `get_object` in any run, its two queries any number of events apart: while the row found is still there, streaming any range yields that range of the bytes the object was given, as far as it has them. |
| `S3Downloads.ObjectsAreGiven` | crates/s3-gateway/src/catalog.rs:241-301 | In any run every object holds exactly the bytes its id was given, and its row says the size given. |
| `S3Downloads.GatewaySafety` | crates/s3-gateway/src/service.rs:58-74 | In every punctual run, torn reads included: a segment is marked an orphan exactly while nothing links it, every link leads to a segment, and none whose blob was deleted is linked then or later. |
| `S3Downloads.SizesAddUp` | crates/s3-gateway/src/catalog.rs:241-301 | In every run without a torn read, however late its handlers, every recorded size is that of the segments linked. |
| `S3Downloads.SplitPartsExact` | crates/s3-gateway/src/catalog.rs:418-432 | In any run a part's row and its segments, read any number of events later, fit together iff the part is still there with that size. |
| `S3Handlers.EventKeeps` | crates/s3-gateway/src/service.rs:100-173 | Every catalog access of every handler, however late or torn, keeps what all handlers know and what all objects and parts hold. |
| `S3Handlers.LinksItsBytes` | crates/s3-gateway/src/service.rs:324-345 | Whatever a handler is about to link holds exactly the bytes it means, if it exists, under the size it means. |
| `S3Runs.FitsIff` | crates/s3-gateway/src/catalog.rs:277-301 | While all sizes fit the bytes, one catalog access keeps them fitting iff it is not a torn read: the second query of a copy finds its source or that was empty, and a part read is still there with the size listed. |
| `S3Runs.ReadFitsIff` | crates/s3-gateway/src/catalog.rs:277-301 | A copy reads as many bytes as the row said iff it finds the source, or the source was empty. |
| `S3Runs.JoinFitsIff` | crates/s3-gateway/src/catalog.rs:418-432 | A completion reads as many bytes of a part as its row said iff the part is still there with that size. |
| `S3Runs.KeepsLeases` | crates/s3-gateway/src/service.rs:58-173 | An access by a punctual handler keeps the leases, and what it puts or copies exists. |
| `S3Runs.CompleteUploadKeepsIff` | crates/s3-gateway/src/catalog.rs:434-484 | Completing an upload keeps the leases in order iff none of the segments read is an orphan by then. |
| `S3Reads.StepStays` | crates/s3-gateway/src/catalog.rs:220-506 | No step of any handler or collector, however late, leaves a link to a segment that is gone, or an object without its links. |
| `S3Leases.LeaseSafety` | crates/s3-gateway/src/service.rs:58-74 | If handlers link within 3600 s of storing or reading and complete only with unmarked segments, however handlers and collectors interleave: a segment is marked an orphan exactly while nothing links it, every link leads to a segment, and no segment whose blob was deleted is linked then or later. |
| `S3Leases.StepKeeps` | crates/s3-gateway/src/catalog.rs:220-506 | Every step of every handler and collector keeps the lease invariant. |
| `S3Leases.ListCondemns` | crates/s3-gateway/src/catalog.rs:496-498 | Whatever the collector lists is unlinked and under nobody's running lease. |
| `S3Leases.LinkKeepsIff` | crates/s3-gateway/src/catalog.rs:241-275 | A handler that links existing segments, however late, keeps the leases in order iff the collector has listed none of them. |
| `S3Leases.CompleteKeepsLeasesIff` | crates/s3-gateway/src/catalog.rs:434-484 | A completion, whenever its parts were read, keeps the leases in order iff none of its segments is marked. |
| `S3Safety.CompleteKeepsIff` | crates/s3-gateway/src/catalog.rs:434-484 | Completing a multipart upload keeps the catalog sound with right sizes iff none of the segments given is marked at that moment and the size given is theirs. |
| `S3Safety.CompleteSoundIff` | crates/s3-gateway/src/catalog.rs:434-484 | Whatever the size given, completing keeps marks and links in step iff none of the segments given is marked. |
| `S3Reads.LateCompleteLosesData` | crates/s3-gateway/src/catalog.rs:418-484 | Counterexample from a sound catalog with `parts` read early: a linked segment stays marked and the collector deletes its blob. |
| `S3Reads.TornParts` | crates/s3-gateway/src/catalog.rs:418-484 | Counterexample from a sound catalog with a part replaced between the two queries of `parts`: nothing completed is marked, and the object's size is wrong. |
| `S3Reads.LateLinkLosesData` | crates/s3-gateway/src/service.rs:100-148 | Counterexample with an upload of over an hour: a segment is linked after its blob was deleted. |
| `S3Reads.SplitReadExact` | crates/s3-gateway/src/catalog.rs:277-301 | `get_object`'s two queries, any steps apart, fit together iff the object is still there at the second, or is empty. |
| `S3Reads.TornCopy` | crates/s3-gateway/src/catalog.rs:335-351 | Counterexample from a sound catalog: a copy whose source is deleted between the two queries records a size without bytes. |
| `S3Safety.MarkRestores` | crates/s3-gateway/src/catalog.rs:594-599 | `mark_unreferenced` makes orphans of exactly the unlinked segments. |
| `S3Safety.ReplaceObjectKeeps` | crates/s3-gateway/src/catalog.rs:241-275 | Putting or copying keeps the catalog sound, and its sizes right iff the size given is that of the segments given. |
| `S3Safety.ReplacePartKeeps` | crates/s3-gateway/src/catalog.rs:384-416 | Replacing a part keeps the catalog sound, and its sizes right iff the size given is that of the segments given. |
| `S3Safety.DeleteObjectKeeps` | crates/s3-gateway/src/catalog.rs:324-333 | Deleting an object removes its row alone and unlinks exactly the segments nothing else links. |
| `S3Safety.AbortKeeps` | crates/s3-gateway/src/catalog.rs:486-494 | Aborting an upload removes it with its parts, and unlinks exactly the segments nothing else links. |
| `S3Safety.ForgetKeeps` | crates/s3-gateway/src/catalog.rs:500-506 | Forgetting a marked segment never meets a link in a sound catalog. |
| `S3Safety.StoreKeeps` | crates/s3-gateway/src/catalog.rs:220-239 | A new segment is an orphan from the start. |
| `S3Safety.DropUploadLinks` | crates/s3-gateway/migrations/0001_s3.sql:69-84 | Cascades from an upload remove links and add none. |
| `S3Safety.DropRowLinks` | crates/s3-gateway/migrations/0001_s3.sql:48-53 | Cascades from an object remove links and add none. |
| `S3Catalog.Catalog.StoreSegment` | crates/s3-gateway/src/catalog.rs:220-239 | A segment row marked from its insertion. |
| `S3Catalog.Catalog.LinkSegments` | crates/s3-gateway/src/catalog.rs:265-272 | The loop links each segment and clears its mark; a missing one rolls back. |
| `S3Catalog.Catalog.MarkUnreferenced` | crates/s3-gateway/src/catalog.rs:594-599 | Marks exactly the unlinked segments, keeping older marks. |
| `S3Catalog.Catalog.ReplaceObject` | crates/s3-gateway/src/catalog.rs:241-275 | The old object gives way to the new one with its links, or nothing changes. |
| `S3Catalog.Catalog.GetObject` | crates/s3-gateway/src/catalog.rs:277-301 | Row and segments of an object. |
| `S3Catalog.Catalog.DeleteObject` | crates/s3-gateway/src/catalog.rs:324-333 | The object goes with its links. |
| `S3Catalog.Catalog.CopyObject` | crates/s3-gateway/src/catalog.rs:335-351 | A new object with the source's size and segments. |
| `S3Catalog.Catalog.CreateMultipart` | crates/s3-gateway/src/catalog.rs:353-366 | A new upload, unless the id exists. |
| `S3Catalog.Catalog.ReplacePart` | crates/s3-gateway/src/catalog.rs:384-416 | The part and its links replaced, or nothing changes. |
| `S3Catalog.Catalog.CompleteMultipart` | crates/s3-gateway/src/catalog.rs:434-484 | The object takes the parts' segments, the upload goes, no mark is cleared. |
| `S3Catalog.Catalog.AbortMultipart` | crates/s3-gateway/src/catalog.rs:486-494 | The upload goes with its parts. |
| `S3Catalog.Catalog.OrphanedSegments` | crates/s3-gateway/src/catalog.rs:496-498 | The segments marked before an instant. |
| `S3Catalog.Catalog.ForgetSegment` | crates/s3-gateway/src/catalog.rs:500-506 | A marked segment's row goes; a link makes it fail. |
| `S3Catalog.CollectGarbage` | crates/s3-gateway/src/service.rs:58-74 | Left to itself the collector removes exactly the hour-old orphans whose blob could be deleted, counts them and meets no link. |
| `S3Service.UploadBody` | crates/s3-gateway/src/service.rs:100-148 | The segments uploaded are the body cut at the segment limit whatever its chunks, and the size counted is its length; it succeeds exactly within the size limit, with every segment accepted and the digest matching. Without a body nothing is stored and only the digest is checked. |
| `S3Service.CutHoldsBody` | crates/s3-gateway/src/service.rs:132-144 | Cutting loses nothing and every segment fits one upload. |
| `S3Service.CutIsAnnounced` | crates/s3-gateway/src/service.rs:150-165 | Every segment of a cut body has a length its upload accepts. |
| `S3Service.SelectParts` | crates/s3-gateway/src/service.rs:614-643 | The loops over the client's list, with every refusal in the order the code checks it. |
| `S3Service.SelectsExactly` | crates/s3-gateway/src/service.rs:614-643 | A list is honoured iff it names stored parts by number and tag in strictly increasing order, all but the last at least 5 MiB, together within the limit. |
| `S3Service.EntriesAccepted` | crates/s3-gateway/src/service.rs:616-634 | No entry is refused iff all name stored parts in strictly increasing order. |
| `S3Service.RefusesExactly` | crates/s3-gateway/src/service.rs:614-643 | Why a list is refused: the first bad entry decides, out of order or naming no stored part; then a part before the last below 5 MiB; then the whole beyond the limit. |
| `S3Service.BodyFor` | crates/s3-gateway/src/service.rs:175-233 | The walk over the segments starts one stream per segment touched. |
| `S3Service.PiecesAreRange` | crates/s3-gateway/src/service.rs:189-230 | Those streams' ranges are non-empty, within their segments, and make up exactly the range, aligned or not. |
| `S3Contents.PutContent` | crates/s3-gateway/src/catalog.rs:241-275 | A put or copied object holds the bytes of the segments given. |
| `S3Contents.MultipartRoundTrip` | crates/s3-gateway/src/catalog.rs:418-484 | With nothing in between, reading the parts and completing succeeds, leaves a sound catalog with right sizes, and the object holds its parts one after the other. |

## Left out

- Remote storage protocols, HTTP, S3 signatures, authorization, credentials, buckets, configuration, the command line and progress output: input and output or thin wrappers.
- S3 listing and pagination: decided by SQL pattern matching outside the code.
- SQLite itself, and SQL errors other than violated constraints: a transaction either happens or leaves the tables as they were.
- Cached URLs, their expiry, entity tags of multipart uploads, content types, names and metadata columns: carried along, never decided upon.
- AES-GCM, BLAKE3 and MD5: the cipher is abstract, the digests are functions or the bytes fed to them.
- Machine widths of nanosecond arithmetic in the quota engine (`i128` slacks cast to `u64`, `Duration` overflow) and of byte counts beyond `u64`: integers are unbounded where the code does not check for overflow itself; the overflow checks it does make are modelled.
- Floating point: rates, sizing and refill intervals are exact; an interval is a given number of nanoseconds, and a count of frames overflows above `u64::MAX` exactly.
- Calls that panic in the quota engine (a demand or pool index that does not match the engine): no-ops in `CadenceRuns.Apply`, preconditions in `QuotaEngines`.
- SessionRuns.PollKeeps: after a failed poll the driver is not polled again, so a session half-way through a failed phase is only known to have sent frames in order.
- QuotaEngines.QuotaHandle.TryCommit: one turn of the waiting loop, because other tasks act between turns; that a turn eventually comes is left to the timer and the bell.
- SessionWakeups.NoLostWakeup: a registration stands for the waker the runtime was given; that the source, ticket, download or sink then uses it is its own obligation.
- Uploads.Upload: the frame stream is produced as a whole and then encrypted, where the code interleaves both lazily; what a store keeps of a stream it failed on or stopped reading is its own affair.
- S3Service.UploadBody: whether the k-th segment's upload and registration succeed is an input.
- S3Downloads.PutThenGet: a segment is taken to be registered as its upload left it (`S3Handlers.Honest`, by `Uploads.CodecRoundTrip`), and a range is streamed from blobs that are still there; in a punctual run those of linked segments are, but that they outlast a stream begun before the object went is not promised.
- S3Leases.LeaseSafety: assumes that handlers link what they hold within the hour and complete only with unmarked segments (`S3Runs.Punctual`); the conditions and what happens without them are listed above. `delete_bucket` is left out.
- CadenceReleases.DropRestoresHeadroomIff: speaks of a drop with no other operation in between.
- CadenceBlind.CommitsAreInvisible: of runs without headers and releases whose commits are in time; what others do to the allocation horizon, `CadenceCommits.AllocationIsReplayIff` says.
- FilesSafety.FilesSafe: the payload size is the same for the whole life of a catalog.
- FilesUploads.UploadThenStream: a segment is taken to be reported by the storage backend as its upload left it.
- SessionDelivery.Delivers: of downloads that yield their object's own frames and end behind them, and objects whose frames fit a `u64`; what happens otherwise `SessionDelivery.AbortsIff` says.
- SessionLiveness.ReachesClose: that the runtime polls a driver again after it woke itself is its own obligation.
- FilesOwners.UndoTakesAnothersIff: the storage backend is taken to report only segments with at least one byte and one frame, which `ByteUpload` ensures.
- FilesHandlers.UploadSegment: whether the storage backend stores a body, and whether it deletes a blob, are inputs.
- FilesHandlers.UploadsAreDurable: says nothing of the reservation a disconnected handler leaves behind, which stays until a cancellation or a restart.
- The one-frame channel between a driver and the HTTP response, which holds a frame outside the budget by design.
