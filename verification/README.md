# Congestion-control path steering: a verified model

The repository steers RDMA traffic between two virtual paths by the rates that a NIC's
congestion control reports, and marks and counts packets in hardware pipes. This project models
the parts whose correctness is easy to get wrong and proves them in Dafny 4.11.

**The path-share controller** keeps three append-only tables (rate flows, connection requests,
QPN pairs) behind one spin lock. `SteerTables` says what each critical section does to the tables
as values; `SteerController` is the program's own form, arrays with counts and search loops,
proved against it method by method; `SteerLock` takes every critical section apart into single
reads and writes and proves that any interleaving of any number of threads is a sequential run;
`SteerMemory` carries that down to the fixed arrays, whose unused slots stay zero. On runs
`SteerRuns` proves that no reported rate is lost or counted twice and where every classification
comes from. `SteerConfluence` says when one message keeps classifications settled, `SteerOrder`
reads them off the messages of a disciplined run in whatever order they came, and `SteerTiming`
says exactly when the moments of reports cannot show. `PollHistory` tells from the events alone
what every poll makes of the reports; `Smoothing`, `PathShare` and `ShareControl` follow a rate
through the once-a-second poll: averaged, smoothed, turned into a share of 64 buckets, and applied
bucket by bucket where any hardware update can fail, over any sequence of calls. `SteerPoll` is
the whole poll.

**The rate channel** from device to host is, on DOCA 2.x, a hash table filled by linear probing
with a snapshot mailbox (`RateMailbox`), the host's own table (`HostRates`) and both together in
any order of steps (`RateChannel`); on DOCA 3.x it is a trace stream without repetitions
(`TraceReports`). Both are proved to be the map from QPN to latest rate.

**The packet pipelines** are data with an interpreter (`Pipes`). `SteerBuild` creates the steering
pipes in the program's order for each role and makes the two live updates; `SteerPipeline` proves
what the graph means for every packet, `SteerEndToEnd` composes two hosts of any role, and
`ShareInstall` shows that share updates and their failures reach the graph as the share control
says. `EcnPipeline` covers the three ECN-marking programs: the solution refines the no-op
forwarder, its counters add up, and the 2.x shared mirror and the 3.x flooding pipe capture the
same. `Sampling` counts the hits of a random mask.

**Parsers and scripts.** `Qp1Parser` inverts an encoder of RoCE frames with any number of VLAN
tags, any IPv4 header length and a communication-management MAD (RFC 791, section 3.1;
InfiniBand Architecture Specification volume 1, sections 12.6.5 and 12.6.8). `PcapStats` inverts
a pcap writer and survives a file cut at any byte. `RegenTemplates` and `RegenOrder` prove that
deriving the exercise templates only deletes lines, and exactly which recipes survive the cuts.

`dafny verify dfyconfig.toml` checks everything.

## Where the code does not do what it or its documentation says

For each of these one lemma gives a concrete input and another the exact condition under which the
promise holds.

- A failed share update is announced as "will retry", but a retry with the recorded share is
  skipped by the equality test: `ShareControl.EarlyOutKeepsDamage`, `ShareControl.RepairIffDifferent`.
- A hardware update whose confirmation is lost leaves hardware and software maps different, and a
  later share that is applied in full need not repair it: `ShareControl.LostSurvivesCompletion`,
  `ShareControl.AgreeUnlessLost`, `ShareControl.CompletedHardware`.
- `doca-3/pcc-path-steering/steering/README.md:94-95` says that the private path bit is cleared
  before delivery. In the default role, the one for both directions, a CNP for a counted sender is
  delivered before that, with the bit and on SF 0 whatever its address: `SteerEndToEnd.CountedCnpLeaks`,
  `SteerEndToEnd.PathBitLeavesIff`, `SteerEndToEnd.DataPromisedIff`. Nor does such a host leave
  reverse traffic as it is: `SteerEndToEnd.ReverseCleanIff`.
- The comment on the random mask says that a percentage is rounded down; below one value in 65536
  it is rounded up, and the shifted 3.x mask already rounds up below two: `Sampling.TinyRequestRoundsUp`,
  `Sampling.RoundsDownIff`, `Sampling.OverallRateIff`.
- A device QPN of 2^24 or more shares a controller flow with its low 24 bits:
  `RateChannel.SharedLowBits`, `RateChannel.ControllerAgreesIff`.
- A printed average divides by a 32-bit count that is zero after 2^32 reports of one QPN:
  `HostRates.CountWraps`, `HostRates.AverageBetween`.
- The trace drops an owner's first report when its rate is 0, or 2^32-1 after recycling, or when
  QPN 0 came before: `TraceReports.SwallowedExamples`, `TraceReports.FaithfulIff`.
- Two receiver addresses for one sender, or a reused communication id, make the classification
  depend on timing: `SteerTiming.TwoAddressesDiverge`, `SteerTiming.ReusedCommIdDiverges`,
  `SteerTiming.TimingCheck`.
- `doca-3/pcc-path-steering/README.md:183-186` describes the egress marker as a masked write of one
  bit. The code writes the whole ToS byte (`steer.c:866-899`), which loses every other DSCP bit:
  `SteerEndToEnd.Dscp26Lost`, `SteerEndToEnd.EgressKeepsDscpIff`.
- A recipe that lies inside another recipe's answer is accepted and deleted:
  `RegenOrder.NestedRecipeLost`, `RegenOrder.RecipeWholeIff`, `RegenOrder.RecipeSurvivesIff`.

## Modelling choices

Machine integers are ranges of the naturals with every wrap-around written out. The foreign flow
library is its contract: a packet hits an entry or misses, an entry update is confirmed, refused,
or done without confirmation. Percentages are reals, because every threshold is an exact binary
fraction of 100. The value that the random hash pipe hashes is an arbitrary number per packet. An
action without a mask writes its whole field. A mirror copies the packet after the entry's action.

## Model

| member | source | states |
|---|---|---|
| SteerTables.FlowIndex | doca-3/pcc-path-steering/steering/steer.c:2200-2205 | the linear search returns the first slot of the QPN, and the count exactly when there is none |
| SteerTables.RequestIndex | doca-3/pcc-path-steering/steering/steer.c:2388-2395 | the first request with this communication id |
| SteerTables.KnownRequestIndex | doca-3/pcc-path-steering/steering/steer.c:2227-2234 | the first request of this sender whose receiver address is a configured path |
| SteerTables.PairIndex | doca-3/pcc-path-steering/steering/steer.c:2218-2225 | the first learned pair of this sender |
| SteerTables.DrainFlows | doca-3/pcc-path-steering/steering/steer.c:2644-2662 | the poll drains and smooths every flow, in its own slot |
| SteerTables.ApplyKeepsTables | doca-3/pcc-path-steering/steering/steer.c:2189-2245 | every critical section keeps keys unique, counts within capacity and flow slots where they are |
| SteerTables.RunKeepsTables | doca-3/pcc-path-steering/steering/steer.c:2189-2677 | the same over every run of rate reports, REQ, REP, feedback and polls |
| SteerTables.RunAppend | doca-3/pcc-path-steering/steering/steer.c:2608-2716 | a run is the run of its second part from where its first part ended |
| SteerController.Steer.constructor | doca-3/pcc-path-steering/steering/steer.c:1880-1880 | a fresh controller has empty tables and all-zero slots |
| SteerController.Steer.FindFlow | doca-3/pcc-path-steering/steering/steer.c:2200-2205 | the search loop finds the first slot of the QPN or the count |
| SteerController.Steer.FindRequest | doca-3/pcc-path-steering/steering/steer.c:2388-2395 | the search loop over the requests |
| SteerController.Steer.FindPair | doca-3/pcc-path-steering/steering/steer.c:2398-2403 | the search loop over the pairs |
| SteerController.Steer.LookupRoute | doca-3/pcc-path-steering/steering/steer.c:2215-2235 | pairs before requests, requests only with a known path |
| SteerController.Steer.ResolvePath | doca-3/pcc-path-steering/steering/steer.c:2330-2337 | the receiver address against the two path addresses, path 0 first |
| SteerController.Steer.FindOrAppendFlow | doca-3/pcc-path-steering/steering/steer.c:2199-2210 | appends a zeroed slot with the QPN only when it is missing and there is room |
| SteerController.Steer.RecordReport | doca-3/pcc-path-steering/steering/steer.c:2211-2241 | latest rate, interval sum and count, and classification only if the flow has none |
| SteerController.Steer.UpdatePccRate | doca-3/pcc-path-steering/steering/steer.c:2189-2245 | a rate report does to the tables exactly what the event function does, or nothing without grouping or for QPN 0 and 1 |
| SteerController.Steer.RememberCmRequest | doca-3/pcc-path-steering/steering/steer.c:2326-2377 | a REQ rewrites its communication id's request or appends one and classifies the flow |
| SteerController.Steer.StorePair | doca-3/pcc-path-steering/steering/steer.c:2398-2412 | overwrites the sender's pair or appends one; a full table leaves it out |
| SteerController.Steer.StoreRoute | doca-3/pcc-path-steering/steering/steer.c:2413-2421 | classifies the sender's flow if it is tracked |
| SteerController.Steer.CompleteCmMapping | doca-3/pcc-path-steering/steering/steer.c:2379-2439 | a REP completes the request it answers, if that has a sender and a known path |
| SteerController.Steer.LearnIngressFeedbackQpn | doca-3/pcc-path-steering/steering/steer.c:2442-2507 | feedback from a path address teaches the sender's pair and classifies its flow |
| SteerController.Steer.DrainSlot | doca-3/pcc-path-steering/steering/steer.c:2645-2662 | one flow's interval average goes into its smoothed rate and its interval is cleared |
| SteerController.Steer.DrainAll | doca-3/pcc-path-steering/steering/steer.c:2644-2676 | all flows are drained and tallied in one pass |
| SteerController.Steer.PollRates | doca-3/pcc-path-steering/steering/steer.c:2642-2677 | the locked half of the poll: drained tables and the per-path tally of the smoothed rates |
| SteerLock.RouteStep | doca-3/pcc-path-steering/steering/steer.c:2413-2421 | each small step of a classification brings the critical section nearer to its end |
| SteerLock.RateStep | doca-3/pcc-path-steering/steering/steer.c:2197-2244 | the small steps of a rate report stay within its critical section and bring it nearer to its end |
| SteerLock.ReqStep | doca-3/pcc-path-steering/steering/steer.c:2340-2370 | the same for a REQ |
| SteerLock.PairStep | doca-3/pcc-path-steering/steering/steer.c:2388-2422 | the same for a REP and for feedback |
| SteerLock.PollStep | doca-3/pcc-path-steering/steering/steer.c:2644-2676 | the same for the poll, field by field |
| SteerLock.CriticalSection | doca-3/pcc-path-steering/steering/steer.c:2189-2677 | the small steps of one undisturbed critical section amount to the event function and its tally |
| SteerLock.StepKeepsInv | doca-3/pcc-path-steering/steering/steer.c:2197-2244 | every step of every thread keeps: one holder at most, and the tables on course for the events committed so far |
| SteerLock.ReachesKeepsInv | doca-3/pcc-path-steering/steering/steer.c:2197-2677 | the same after any interleaving of any number of threads |
| SteerLock.Linearizable | doca-3/pcc-path-steering/steering/steer.c:2197-2677 | any interleaving: mutual exclusion, and with the lock free the tables are a sequential run of the committed events and are valid; poll tallies are those of that run |
| SteerLock.HolderReleases | doca-3/pcc-path-steering/steering/steer.c:2244-2244 | from every reachable state the holder's own steps free the lock |
| SteerMemory.MemoryStepMeans | doca-3/pcc-path-steering/steering/steer.c:2206-2210 | while unused slots are zero a step on memory is the step on the tables, and leaves them zero |
| SteerMemory.NextRefines | doca-3/pcc-path-steering/steering/steer.c:2197-2244 | every step of every thread on memory is a step of the lock protocol on the tables in use |
| SteerMemory.MemoryLinearizable | doca-3/pcc-path-steering/steering/steer.c:2197-2677 | from zeroed memory and under any schedule: mutual exclusion, all-zero slots beyond every count at every moment, and with the lock free the used slots are the sequential run in lock order and each poll result its own place in it |
| SteerMemory.ConcurrentRatesConserved | doca-3/pcc-path-steering/steering/steer.c:2189-2662 | under any schedule and with the lock free, drained plus pending in memory plus wraps is the sum of all accepted reports |
| SteerRuns.EventPending | doca-3/pcc-path-steering/steering/steer.c:2211-2213 | what one event does to one QPN's interval sum: added to, cleared, or left alone |
| SteerRuns.EventConserved | doca-3/pcc-path-steering/steering/steer.c:2211-2213 | accepted plus pending before equals drained plus pending after, one event at a time, up to counted 64-bit wraps |
| SteerRuns.RatesConserved | doca-3/pcc-path-steering/steering/steer.c:2189-2662 | over any run: reports accepted = drained by polls + still pending + wraps, so none is lost or counted twice |
| SteerRuns.RatesConservedExactly | doca-3/pcc-path-steering/steering/steer.c:2189-2662 | the balance is exact as long as the accepted rates stay below 2^64, and in any case exactly when nothing wrapped |
| SteerRuns.IntervalBound | doca-3/pcc-path-steering/steering/steer.c:2211-2213 | with at most 2^32 accepted reports between two polls the interval sum never wraps |
| SteerRuns.ShortIntervalsConserve | doca-3/pcc-path-steering/steering/steer.c:2189-2662 | however long the run, with at most 2^32 reports of a QPN between polls its accepted rates are exactly those drained and pending |
| SteerRuns.ClassificationSound | doca-3/pcc-path-steering/steering/steer.c:2215-2241 | every classified flow's path is witnessed by an earlier REQ or feedback for its QPN whose address resolves to that path |
| SteerRuns.RequestsAreRecorded | doca-3/pcc-path-steering/steering/steer.c:2340-2358 | every remembered request is a REQ of the run, field by field, with a path exactly when its address is a configured one |
| PollHistory.EventMeter | doca-3/pcc-path-steering/steering/steer.c:2197-2213 | what one event does to a flow's rate fields: a report adds to them or takes a free slot, a poll empties them, all else leaves them |
| PollHistory.FlowAccounts | doca-3/pcc-path-steering/steering/steer.c:2197-2213 | in any run a tracked flow's latest rate, interval sum and count are those of its QPN's reports since the last poll, and a reported QPN without a flow met a full table |
| PollHistory.PollAverages | doca-3/pcc-path-steering/steering/steer.c:2644-2662 | told from the events: the next poll's sample is floor(sum / count) of the reports since the last poll, or the last report if there were none; it becomes the smoothed rate at the flow's first poll and moves it by one rounded eighth later |
| PollHistory.SmoothedIsTold | doca-3/pcc-path-steering/steering/steer.c:2644-2662 | over whole runs the smoothed rate is the one computed from the events alone |
| PollHistory.ClassifiedOnce | doca-3/pcc-path-steering/steering/steer.c:2215-2241 | once classified a flow keeps its path and receiver through any later reports and polls |
| SteerConfluence.CoherentIffHarmless | doca-3/pcc-path-steering/steering/steer.c:2215-2241 | a CM event keeps every flow classified as a late report would classify it exactly when it is harmless, a condition on the tables before it |
| SteerConfluence.RewriteIff | doca-3/pcc-path-steering/steering/steer.c:2340-2349 | giving a known communication id another sender or address leaves all answers as they were exactly under a check on the old tables: who is paired, and which request is a sender's first known one |
| SteerOrder.CmTablesOfRun | doca-3/pcc-path-steering/steering/steer.c:2326-2439 | requests and pairs depend on the connection messages only, not on reports and polls between them |
| SteerOrder.DisciplinedCoherent | doca-3/pcc-path-steering/steering/steer.c:2326-2439 | one address per QPN, one sender per communication id and no more of them than fit keep every run coherent |
| SteerOrder.LookupIsExpected | doca-3/pcc-path-steering/steering/steer.c:2326-2439 | the tables' answer for a sender is read off the messages: the path of its address once a REQ or feedback names it, and the responder of its last REP, in any order with each REQ before its REP |
| SteerOrder.Confluent | doca-3/pcc-path-steering/steering/steer.c:2189-2439 | two disciplined runs of the same connection messages in any order, each REQ before its REP, with reports and polls anywhere, classify every flow alike and with the same path; the receivers agree exactly when the last REPs do |
| SteerOrder.PermutationsAgree | doca-3/pcc-path-steering/steering/steer.c:2189-2507 | any permutation of the messages that keeps REQ before REP, with one responder per sender or its REPs in order, gives the same classification, path and receiver; on 2.x any permutation of the feedback |
| SteerOrder.LearnersAgree | doca-3/pcc-path-steering/steering/steer.c:2379-2507 | the feedback learner of 2.x and the REQ/REP learner of 3.x give a sender the same path; they agree on whether it has one exactly when its address is no path or both or neither were told of it |
| SteerTiming.TimingIff | doca-3/pcc-path-steering/steering/steer.c:2189-2439 | for any connection messages: the moments of reports and polls never show in a classification exactly when every message is harmless wherever a run of the earlier ones can lead |
| SteerTiming.HarmlessSplits | doca-3/pcc-path-steering/steering/steer.c:2326-2507 | a message is harmless exactly when it is so to each tracked flow of the senders it concerns, one at a time |
| SteerTiming.TimingCheck | doca-3/pcc-path-steering/steering/steer.c:2189-2439 | so timing is hidden exactly when every message passes a check on the connection tables that the messages before it leave, whichever sender has been reported |
| SteerTiming.HarmfulDiverges | doca-3/pcc-path-steering/steering/steer.c:2215-2241 | a message that is not harmless at a settled state yields two runs of the same messages that classify a tracked flow differently |
| SteerTiming.TwoAddressesDiverge | doca-3/pcc-path-steering/steering/steer.c:2215-2241 | counterexample: two addresses for one sender make the path depend on when the report came |
| SteerTiming.ReusedCommIdDiverges | doca-3/pcc-path-steering/steering/steer.c:2340-2349 | counterexample: a reused communication id makes the classification depend on when the report came |
| Smoothing.EwmaStep | doca-3/pcc-path-steering/steering/steer.c:2656-2661 | one step moves by the floor of (gap + 4) / 8 and nothing leaves 64 bits |
| Smoothing.EwmaBetween | doca-3/pcc-path-steering/steering/steer.c:2656-2661 | the smoothed rate never crosses the sample, rests exactly within x-3 .. x+4, and otherwise gets closer |
| Smoothing.EwmaConverges | doca-3/pcc-path-steering/steering/steer.c:2656-2661 | under a constant sample it reaches that band in at most the gap's number of steps and stays put |
| Smoothing.NeverFullAgain | doca-3/pcc-path-steering/steering/steer.c:2656-2675 | below the full rate it never equals the full rate again |
| Smoothing.AverageCapped | doca-3/pcc-path-steering/steering/steer.c:2646-2649 | an average of capped reports is capped |
| Smoothing.DrainCapped | doca-3/pcc-path-steering/steering/steer.c:2646-2661 | draining keeps a flow's rates capped |
| Smoothing.RunKeepsSlow | doca-3/pcc-path-steering/steering/steer.c:2644-2676 | over a run of capped reports a flow that left the full rate stays off it |
| Smoothing.ReducedNeverFalls | doca-3/pcc-path-steering/steering/steer.c:2664-2675 | with stable paths the number of reduced flows of a path never falls over a run |
| Smoothing.SummaryCounts | doca-3/pcc-path-steering/steering/steer.c:2664-2675 | the tallies are read off the table: each path's classified flows, those at and off the full rate, the sum of the smoothed rates of the latter, and the unclassified rest |
| PathShare.CalculateShare | doca-3/pcc-path-steering/steering/steer.c:2687-2704 | the program's branches compute the target share |
| PathShare.RatioNearest | doca-3/pcc-path-steering/steering/steer.c:2696-2698 | the rounded quotient is the integer nearest to 64a/(a+b), upwards on a tie |
| PathShare.RatioMonotone | doca-3/pcc-path-steering/steering/steer.c:2696-2698 | it grows with a and falls with b |
| PathShare.RatioHalf | doca-3/pcc-path-steering/steering/steer.c:2696-2698 | it is at least 32 when a >= b and at most 32 when a <= b |
| PathShare.RatioSwap | doca-3/pcc-path-steering/steering/steer.c:2696-2698 | swapping the sums gives shares that add up to 64, or to 65 exactly on a tie |
| PathShare.TargetSwap | doca-3/pcc-path-steering/steering/steer.c:2687-2704 | the same symmetry for the whole target, one-sided rules and clamp included |
| PathShare.TargetRange | doca-3/pcc-path-steering/steering/steer.c:2687-2704 | every target is between 3 and 61 |
| PathShare.UncongestedGetsMost | doca-3/pcc-path-steering/steering/steer.c:2687-2694 | a path with all its flows at the full rate gets 61 buckets and the other 3 when that one has a flow off it |
| PathShare.NoReasonIsEven | doca-3/pcc-path-steering/steering/steer.c:2679-2704 | 32 each when a path has no flow, or no flow of either is off the full rate |
| PathShare.CongestedShare | doca-3/pcc-path-steering/steering/steer.c:2694-2704 | with flows off the full rate on both, path 0 gets the whole number nearest to 64a/(a+b) within 3 and 61, a and b being the sums of those flows' smoothed rates; 32 if both are 0 |
| PathShare.BetterGetsHalf | doca-3/pcc-path-steering/steering/steer.c:2687-2704 | a path with only full flows, or with no smaller sum, never gets fewer buckets than the other |
| PathShare.TargetFits | doca-3/pcc-path-steering/steering/steer.c:2696-2698 | no intermediate value of the quotient leaves 64 bits |
| PathShare.AfterPoll | doca-3/pcc-path-steering/steering/steer.c:2664-2675 | the tally of a poll is read off the flows that poll leaves behind |
| PathShare.OneSidedNeverReturns | doca-3/pcc-path-steering/steering/steer.c:2690-2704 | once both paths have had a reduced flow the targets 61 and 3 of the one-sided rules never come back |
| ShareControl.StopAt | doca-3/pcc-path-steering/steering/steer.c:1935-1957 | the bucket a call stops at: the first one that needs an update that is not confirmed |
| ShareControl.ShareController.constructor | doca-3/pcc-path-steering/steering/steer.c:2125-2127 | the starting map is the starting share, and the forced path's if there is one |
| ShareControl.ShareController.UpdateEntry | doca-3/pcc-path-steering/steering/steer.c:1945-1951 | the contract of a foreign update: confirmed, refused without effect, or done but unconfirmed |
| ShareControl.ShareController.WriteBucket | doca-3/pcc-path-steering/steering/steer.c:1936-1956 | one round: no update where the bucket is right, software follows only a confirmed one |
| ShareControl.ShareController.WriteBuckets | doca-3/pcc-path-steering/steering/steer.c:1935-1957 | the loop rewrites both maps up to the bucket it stops at |
| ShareControl.ShareController.ApplyPathShare | doca-3/pcc-path-steering/steering/steer.c:1926-1970 | the whole call, with its early returns, is the specification function |
| ShareControl.MapsAgree | doca-3/pcc-path-steering/steering/steer.c:1945-1956 | one call from equal maps: they stay equal exactly when it did not end on a lost confirmation |
| ShareControl.BucketAfter | doca-3/pcc-path-steering/steering/steer.c:1935-1957 | what one call from any maps does to one bucket: software follows a confirmed update, hardware every one that was not refused |
| ShareControl.AgreeUnlessLost | doca-3/pcc-path-steering/steering/steer.c:1926-1970 | over any sequence of targets and any pattern of failures the maps agree on a bucket exactly when its last update that took effect was confirmed |
| ShareControl.MapsStayEqual | doca-3/pcc-path-steering/steering/steer.c:1945-1956 | over any sequence of calls, refusals included, the maps stay equal as long as no confirmation is lost |
| ShareControl.CompletedExact | doca-3/pcc-path-steering/steering/steer.c:1935-1970 | a call that completes leaves bucket b of the software map on path 0 iff b < share, from any map |
| ShareControl.CompletedHardware | doca-3/pcc-path-steering/steering/steer.c:1935-1970 | after a completed call the hardware has a bucket where the share wants it exactly when no lost confirmation is outstanding for that bucket |
| ShareControl.CompletedShare | doca-3/pcc-path-steering/steering/steer.c:1926-1970 | with none outstanding the completed share is the number of hardware buckets on path 0 |
| ShareControl.LostSurvivesCompletion | doca-3/pcc-path-steering/steering/steer.c:1949-1957 | counterexample: 32 to 40 with bucket 32 unconfirmed, then 32 to 20 fully confirmed and completed, leaves bucket 32 on path 0 in hardware |
| ShareControl.TouchedBetween | doca-3/pcc-path-steering/steering/steer.c:1935-1939 | from an exact map a completed call rewrites exactly the buckets between the two shares |
| ShareControl.ExactAfter | doca-3/pcc-path-steering/steering/steer.c:1929-1968 | when the recorded share describes the map after a call, exactly |
| ShareControl.RepairIffDifferent | doca-3/pcc-path-steering/steering/steer.c:1929-1932 | the promised retry repairs a damaged map exactly when its target differs from the recorded share |
| ShareControl.EarlyOutKeepsDamage | doca-3/pcc-path-steering/steering/steer.c:1929-1932 | counterexample: 32 to 40 fails half-way, then 32 again is skipped and the damage stays |
| ShareControl.AppliedIsCount | doca-3/pcc-path-steering/steering/steer.c:1926-1970 | with no unfinished call outstanding the recorded share is the number of buckets on path 0 |
| ShareControl.MinimumKept | doca-3/pcc-path-steering/steering/steer.c:2699-2702 | whatever fails, both paths keep at least three buckets in software and hardware |
| SteerPoll.Poll | doca-3/pcc-path-steering/steering/steer.c:2638-2715 | a poll as a whole: drained tables, and the tally's target applied to both maps |
| RateMailbox.Mailbox.constructor | doca-3/pcc-path-steering/device/rp_main.c:69-71 | the mailbox starts as the empty map |
| RateMailbox.Mailbox.Store | doca-3/pcc-path-steering/device/rp_main.c:73-89 | linear probing does to the map what a store means, and counts a drop exactly when 64 other QPNs are tracked |
| RateMailbox.Mailbox.Handle | doca-3/pcc-path-steering/device/rp_main.c:91-114 | the handler refuses a wrong request and otherwise lists every tracked QPN once with its rate |
| RateMailbox.ProbeDistance | doca-3/pcc-path-steering/device/rp_main.c:75-79 | probe d hits slot s exactly when d is the distance of s from the home slot |
| RateMailbox.StoredAt | doca-3/pcc-path-steering/device/rp_main.c:81-85 | the slot the probe stops at keeps the probing invariant and stores the rate |
| RateMailbox.NotElsewhere | doca-3/pcc-path-steering/device/rp_main.c:78-81 | an untracked QPN meets a free slot before it could meet itself |
| RateMailbox.NoRoom | doca-3/pcc-path-steering/device/rp_main.c:78-88 | an unsuccessful probe means 64 other QPNs |
| RateMailbox.LastStoreWins | doca-3/pcc-path-steering/device/rp_main.c:81-85 | after any stores a tracked QPN's rate is its last stored one |
| RateMailbox.TrackedBound | doca-3/pcc-path-steering/device/rp_main.c:69-70 | at most 64 QPNs are ever tracked, all of them stored, never QPN 0 |
| RateMailbox.NothingDropped | doca-3/pcc-path-steering/device/rp_main.c:78-88 | up to 64 different QPNs nothing is dropped and all are tracked |
| HostRates.Host.constructor | doca-3/pcc-path-steering/host/pcc_core.c:66-67 | the host table starts empty |
| HostRates.Host.FindOrCreateFlow | doca-3/pcc-path-steering/host/pcc_core.c:74-90 | finds the QPN's entry, or appends a zeroed one while there is room |
| HostRates.Host.RecordRate | doca-3/pcc-path-steering/host/pcc_core.c:616-621 | sum in 64 bits, count in 32, and the last rate |
| HostRates.Host.TakeRate | doca-3/pcc-path-steering/host/pcc_core.c:613-622 | a reported rate goes into the host's table and the controller's |
| HostRates.Host.TakeResponse | doca-3/pcc-path-steering/host/pcc_core.c:613-623 | a poll's listing reaches both tables in order |
| HostRates.Host.HandleReports | doca-3/pcc-path-steering/host/pcc_core.c:118-148 | the trace callback passes on exactly the reports of the rate format |
| HostRates.TraceRoundTrip | doca-3/pcc-path-steering/host/pcc_core.c:131-137 | the callback reads back exactly the rates of a trace in order: QPN and rate are the low halves of the first two arguments of format 6 |
| HostRates.Host.Averages | doca-3/pcc-path-steering/host/pcc_core.c:629-635 | the averages exist exactly when no count is zero |
| HostRates.TableIsHistory | doca-3/pcc-path-steering/host/pcc_core.c:613-623 | with room, every reported QPN has one entry and it is the exact account of its reports |
| HostRates.AverageBetween | doca-3/pcc-path-steering/host/pcc_core.c:629-635 | a count is zero exactly at a multiple of 2^32 reports; below that the average lies between smallest and largest rate |
| HostRates.CountWraps | doca-3/pcc-path-steering/host/pcc_core.c:616-631 | counterexample: after 2^32 reports of one QPN its count is zero |
| RateChannel.StepKeepsInv | doca-3/pcc-path-steering/host/pcc_core.c:586-623 | every step of device, host and controller keeps both host tables covered by the device's QPNs |
| RateChannel.NeverOverflows | doca-3/pcc-path-steering/host/pcc_core.c:74-90 | in any run both 256-entry host tables hold at most 64 flows |
| RateChannel.LatestIsLastLow | doca-3/pcc-path-steering/steering/steer.c:2193-2212 | the controller ends with the last report that shares the flow's low 24 bits |
| RateChannel.HostLastRate | doca-3/pcc-path-steering/host/pcc_core.c:616-621 | the host's entry ends with the QPN's last report |
| RateChannel.ControllerAgreesIff | doca-3/pcc-path-steering/steering/steer.c:2193-2212 | the controller has the device's rate of a QPN after every possible listing exactly when its low 24 bits are above 1 and all tracked QPNs with these bits have that rate |
| RateChannel.PollAgrees | doca-3/pcc-path-steering/host/pcc_core.c:586-635 | device-to-host agreement: after a poll the host has the device's rate of every tracked QPN, and the controller under exactly that condition |
| RateChannel.TableIsExact | doca-3/pcc-path-steering/host/pcc_core.c:613-623 | in any run every host entry is the exact account of what was heard |
| RateChannel.SharedLowBits | doca-3/pcc-path-steering/steering/steer.c:2193-2193 | counterexample: QPNs 5 and 2^24 + 5 share one controller flow |
| TraceReports.Context.constructor | doca-3/pcc-path-steering/device/rp_main.c:241-261 | a zeroed context has reported nothing |
| TraceReports.Context.HandleEvent | doca-3/pcc-path-steering/device/rp_main.c:241-261 | identity, recycling and the rate report of one event are the specification's |
| TraceReports.LastReport | doca-3/pcc-path-steering/device/rp_main.c:241-261 | told from the list of ordinary events: after any event, TX or not, the last report is the QPN of the last TX with this event's rate; before the first TX there is none |
| TraceReports.FaithfulIff | doca-3/pcc-path-steering/device/rp_main.c:347-363 | for any events the last report is always the last TX's QPN with the current rate exactly when no event is lost: a first rate 0, the marker rate under a new owner, or an event around QPN 0 |
| TraceReports.TraceIsTruth | doca-3/pcc-path-steering/device/rp_main.c:347-363 | then the reports are the events that have an owner with adjacent repetitions removed: same latest rates, and no two equal rates in a row under one owner |
| TraceReports.OrdinaryNeverLost | doca-3/pcc-path-steering/device/rp_main.c:248-257 | QPNs other than 0 and rates in 1..2^20 lose nothing, across any number of recyclings |
| TraceReports.SwallowedExamples | doca-3/pcc-path-steering/device/rp_main.c:347-348 | counterexamples: first rate 0, rate 2^32-1 after recycling, and QPN 0 |
| TraceReports.CompressKeepsLatest | doca-3/pcc-path-steering/device/rp_main.c:347-363 | removing adjacent repetitions keeps every QPN's latest rate |
| TraceReports.HostTableIsLatest | doca-3/pcc-path-steering/host/pcc_core.c:133-142 | while the host table has room its last rates are that map |
| Sampling.SearchBits | doca-3/pcc-path-steering/steering/steer.c:662-666 | the loop finds the fewest bits whose fraction is not above the request |
| Sampling.GetRandomMask | doca-3/pcc-path-steering/steering/steer.c:657-671 | the mask is that many low bits, 17 cut off to 16 |
| Sampling.HitsOfMask | doca-3/pcc-path-steering/steering/steer.c:657-671 | a mask of i bits is hit by exactly one random value in 2^i |
| Sampling.RoundsDownIff | doca-3/pcc-path-steering/steering/steer.c:652-671 | f <= p < 2f exactly when p is at least one value in 65536; below that the mask rounds up |
| Sampling.TinyRequestRoundsUp | doca-3/pcc-path-steering/steering/steer.c:662-671 | counterexample family: a request below the smallest fraction, such as 0.001 percent, gets that fraction |
| Sampling.GetShiftedMask | doca-3/pcc-path-steering/steering/steer.c:694-698 | the 3.x sampling mask, shifted and cut off to 16 bits |
| Sampling.HitsOfShifted | doca-3/pcc-path-steering/steering/steer.c:694-700 | the shift keeps the number of hits, half of them with bit 0 set, except that a full-width mask is hit twice as often |
| Sampling.ChooseCe | doca-3/pcc-path-steering/steering/steer.c:1777-1797 | the doubled and capped request: mark all, none, or sample |
| Sampling.OverallRateIff | doca-3/pcc-path-steering/steering/steer.c:1777-1797 | with half of a path eligible the overall rate is in (intended/2, intended] exactly when twice the request is at least two values in 65536, and above the request below that |
| Sampling.RateIsCapped | doca-3/pcc-path-steering/steering/steer.c:1784-1790 | no request marks more than half, and exactly the requests from 50 percent up mark half |
| Pipes.FirstHit | doca-3/pcc-path-steering/steering/steer.c:1535-1555 | the first matching entry decides |
| Pipes.FlowPort.CreatePipe | doca-3/pcc-path-steering/steering/steer.c:560-603 | a pipe is created with forwards to existing pipes only |
| Pipes.RouteEnds | doca-3/pcc-path-steering/steering/steer.c:2055-2179 | every route visits ever older pipes, so a traversal ends within the number of pipes created |
| Pipes.LaterIrrelevant | doca-3/pcc-path-steering/steering/steer.c:2055-2179 | pipes created later do not change what an earlier pipe does |
| Pipes.FloodOfTwo | doca-3/pcc-path-steering/steering/steer.c:1128-1163 | a flooding pipe with two entries serves both targets, in order |
| Pipes.OneEntry | doca-3/pcc-path-steering/steering/steer.c:1671-1717 | a one-entry pipe is a conditional between its hit and its miss |
| Pipes.TwoEntries | doca-3/pcc-path-steering/steering/steer.c:605-650 | a two-entry pipe tries its entries in order |
| Pipes.CountsOnlyBelow | doca-3/doca-flow/doca_flow_solution.c:576-578 | a pipe's counter is untouched by what enters below it |
| SteerPipeline.Delivers | doca-3/pcc-path-steering/steering/steer.c:560-603 | IPv4 leaves through the pipe's port unchanged |
| SteerPipeline.Receives | doca-3/pcc-path-steering/steering/steer.c:605-650 | the SF is chosen by the destination address alone, SF 0 for any other |
| SteerPipeline.Clears | doca-3/pcc-path-steering/steering/steer.c:1566-1617 | only the path bit is cleared before delivery |
| SteerPipeline.Marks | doca-3/pcc-path-steering/steering/steer.c:1621-1667 | CE is set and the path bit cleared before delivery |
| SteerPipeline.MarksPath | doca-3/pcc-path-steering/steering/steer.c:1671-1717 | a path marks exactly the packets to its own address that its sampler hits |
| SteerPipeline.DemuxesPath | doca-3/pcc-path-steering/steering/steer.c:789-842 | the path bit alone chooses the path |
| SteerPipeline.ChecksRoce | doca-3/pcc-path-steering/steering/steer.c:1026-1085 | only RoCE enters the chain, the rest bypasses it |
| SteerPipeline.WireIngress | doca-3/pcc-path-steering/steering/steer.c:2081-2105 | the ingress chain as a whole |
| SteerPipeline.CountsCnp | doca-3/pcc-path-steering/steering/steer.c:1721-1770 | exactly the CNPs of the counted senders go to SF 0 |
| SteerPipeline.Rewrites | doca-3/pcc-path-steering/steering/steer.c:851-904 | the whole ToS byte becomes the path bit with ECT(0) |
| SteerPipeline.Dispatches | doca-3/pcc-path-steering/steering/steer.c:912-964 | a bucket goes where the bucket map says |
| SteerPipeline.Classifies | doca-3/pcc-path-steering/steering/steer.c:969-1021 | the hash value's bucket decides the path bit on the wire |
| SteerPipeline.SfEgress | doca-3/pcc-path-steering/steering/steer.c:2134-2168 | the egress chain as a whole, forced path included |
| SteerPipeline.ClonesQp1 | doca-3/pcc-path-steering/steering/steer.c:1128-1205 | QP1 gets the normal delivery and one CPU copy, everything else the next stage |
| SteerPipeline.ArpStage | doca-3/pcc-path-steering/steering/steer.c:1419-1465 | ARP takes its own forward, the rest goes on |
| SteerPipeline.Demuxes | doca-3/pcc-path-steering/steering/steer.c:1499-1561 | the source port chooses the direction; unknown ports are dropped |
| SteerPipeline.PipelineMeans | doca-3/pcc-path-steering/steering/steer.c:2055-2179 | for every role, forced path, bucket map, CNP list, port and IPv4 or ARP packet the built graph does what the table-free meaning says |
| SteerBuild.CreateTerminals | doca-3/pcc-path-steering/steering/steer.c:2055-2069 | delivery pipes and, for ingress, the receiver choice |
| SteerBuild.CreateCeTarget | doca-3/pcc-path-steering/steering/steer.c:1777-1797 | the sampling stage exists only strictly between none and all |
| SteerBuild.CreateMarker | doca-3/pcc-path-steering/steering/steer.c:2087-2098 | a path's marker, sampler and address match, wired to each other |
| SteerBuild.CreateIngress | doca-3/pcc-path-steering/steering/steer.c:2081-2105 | the ingress chain is built as the meaning expects it |
| SteerBuild.CreateClassifier | doca-3/pcc-path-steering/steering/steer.c:2155-2160 | 64 dispatch entries, half on each path, behind the hash |
| SteerBuild.CreateEgress | doca-3/pcc-path-steering/steering/steer.c:2134-2168 | the egress chain, around the classifier when a path is forced |
| SteerBuild.InstallQp1Clones | doca-3/pcc-path-steering/steering/steer.c:1337-1351 | QP1 observation in front of both directions |
| SteerBuild.InstallArpPaths | doca-3/pcc-path-steering/steering/steer.c:1467-1489 | ARP handling in front of both directions, for ingress |
| SteerBuild.Start | doca-3/pcc-path-steering/steering/steer.c:1972-2179 | the start-up code builds, for every role, an ordered graph that is wired as the meaning expects |
| SteerBuild.MoveBucket | doca-3/pcc-path-steering/steering/steer.c:1941-1956 | a live share update keeps the graph ordered and wired, with the one bucket moved |
| SteerBuild.AddCnpEntry | doca-3/pcc-path-steering/steering/steer.c:2283-2292 | a live CNP entry keeps the graph ordered and wired, with the one QPN added |
| SteerBuild.IsCounted | doca-3/pcc-path-steering/steering/steer.c:2270-2273 | the search over the counted senders |
| SteerBuild.WantsCnpEntry | doca-3/pcc-path-steering/steering/steer.c:2266-2278 | a learned sender gets an entry only once, up to 64 of them, and only with the CNP pipe |
| SteerBuild.BucketMoved | doca-3/pcc-path-steering/steering/steer.c:1941-1947 | replacing one dispatch entry's forward is the new bucket map and nothing else |
| SteerBuild.CnpAdded | doca-3/pcc-path-steering/steering/steer.c:2283-2292 | appending one CNP entry is the longer CNP list and nothing else |
| SteerEndToEnd.DataEndToEnd | doca-3/pcc-path-steering/steering/steer.c:605-1210 | sender to receiver address r, for every role: one copy on SF port 1 + r, ToS 0x03 iff its bucket's path is r and it was sampled, else 0x02; a CNP counted by the receiving host goes to SF 0 as it was |
| SteerEndToEnd.DataPromisedIff | doca-3/pcc-path-steering/steering/steer.c:1721-1770 | the promised SF and byte are met exactly when the packet is no such CNP, or is one for SF 0 on path 0 that nobody marks |
| SteerEndToEnd.MarkingRate | doca-3/pcc-path-steering/steering/steer.c:1777-1797 | of the 65536 random values the number that delivers CE to an address, by that address's own percentage: all from 50 up, none from 0 down, else a power of two whose half share is the percentage rounded down by less than half, exactly from 100/65536 percent up |
| SteerEndToEnd.ReceivedBy | doca-3/pcc-path-steering/steering/steer.c:605-650 | which SF gets any IPv4 packet from the wire, for every role; non-RoCE unchanged |
| SteerEndToEnd.SentBy | doca-3/pcc-path-steering/steering/steer.c:1026-1085 | any IPv4 packet from an SF goes to the wire once, QP1 with a CPU copy, unchanged unless it is RoCE data of a host with egress |
| SteerEndToEnd.ArpThrough | doca-3/pcc-path-steering/steering/steer.c:1419-1489 | ARP from the wire reaches both SFs, from an SF the wire |
| SteerEndToEnd.UnknownPort | doca-3/pcc-path-steering/steering/steer.c:1499-1561 | exactly what comes from no known port is dropped |
| SteerEndToEnd.ForcedPath | doca-3/pcc-path-steering/steering/steer.c:2140-2151 | a forced path takes all RoCE data: byte 0x02 for path 0, 0x06 for path 1 |
| SteerEndToEnd.BucketPath | doca-3/pcc-path-steering/steering/steer.c:912-1021 | otherwise the low six bits of the hash choose the bucket and that the byte |
| SteerEndToEnd.ReverseUnchanged | doca-3/pcc-path-steering/steering/steer.c:2062-2179 | the way back, for every pair of roles and every packet: unchanged exactly when the written byte is already there or none is written, and the byte is already clean or not treated |
| SteerEndToEnd.ReverseCleanIff | doca-3/pcc-path-steering/steering/steer.c:2062-2179 | all reverse traffic comes through unchanged exactly when one host has the egress role and the other the ingress role |
| SteerEndToEnd.Qp1Cloned | doca-3/pcc-path-steering/steering/steer.c:1128-1205 | QP1 in either direction: one untouched delivery and one untouched CPU copy |
| SteerEndToEnd.PathBitHidden | doca-3/pcc-path-steering/steering/steer.c:1566-1660 | what arrives from the wire, for every role: treated packets leave once with the path bit clear, the other DSCP bits as they were and ECN as it was or CE; all others leave as they came |
| SteerEndToEnd.PathBitLeavesIff | doca-3/pcc-path-steering/steering/steer.c:2081-2157 | wire IPv4 leaves with the path bit exactly when it came with it and is QP1, not RoCE, on a host without ingress, or a CNP counted by a host with egress |
| SteerEndToEnd.CountedCnpLeaks | doca-3/pcc-path-steering/steering/steer.c:2134-2136 | counterexample in the default role: a counted CNP to path 1's address with byte 0x06 reaches SF 0 with the bit |
| SteerEndToEnd.EgressKeepsDscpIff | doca-3/pcc-path-steering/steering/steer.c:866-899 | the egress write keeps the other DSCP bits exactly when they are all zero |
| SteerEndToEnd.Dscp26Lost | doca-3/pcc-path-steering/steering/steer.c:895-899 | counterexample: DSCP 26 with ECT(0) leaves as 0x02 or 0x06 |
| SteerEndToEnd.ShareOfTraffic | doca-3/pcc-path-steering/steering/steer.c:912-964 | of 64 hash values as many leave on path 0 as there are buckets on it, which for the map of share s is s |
| ShareInstall.MovesMean | doca-3/pcc-path-steering/steering/steer.c:1935-1957 | the entry updates of a call that take effect turn the hardware map into the share control's |
| ShareInstall.Install | doca-3/pcc-path-steering/steering/steer.c:1941-1947 | a list of entry updates leaves the graph as built, with the bucket map that they amount to |
| ShareInstall.CallsInstalled | doca-3/pcc-path-steering/steering/steer.c:1926-1970 | after any sequence of share updates and any failures the graph is as built with exactly the share control's hardware map |
| ShareInstall.TrafficFollows | doca-3/pcc-path-steering/steering/steer.c:1926-1970 | RoCE data then leaves on the hardware path of its hash bucket |
| ShareInstall.CompletedTraffic | doca-3/pcc-path-steering/steering/steer.c:1926-1970 | after a completed call with no bucket lost, the share is the number of hash values out of 64 that leave on path 0 |
| EcnPipeline.CreateEnds | doca-3/doca-flow/doca_flow_ecn_pcap.c:1072-1078 | fallback, CPU and flooding pipes in each program's order |
| EcnPipeline.CreateTarget | doca-3/doca-flow/doca_flow_solution.c:930-940 | the entry point by percentage: MARK, PASS, or a sampler in front of both |
| EcnPipeline.CreateForwards | doca-3/doca-flow/doca_flow_solution.c:924-928 | PASS always, MARK above zero percent |
| EcnPipeline.BuildPipeline | doca-3/doca-flow/doca_flow_solution.c:909-943 | the graph of each of the three programs is wired as the meaning expects |
| EcnPipeline.Forwards | doca-3/doca-flow/doca_flow_solution.c:511-642 | PASS and MARK: one delivery, and one copy of the same packet when capturing |
| EcnPipeline.FallsThrough | doca-3/doca-flow/doca_flow_solution.c:583-587 | what they do not match reaches the fallback unchanged |
| EcnPipeline.Samples | doca-3/doca-flow/doca_flow_solution.c:652-712 | the selected packets reach MARK, the others PASS |
| EcnPipeline.Roots | doca-3/doca-flow/doca_flow_solution.c:736-898 | both root pipes: by direction, everything else dropped |
| EcnPipeline.ProgramMeans | doca-3/doca-flow/doca_flow_solution.c:450-943 | every program, percentage and packet has the table-free meaning |
| EcnPipeline.MarkingRate | doca-3/doca-flow/doca_flow_solution.c:652-712 | how many of the 65536 random values mark a packet: all from 100 percent up, none from 0 down, else a power of two whose share is the percentage rounded down by less than half, or one value below 100/65536 percent |
| EcnPipeline.ForwardsIpv4 | doca-3/doca-flow/doca_flow_solution.c:736-898 | IPv4 by port, for every program: uplink to SF with the byte untouched or 0x03 and a CPU copy when capturing, SF to uplink unchanged, all else dropped |
| EcnPipeline.RefinesNop | doca-3/doca-flow/doca_flow_solution.c:736-790 | the solution gives every packet the no-op forwarder's fate and changes it exactly when it is a selected wire IPv4 packet not already 0x03, and then only its ToS byte |
| EcnPipeline.MirrorIsFlood | doca-2/doca-flow/doca_flow_ecn_pcap.c:722-746 | capturing by mirror and by flood deliver the same packets and the same copies |
| EcnPipeline.CountsOnce | doca-3/doca-flow/doca_flow_solution.c:576-578 | each wire IPv4 packet is counted once, at MARK if selected and at PASS otherwise |
| EcnPipeline.CountersAddUp | doca-3/doca-flow/doca_flow_solution.c:576-578 | over any stream the CE counter is the selected packets and the two counters add up to the wire IPv4 packets |
| Qp1Parser.TagsUnique | doca-3/pcc-path-steering/steering/steer.c:2519-2524 | a frame has at most one reading of its VLAN tags |
| Qp1Parser.ParseMad | doca-3/pcc-path-steering/steering/steer.c:2554-2577 | REQ and REP fields of the MAD, each under its own length check |
| Qp1Parser.ParseIp | doca-3/pcc-path-steering/steering/steer.c:2528-2552 | IPv4, UDP 4791 and the destination QPN; feedback on 2.x only |
| Qp1Parser.ParseQp1Clone | doca-3/pcc-path-steering/steering/steer.c:2510-2578 | a message is reported exactly when some number of tags leads to an IPv4 packet that carries it; every index is below the captured length and the walk ends |
| Qp1Parser.YieldsIff | doca-3/pcc-path-steering/steering/steer.c:2519-2577 | exactly what is reported, byte by byte: IPv4 of at least five words, UDP 4791, QPN 1 with class 0x07 and attribute 0x0010 or 0x0013 on 3.x, any other QPN on 2.x, and the fields it carries |
| Qp1Parser.OtherAttributes | doca-3/pcc-path-steering/steering/steer.c:2556-2577 | any other attribute, such as an RTU, or another class reports nothing |
| Qp1Parser.HandleClone | doca-3/pcc-path-steering/steering/steer.c:2569-2577 | the parsed message, and only that, reaches the controller's tables |
| Qp1Parser.CmRoundTrip | doca-3/pcc-path-steering/steering/steer.c:2510-2578 | inverts the encoder of REQ and REP: any tags, header length and other bytes |
| Qp1Parser.FeedbackRoundTrip | doca-3/pcc-path-steering/steering/steer.c:2539-2546 | inverts the encoder of other RoCE packets on 2.x, and reports nothing for them on 3.x |
| PcapStats.EcnOfFrame | admin/local_scripts/pcap_ecn_stats.py:47-62 | the codepoint exactly of the frames that some number of tags makes IPv4 |
| PcapStats.File.ReadBytes | admin/local_scripts/pcap_ecn_stats.py:69-69 | a read is short only at the end of the file |
| PcapStats.ReadRecord | admin/local_scripts/pcap_ecn_stats.py:80-91 | a record is complete, or the file ends inside it or before it |
| PcapStats.ReadRecords | admin/local_scripts/pcap_ecn_stats.py:79-98 | the loop counts record after record |
| PcapStats.ReadPcap | admin/local_scripts/pcap_ecn_stats.py:65-100 | header checks with their three refusals, then the counts |
| PcapStats.ReadAddsUp | admin/local_scripts/pcap_ecn_stats.py:66-98 | for any bytes ipv4 = not_ect + ect0 + ect1 + ce <= packets, and truncated <= 1 |
| PcapStats.LaterCountsMore | admin/local_scripts/pcap_ecn_stats.py:81-91 | a longer prefix of the same records never counts less |
| PcapStats.Complete | admin/local_scripts/pcap_ecn_stats.py:87-91 | the number of complete records: the last boundary not behind the cut |
| PcapStats.ReadCut | admin/local_scripts/pcap_ecn_stats.py:65-100 | reading inverts a writer in either byte order and, cut anywhere, counts exactly the complete records |
| PcapStats.ReadCounts | admin/local_scripts/pcap_ecn_stats.py:79-98 | the counts of a file cut anywhere are the complete records, the IPv4 ones among them, and those whose ToS byte has low bits 0, 2, 1 and 3 |
| PcapStats.FrameCodepoint | admin/local_scripts/pcap_ecn_stats.py:47-62 | the codepoint of an encoded frame is its ToS byte % 4 behind any number of tags |
| PcapStats.Refusals | admin/local_scripts/pcap_ecn_stats.py:68-77 | too short exactly below 24 bytes, not a pcap exactly without one of the four magics |
| PcapStats.TruncatedIff | admin/local_scripts/pcap_ecn_stats.py:81-91 | truncated is 1 exactly off a record boundary, and packets is the number of complete records |
| RegenTemplates.LocatesUnique | admin/local_scripts/regen_templates.py:148-189 | a text and a cut determine the function, recipe and answer |
| RegenTemplates.Text.FindFn | admin/local_scripts/regen_templates.py:148-160 | finds the only definition, its opening line and its closing brace, or refuses exactly when there is none |
| RegenTemplates.Text.FindRegion | admin/local_scripts/regen_templates.py:168-188 | finds the region exactly when the text has one |
| RegenTemplates.Text.CutRegion | admin/local_scripts/regen_templates.py:163-189 | deletes one contiguous block inside the named function, or leaves the text alone |
| RegenTemplates.Text.CutAll | admin/local_scripts/regen_templates.py:208-209 | all cuts, the last one first, or refuses |
| RegenTemplates.Text.Swap | admin/local_scripts/regen_templates.py:212-215 | replaces the pipeline function and the comment lines directly above it |
| RegenTemplates.Text.Derive | admin/local_scripts/regen_templates.py:201-217 | for any accepted text the result outside the replacement is a subsequence of the solution |
| RegenTemplates.CutsDelete | admin/local_scripts/regen_templates.py:208-209 | however many cuts and wherever they are, they only delete lines |
| RegenTemplates.CutsExercise | admin/local_scripts/regen_templates.py:163-189 | in a text built from its parts the cut leaves the recipe and deletes exactly the blank line, the answer and its end line |
| RegenTemplates.DefinitionMeans | admin/local_scripts/regen_templates.py:150-150 | a definition starts with static and has the name before a parenthesis at some position |
| RegenTemplates.CommentMeans | admin/local_scripts/regen_templates.py:178-178 | a recipe line is two slashes behind any indentation |
| RegenTemplates.BlankAndOpenMean | admin/local_scripts/regen_templates.py:155-180 | blank is whitespace only; an opening line ends in a brace up to whitespace |
| RegenTemplates.HeadMeans | admin/local_scripts/regen_templates.py:212-214 | the swap takes exactly the unindented comment lines directly above the function |
| RegenOrder.Relocates | admin/local_scripts/regen_templates.py:206-207 | a cut elsewhere moves a region but does not change what is found |
| RegenOrder.CutsKeep | admin/local_scripts/regen_templates.py:208-209 | cuts that leave alone what later ones look for, disjoint or with inner regions cut first, all succeed and keep exactly the lines outside all their regions |
| RegenOrder.OrderIrrelevant | admin/local_scripts/regen_templates.py:89-97 | the order in which cuts are listed that leave each other's anchors alone does not matter |
| RegenOrder.WholeIff | admin/local_scripts/regen_templates.py:208-209 | a block of lines comes through whole exactly when no region meets it |
| RegenOrder.RecipeWholeIff | admin/local_scripts/regen_templates.py:174-189 | a recipe comes through all such cuts whole, followed by position, exactly when no other region's first..last meets its todo..first lines |
| RegenOrder.RecipeKept | admin/local_scripts/regen_templates.py:174-189 | when no cut touches what any other one looks for, every recipe does |
| RegenOrder.SwapIsCut | admin/local_scripts/regen_templates.py:212-215 | outside the replacement the swap keeps exactly the lines outside the function and the comments above it |
| RegenOrder.RecipeSurvivesIff | admin/local_scripts/regen_templates.py:201-217 | a recipe is in the result outside the replacement, whole, exactly when no other region meets it and the swapped function does not |
| RegenOrder.NestedRecipeLost | admin/local_scripts/regen_templates.py:208-209 | counterexample: a recipe inside another recipe's answer is accepted and deleted |
| RegenOrder.KeepLast | admin/local_scripts/regen_templates.py:189-189 | deleting one region in place and then the rest is deleting them all |

## Left out

- The DOCA, DPDK and EAL calls themselves, device and port start-up, argument parsing and logging.
- The error returns of `steer_start` (already started, missing addresses, invalid role): they stop the program before anything is built.
- The rate algorithm: the steering rate is an arbitrary input.
- Races between device workers on the mailbox arrays: each `rate_mailbox_store` is one step.
- Trace-buffer flushing, the per-bucket event counters of the device, and throughput and CNP-per-second printing.
- The DOCA 2.x egress build of the steering pipelines, its shared mirrors and the retirement of their entries (`steer.c:2307-2324`).
- Non-IPv4, non-ARP traffic in the steering pipelines and non-IPv4 traffic in the capturing programs: a NULL miss is the library's choice.
- Whitespace beyond ASCII in the template script, clang-format, and file access.
- The capture loops of the pcap programs, the no-op program, the slides, the fleet and participant scripts.
- SteerLock.Linearizable: memory is sequentially consistent; the acquire and release orderings of the lock flag are not modelled.
- ShareControl.ShareController.constructor: with a forced path shows the DOCA 2.x map; on 3.x there is then no classifier and the map is never used.
- RateChannel.PollAgrees: a poll that fails hands on nothing and is not a step.
- RegenOrder.RecipeWholeIff: does not cover cuts that remove a line a later cut looks for; the later one is then refused or finds another region of what is left.
- SteerOrder.Confluent: does not cover messages that name more communication ids or senders than the 256 entries hold, because which of them get an entry then depends on the order; SteerTiming.TimingCheck has no such bound.
- EcnPipeline.BuildPipeline: the counters are the numbers of hits, without the library's query interface.
