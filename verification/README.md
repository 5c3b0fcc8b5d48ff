# Roadbook in Dafny

Roadbook turns a phone's location history into adventures: it detects spans away from home, lets a
person keep or dismiss each one, reconstructs the journey, and slices it into days. These files model
that logic and prove what the product promises about it.

Times are integer nanoseconds with the UTC offset they were recorded in, distances and coordinates are
`real`. The great-circle distance is a parameter: any function of two places that is never negative and
is zero from a place to itself.

**Triage.** `matching`, `matching_laws`, `decisions`, `triage`, `server`. A decision is never linked to a
candidate in storage; the link is recomputed by a greedy matching. The association is characterised as
the only stable matching, and from that follow the effects of inserting, re-deciding, deciding in bulk
and restoring. The top result is that stored anchors plus recomputed matching implement a plain map from
candidate to verdict.

**Journeys.** `teleports`, `stops`, `journey`, `journey_laws`, `journey_account`, `assembly`, `loading`,
`routing`, `placement`, `summaries`, `slicing`, `slicing_laws`. Assembly filters, sorts, rejects teleports, thins,
splits into legs and adds up; routing redraws gaps; photos are placed; the server's summary and the web
client's day slicer are proved to agree.

**Detection.** `detection`, `stays`, `bases`, `bases_account`, `candidates`, `detect_run`, `overlap`. Outlier
compaction in place, stay synthesis, home bases, away-runs, the bisect-bounded dwell scan, and what the candidates of one run
promise to triage.

**Durable state.** `durable`, `operations`, `instance`, `backup`, `backup_laws`, `round_trip`,
`backup_run`, `importing`, `timeline`. Operations are lists of atomic steps and a crash leaves any prefix
behind; archives are ordered entry lists; imports are keyed inserts; an export is a token stream.

`domain` and `seqs` hold the shared vocabulary. Loops are methods proved against recursive
specifications; the promises are lemmas about those specifications. Beside the equation with its
specification, each main operation states its result over again in terms of its input alone, without
naming that specification: what a stored row says, which rows are linked, which clusters go, which files
go, which gaps become roads, what a day lists.

## Assumptions worth knowing

- A run's candidates have distinct ids, non-empty spans and do not overlap (`MatchingLaws.RunOk`), and
  `MatchKm` is not negative. `DetectRun.RunIsTriageable` gives the exact condition under which detection
  delivers the first, for a positive minimum duration; only a visit recorded past a later homecoming can
  break it (`DetectRun.OverlapNeedsOverlongVisit`), and one does (`Overlap.OverlongVisitOverlaps`).
- The dwell scan is exact on visits in start order, which is how the store loads them
  (`Loading.LoadedInOrder`); on an export out of order it judges what bisection finds.
- Agreement of the two paces needs every moving leg to take time, as a thinning spacing above zero ensures;
  `SlicingLaws.SimultaneousPointsDisagree` shows what happens without one.
- Stops are disjoint exactly under the condition of `Stops.StopsApartIff`; activities that end no earlier
  than they start meet it.
- Deleting a photo keeps every other row's thumbnail exactly when no other row claims the same hash.

## Where the code and its own words differ

- The comment at internal/journey/summary.go:25 says stops can reach past the window. The predicate at
  internal/journey/journey.go:479-481 keeps every stop inside it, and `Stops.StopsStayInside` proves that.
- Deciding is described as always moving the decision to the candidate the user is looking at. It fails
  when an orphaned decision holds that exact anchor (`Triage.DecideFailsIff`, `Triage.ShadowedExample`).
- internal/api/photos.go:302-308 removes a thumbnail without asking who else claims it. It is safe exactly
  as `Operations.DeletePhotoSafeIff` says, and `Operations.SharedBytesBreak` reaches the other case.
- Candidates of one run are meant to be separate adventures; overlong visit records can make two overlap
  (`Overlap.OverlongVisitOverlaps`).
- Applying routes twice forgets the routed kilometres (`Routing.ReapplyForgetsRoutedKm`).
- The summary's day count is negative, where the slicer shows no day, exactly for a journey without legs or
  stops whose window ends two or more calendar days before it starts (`SlicingLaws.DayCountsAgree`,
  `SlicingLaws.CalendarCanRunBackwards`).
- An activity recorded backwards can make stops overlap and dwell exceed the window
  (`Stops.BackwardActivityOverlaps`).

## Model

| member | source | states |
|---|---|---|
| `Matching.Match` | internal/detect/match.go:53-103 | For any order of the two lists, the ids returned are those of the association; in plain terms, linked rows share time and lie within the match distance, no row is linked twice, and every pair that could be linked and is not is outranked, by longer shared time and then the tie-breaks, by a link of one of its two rows |
| `Matching.GreedyStable` | internal/detect/match.go:72-101 | Taking the best pair and discarding what it touches leaves every compatible unchosen pair beaten by a better chosen pair on one of its sides; the result is one-to-one |
| `Matching.StableUnique` | internal/detect/match.go:72-101 | Under the strict ranking there is only one such matching |
| `Matching.AssociationIsTheStableOne` | internal/detect/match.go:53-103 | A matching is the one computed if and only if it is one-to-one, made of compatible pairs, and blocks every pair it leaves out |
| `MatchingLaws.AssociationIsHalfOptimal` | internal/detect/match.go:72-101 | The total overlap chosen is at least half that of every other one-to-one assignment of compatible pairs |
| `MatchingLaws.InsertAddsOne` | internal/api/server.go:359-367 | A decision recorded for an unmatched candidate adds exactly that association and moves no other |
| `MatchingLaws.UpdateMovesNothing` | internal/api/server.go:362-365 | Re-deciding a matched candidate refreshes that decision's anchor and leaves every association where it was |
| `MatchingLaws.UnmatchedHasNoAnchor` | internal/api/server.go:362-367 | If some decision is anchored exactly on a candidate, that candidate is matched |
| `MatchingLaws.RenumberingIsHarmless` | internal/detect/match.go:72-90 | Renumbering decision rows in an order-preserving way renumbers the association and changes nothing else |
| `Decisions.DecisionStore.ListDecisions` | internal/store/decisions.go:28-45 | Every row exactly once, in ascending id order |
| `Decisions.DecisionStore.InsertDecision` | internal/store/decisions.go:47-56 | One fresh row under the next id that says the given action, name and anchor with both timestamps now, or nothing at all when the anchor is taken or a confirmation has no name |
| `Decisions.DecisionStore.UpdateDecision` | internal/store/decisions.go:98-106 | The row keeps id and creation time and says the new action, name, anchor and time; an anchor held by another row makes the statement fail and change nothing |
| `Decisions.DecisionStore.DecideBulk` | internal/store/decisions.go:70-96 | All items land in order in one transaction, each on the row it names or on a fresh one of its own that says what the item says, and every other row stays; or none lands |
| `Triage.ExactAnchorHolder` | internal/api/server.go:362-367 | Whoever holds a candidate's exact anchor is that candidate's match or an orphan |
| `Triage.DecideFailsIff` | internal/api/server.go:362-371 | A decide is refused by the unique anchor if and only if an orphan holds the candidate's exact anchor |
| `Triage.DecideEffect` | internal/api/server.go:329-371 | A written decide changes the verdict of its own candidate and no other verdict, association or orphan |
| `Triage.LinksInjective` | internal/detect/match.go:91-101 | No decision is shown on two candidates |
| `Triage.DecidesRefineMap` | internal/api/server.go:329-371 | Over any sequence of decides, stored anchors plus recomputed matching implement a plain map from candidate to verdict; orphans stay as they were |
| `Triage.DecideAllOutcome` | internal/api/server.go:377-436 | A sequence of decides on distinct candidates succeeds as a whole exactly when no candidate is shadowed at the start |
| `Triage.DecideAllLinks` | internal/api/server.go:377-436 | The decides move the links of their own candidates to fresh rows or keep them, and move no other link |
| `Triage.BulkIsSequential` | internal/api/server.go:377-436 | The bulk write, planned from one matching, succeeds exactly when deciding one by one does, and reaches the same rows up to timestamps and exactly the same associations, verdicts and orphans |
| `Triage.ShadowedExample` | internal/api/server.go:362-371 | Re-deciding can fail: from an empty table, two decisions over two runs and a third run whose candidate every decide is refused |
| `Server.AcceptedRequests` | internal/api/server.go:329-345 | A request is accepted if and only if it dismisses, or confirms under a name with a visible character; an accepted confirmation has a name |
| `Server.TriageServer.MatchedState` | internal/api/server.go:447-465 | The decisions listed and their association with the latest run, recomputed from the stored anchors |
| `Server.TriageServer.DecideCandidate` | internal/api/server.go:329-371 | Validation, lookup, then update-or-insert through the recomputed match; the row returned is the row stored, confirmed exactly when the request says so, named by the request's name from its first to its last visible character, without a name when dismissed; every refusal leaves the rows unchanged |
| `Server.TriageServer.PlanBulk` | internal/api/server.go:377-424 | A bulk request is acceptable exactly when every item parses and no candidate is named twice; missing candidates are reported in order |
| `Server.BulkIsManyDecides` | internal/api/server.go:377-436 | An acceptable bulk request has the outcome of deciding its items in separate requests at any times: same rows up to timestamps, same associations, verdicts and orphans; it is refused exactly when a named candidate is shadowed |
| `Server.TriageServer.DecideCandidatesBulk` | internal/api/server.go:377-436 | Nothing is written unless every item is valid, known and lands; then every item has a row of its own with the action asked for, the trimmed name of a confirmation and no name of a dismissal, and the rows are those of deciding the items |
| `Server.TriageServer.ListCandidates` | internal/api/server.go:76-117 | Each candidate with the decision matched to it, and as orphans exactly the decisions no candidate carries |
| `Teleports.ClustersCover` | internal/journey/journey.go:342-365 | The clusters concatenate back to the stream |
| `Teleports.ClustersMaximal` | internal/journey/journey.go:342-365 | Every point of a cluster lies within the radius of its first point, and the first point of the next cluster does not |
| `Teleports.TeleportsAreBridged` | internal/journey/journey.go:366-407 | What remains is a subsequence with the same first and last point, and every adjacency created by a removal has implied speed at most the limit |
| `Teleports.PlausibleStreamsPass` | internal/journey/journey.go:342-407 | A stream with no consecutive pair above the limit is returned unchanged |
| `Teleports.RejectTeleports` | internal/journey/journey.go:342-407 | The loop returns what rejection leaves and counts exactly the points removed; with a limit and three points or more, that is the stream without the clusters whose edge from the last one kept, or to the next one, is faster than the limit while the bridge over them is not |
| `Teleports.TeleportsAreDropped` | internal/journey/journey.go:366-407 | With a limit and three points or more, what remains is an increasing choice of the clusters with the first and the last; each cluster skipped is too fast to reach or to leave, in kilometres against limit times hours, while the bridge over it is not, and no inner cluster kept is like that |
| `Stops.FindStops` | internal/journey/journey.go:441-477 | The sorted pairwise scan equals the stop specification: one stop between neighbouring activities whose silence is long enough |
| `Stops.MeasureStop` | internal/journey/journey.go:455-473 | The place of a stop is the mean and its drift is the end-to-end distance of the kept points during it, zero when there are none |
| `Stops.HaltPositions` | internal/journey/journey.go:441-477 | Every halt between two neighbouring activities gives its own stop, in order, and nothing else does |
| `Stops.StopsStayInside` | internal/journey/journey.go:441-481 | Every reported stop lies between the ends of the window, whatever the activities and the threshold, and runs forward for a threshold that is not negative |
| `Stops.StopsApartIff` | internal/journey/journey.go:441-477 | Stops do not overlap if and only if, of any two halts, the activity that ends the earlier starts no later than the activity before the later one ends; for a threshold that is not negative, comparing each halt with the next is enough |
| `Stops.StopsAreDisjoint` | internal/journey/journey.go:441-477 | Stops are time-ordered and pairwise non-overlapping when every activity that meets the window ends no earlier than it starts |
| `Stops.DwellBounded` | internal/journey/journey.go:441-477 | Summed dwell never exceeds the window span |
| `Stops.BackwardActivityOverlaps` | internal/journey/journey.go:441-477 | A backward activity can make stops overlap and their dwell exceed the window: three activities |
| `Assembly.SelectTraces` | internal/journey/journey.go:237-247 | The located trace points of the window in order, with the points at (0,0) left out and counted |
| `Assembly.SelectRaws` | internal/journey/journey.go:248-262 | The located raw positions of the window in order, with (0,0) and inaccurate fixes left out and counted separately |
| `Assembly.ThinPoints` | internal/journey/journey.go:279-292 | Keep-earliest thinning and the counts by source |
| `Assembly.SplitLegs` | internal/journey/journey.go:294-310 | The run loop produces the leg sequence specified recursively |
| `Assembly.AddUp` | internal/journey/journey.go:311-323 | The four distance totals are sums over the legs by kind |
| `Assembly.Assemble` | internal/journey/journey.go:230-336 | The whole pass equals the specified journey, and the journey has an account in terms of its observations |
| `JourneyAccount.JourneyAccounted` | internal/journey/journey.go:230-336 | Every figure of an assembled journey traced to its observations: which points are taken and which are counted as rejected and why, one stream in time order, teleports gone, thinning, legs, kilometres by kind, stops at the pauses between activities, and the distances the activities report |
| `JourneyLaws.ThinLaws` | internal/journey/journey.go:279-285 | A subsequence with the same first point, consecutive kept points spaced as asked, and every dropped point too close to the last kept one |
| `JourneyLaws.LegsWellSplit` | internal/journey/journey.go:294-310 | Legs alternate observed and gap, start and end observed, share end points, concatenate back to the kept stream, and have silences above the threshold exactly at gaps |
| `JourneyAccount.LegsMean` | internal/journey/journey.go:294-323 | An observed leg has no silence beyond the threshold; a gap is one, and a flight if and only if its kilometres reach the flight speed times its hours |
| `JourneyLaws.LegsCoverChords` | internal/journey/journey.go:294-323 | Leg distances sum to the chord length of the kept stream |
| `JourneyLaws.DistancesAddUp` | internal/journey/journey.go:311-323 | Total = observed + air + unknown = chord sum over the kept points |
| `JourneyLaws.KeptOrdered` | internal/journey/journey.go:265-285 | The kept stream is in time order, strictly so for a positive spacing |
| `Loading.SelectIsFilter` | internal/store/observations.go:293-356 | Selecting and ordering in the database is filtering what the full load returns, order included |
| `Loading.OnlyTheWindowMatters` | internal/journey/journey.go:230-336 | Assembly depends only on the observations that intersect the window |
| `Loading.WindowLoadSuffices` | internal/store/observations.go:293-356 | Assembling from the window-limited load gives the same whole journey as assembling from everything the user has |
| `Loading.LoadedInOrder` | internal/store/observations.go:206-220 | The full load hands visits over in start order |
| `Routing.OpenKeysAreTheGaps` | internal/route/route.go:106-129 | The key list holds every open gap's key, no other key, and none twice |
| `Routing.UnknownKeys` | internal/route/route.go:106-129 | The loop with its seen-set lists, once each, the keys whose coordinates are the nearest ten-thousandths of the two ends of some unexplained gap |
| `Routing.Apply` | internal/route/route.go:131-156 | The loop draws every unexplained gap whose two ends have a cached road, with that answer's points and kilometres, and no other leg; the routed total is what the new roads measure, the unknown total what the gaps left measure, and nothing else of the journey changes |
| `Routing.AppliedMeans` | internal/route/route.go:131-156 | Applying a lookup draws as a road exactly the unexplained gaps with a cached answer for their own two ends, and both totals follow from the legs |
| `Routing.RouteAccounts` | internal/route/route.go:131-156 | What routing adds to routed and takes from unknown is exactly what the drawn legs gain and lose |
| `Routing.OpenIsGround` | internal/route/route.go:106-129 | When gaps are flights or unknown, the length still open is the length of the gaps that are not flights |
| `Routing.OwnKeysSuffice` | internal/route/route.go:106-156 | Applying a lookup of the journey's own keys equals applying the whole cache |
| `Routing.ReapplyForgetsRoutedKm` | internal/route/route.go:136-153 | A second application changes no leg and no unknown length, but the routed figure becomes zero |
| `Routing.RouteCache.LookupRoutes` | internal/store/routes.go:18-65 | Exactly the cached answers of the asked keys |
| `Routing.RouteCache.SaveRoute` | internal/store/routes.go:67-101 | Upsert of one key; every other answer stays |
| `Routing.RouteCache.RunBatch` | cmd/roadbook/main.go:1024-1095 | Each distinct key is a hit or is asked; each counter is the number of asked keys with that answer; only answers are cached and failures leave the cache as it was |
| `Placement.PlacePhoto` | internal/journey/place.go:63-104 | The photo goes to the first stop whose ends enclose its instant, else to the first leg whose first and last point do, else nowhere; its distance is to the stop, the road drawn or the leg's own points, none for a flight, flagged exactly beyond the threshold |
| `Placement.EveryInstantPlaced` | internal/journey/place.go:63-104 | Every instant from the first to the last kept point is placed, and routing changes neither the stop nor the leg it is placed on |
| `Summaries.DayRangeCovers` | internal/journey/summary.go:87-112 | The day range contains the civil dates of every leg and stop, starts no later than the window and ends no earlier, and both its ends are such dates |
| `Summaries.CivilDays` | internal/journey/summary.go:87-112 | The touch loop returns last minus first plus one over that range |
| `Summaries.Summarize` | internal/journey/summary.go:53-83 | Moving hours, dwell hours, pace and civil days as sums over legs and stops |
| `Summaries.PaceExists` | internal/journey/summary.go:53-83 | A pace is reported exactly when some moving leg takes time |
| `Slicing.SliceDays` | web/lib/slice-days.ts:237-344 | One day per date of the range, in order; a day lists, in increasing order, exactly the stops whose civil dates span it and exactly the legs whose first point falls on it |
| `Slicing.DayComposition` | web/lib/slice-days.ts:194-216 | The four accumulators are the sums of the drawn kilometres by kind |
| `Slicing.DayPaceKmh` | web/lib/slice-days.ts:218-231 | Moving kilometres over moving hours, absent when no moving leg took time |
| `SlicingLaws.EveryLegOnOneDay` | web/lib/slice-days.ts:273-277 | Every leg is listed on exactly one of the days, the day it starts |
| `SlicingLaws.SlicedDaysAddUp` | web/lib/slice-days.ts:273-277 | Summing any leg measure over the legs each sliced day lists, and then over the days, is summing it over all legs |
| `SlicingLaws.CompositionSumsToKm` | web/lib/slice-days.ts:194-216 | Each day's composition sums to its kilometres |
| `SlicingLaws.DaysKmAddUp` | web/lib/slice-days.ts:237-277 | On an assembled, routed journey the days' kilometres sum to observed + routed + unknown + air |
| `SlicingLaws.DayCountsAgree` | internal/journey/summary.go:87-112 | The slicer's day count equals the summary's if and only if there is a leg or a stop, or the window ends at most one calendar day before it starts; there is at least one day if and only if there is a leg or a stop or the window runs forward over the calendar |
| `SlicingLaws.CalendarCanRunBackwards` | internal/journey/summary.go:87-112 | An empty journey over a window of 80 minutes between offsets +14 and -12 hours: the summary counts fewer than zero days, the slicer shows none |
| `SlicingLaws.PaceAgreesIff` | web/lib/slice-days.ts:218-231 | The moving kilometres as the days count them equal those the summary counts if and only if no moving leg with length takes zero time; the hours always agree |
| `SlicingLaws.AssembledMovesInTime` | internal/journey/journey.go:279-310 | With a positive thinning spacing every moving leg of an assembled journey takes time |
| `SlicingLaws.DaysPaceAddsUp` | web/lib/slice-days.ts:218-231 | Over the sliced days, the hours their paces divide by sum to the summary's, and the kilometres do exactly when every moving leg takes time, as it does for a positive spacing |
| `SlicingLaws.SimultaneousPointsDisagree` | internal/journey/journey.go:279-285 | Without a spacing they can differ: two trace points at one instant and apart are kilometres the days count and the summary does not |
| `SlicingLaws.MovingFitsTheWindow` | internal/journey/summary.go:53-83 | The moving hours of an assembled journey never exceed the hours of its window |
| `SlicingLaws.DwellFitsTheWindow` | internal/journey/summary.go:53-83 | The dwell hours do not either, if no halt reaches into the next |
| `Detection.BisectLeft` | internal/detect/pyport.go:34-45 | On ascending input, the partition point: everything before is below the target, everything after is not |
| `Detection.BisectRight` | internal/detect/pyport.go:47-58 | On ascending input, the other partition point: everything before is at most the target, everything after is above |
| `Detection.RejectOutliers` | internal/detect/detect.go:288-317 | In-place compaction equals filtering the original list by flags computed on the original; kept + dropped = length |
| `Detection.GoodExact` | internal/detect/detect.go:288-317 | The survivors are, in their order, exactly the observations that are not faster than the limit from every neighbour at another instant, having at least one |
| `Detection.FindSpans` | internal/detect/detect.go:323-342 | The runs reported are maximal away-runs, in order, disjoint, and cover every away index |
| `Detection.SpansAreAllRuns` | internal/detect/detect.go:323-342 | A list with those properties contains every maximal run |
| `Detection.HomeDistM` | internal/detect/detect.go:347-367 | Two passes over the bases compute the specified distance |
| `Detection.HomeIsNearest` | internal/detect/detect.go:347-367 | It is the distance to the nearest base whose era holds the day, without one the distance to the nearest base of all, without any base minus one |
| `Stays.SynthesizeStays` | internal/detect/synth.go:70-128 | The sweep with its open stay equals the grouping specification; in plain terms the located fixes fall, in time order, into groups that go on while the next fix comes soon enough after the last and near enough to the mean place so far, and the stays are the groups that last long enough, from first to last fix at the mean place |
| `Stays.GroupsCover` | internal/detect/synth.go:70-128 | Every located fix is in exactly one group, in time order |
| `Stays.GroupsSwept` | internal/detect/synth.go:70-128 | A group goes on as long as neither gap nor radius is exceeded and ends exactly where one is |
| `Stays.StaysAreMeant` | internal/detect/synth.go:70-128 | The located fixes, each as often as given, fall in time order into groups; a fix continues a group exactly when it comes within the allowed silence after the last fix and within the radius of the mean place so far; the stays are exactly the groups that last the minimum, first to last fix, at their mean place |
| `Stays.SynthesizedOrderedApart` | internal/detect/synth.go:70-128 | Synthesized stays are located, long enough, ordered and disjoint |
| `Stays.MergeVisitsByStart` | internal/detect/synth.go:134-150 | The two-index loop computes the merge, on any two lists |
| `Stays.MergedIsSorted` | internal/detect/synth.go:130-150 | Merging two sorted lists gives the stable sort of the real visits followed by the synthesized ones |
| `Candidates.ScanDwells` | internal/detect/detect.go:158-164 | The bounded loop computes the dwells of the stretch bisection finds, on visits in any order |
| `Candidates.DwellsOfSpan` | internal/detect/detect.go:158-164 | On visits in start order those are exactly the located, long enough visits that start in the span |
| `DetectRun.RunDwells` | internal/detect/detect.go:104-164 | So they are for the visits of a run, synthesized stays merged in or not |
| `Candidates.BestIsFarthest` | internal/detect/detect.go:168-177 | The destination is a dwell that no other dwell beats |
| `Candidates.DetectRuns` | internal/detect/detect.go:126-235 | All maximal away-runs are judged; the runs are exactly the maximal stretches of observations farther from home than the near distance |
| `Candidates.CandidateMeans` | internal/detect/detect.go:147-235 | On visits in start order, a run with a candidate has a farthest dwell beyond the far distance, enough observations and hours, and the candidate is that destination with those counts; a run without one has no dwell, or no dwell that far, or too few observations or hours |
| `Candidates.CandidateOrigins` | internal/detect/detect.go:147-235 | Every qualifying run gives its own candidate, in run order, and nothing else does |
| `Candidates.CandidatesDisjointIff` | internal/detect/detect.go:147-235 | Candidates do not overlap if and only if, from each run that qualifies to the next one that does, the last observation of the earlier ends by the start of the later |
| `DetectRun.OverlapNeedsOverlongVisit` | internal/detect/detect.go:98-279 | Candidates can overlap only if a located visit away from home, recorded or synthesized, lasts past a later observation at home |
| `DetectRun.OverlapIffOutstays` | internal/detect/detect.go:98-279 | Neighbouring qualifying runs fail to stand apart if and only if a located visit closes the one and lasts past the start of the other |
| `Overlap.OverlongVisitOverlaps` | internal/detect/detect.go:98-279 | Such overlaps happen: an export of three visits for which detection derives a home and two overlapping candidates, so that what matching assumes of a run fails |
| `Bases.ClusterBases` | internal/detect/bases.go:64-132 | Grouping, stable ordering, merging, filtering and eras equal the specification |
| `Bases.MedianSplits` | internal/detect/bases.go:134-145 | The median has half of the sorted values on either side |
| `Bases.EvidenceIsPartitioned` | internal/detect/bases.go:64-100 | Each piece of evidence is in exactly one cluster, and founding centres are at least the merge distance apart |
| `Bases.BasesAreGrounded` | internal/detect/bases.go:102-132 | Each base is one cluster with enough evidence and distinct days: its centre is the published median of the cluster, its era is first to last day, padded; every qualifying cluster gives a base |
| `BasesAccount.BasesAccounted` | internal/detect/bases.go:64-132 | In plain terms: evidence grouped by cell, larger groups first; each group joins the first cluster whose founding centre is nearer than the merge distance or founds one; the bases are, in order, the clusters with enough pieces and enough different days |
| `DetectRun.StaysAssertNothing` | internal/detect/detect.go:104-116 | Merging synthesized stays into the visits adds no assertion of home and moves none |
| `DetectRun.AssertedHomesIgnorePhotos` | internal/detect/detect.go:113-118 | When the asserted homes alone make a base, the bases are the same whatever the photo fixes |
| `DetectRun.Run` | internal/detect/detect.go:98-247 | The pipeline end to end. Bases come from asserted homes, else from recurring stays; candidates are, in order, the away-runs with a dwell beyond the far distance, enough observations and enough hours, each at the rounded place of a farthest dwell with its counts and truncation marks |
| `DetectRun.ObservedIff` | internal/detect/detect.go:255-279 | Detection observes the located visits, activity ends, path points and photo fixes, and nothing else |
| `DetectRun.KeptInOrder` | internal/detect/detect.go:255-317 | What survives outlier rejection is still in start order |
| `DetectRun.RunIsTriageable` | internal/detect/detect.go:98-247 | A run's candidates meet what matching and triage assume of a run if and only if its neighbouring qualifying runs stand apart in time |
| `Durable.DeleteFromExact` | internal/store/deletion.go:54-63 | Once every referring table is cleared, deleting from a table trips no foreign key and removes exactly the user's rows there |
| `Durable.OrderRespectsKeys` | internal/store/deletion.go:89-93 | Along the fixed table order every deletion succeeds |
| `Durable.AccountRowsGo` | internal/store/deletion.go:34-84 | All rows of the user go and none of anyone else's |
| `Durable.OrderWorksIff` | internal/store/deletion.go:54-63 | An order of tables clears any user of any well-formed database without a foreign key failure if and only if every restricting table stands before the table it refers to |
| `Operations.CrashSafe` | internal/api/photos.go:193-196 | Every prefix of an operation's steps leaves every claiming row its file, if and only if the operation is not the deletion of a photo whose thumbnail another row claims |
| `Operations.HistorySafe` | internal/api/deletion.go:20-46 | Through any sequence of operations, each ended or crashed anywhere, every claiming row has its file throughout, if and only if no photo deletion gets as far as removing a thumbnail another row claims |
| `Operations.StepsOk` | internal/api/photo_imports.go:118-134 | In an operation that is not the deletion of a shared photo, no step removes a claimed file and none inserts a row before the file it claims, photo batches included |
| `Operations.DeletePhotoSafeIff` | internal/api/photos.go:302-308 | Deleting a photo is safe if and only if no other row claims its thumbnail |
| `Operations.SharedBytesBreak` | internal/api/photos.go:302-308 | It can break: from an empty instance, upload a photo, import the same bytes as evidence, delete the photo, and the evidence row has lost its file |
| `Operations.AccountDeleted` | internal/api/deletion.go:14-46 | Account deletion removes all of the user's rows, none of anyone else's, and only files no remaining row names |
| `Instances.Instance.DeleteUserData` | internal/store/deletion.go:34-84 | The table loop succeeds, counts exactly the user's rows per table and the account itself, and reports exactly the hashes that rows of the user named and no row of anyone else does |
| `Instances.Instance.DeleteMyData` | internal/api/deletion.go:14-46 | Refused while an import runs; else all rows of the user and no other go, and a thumbnail or upload goes exactly when it was there, its removal does not fail, a row of the user named it and no row of anyone else does; the counts are the numbers of such files; the state stays sound |
| `Instances.Instance.StorePhoto` | internal/api/photos.go:154-197 | File first, then the row; bytes the user already has change no row, and every other row and file stays |
| `Instances.Instance.DeletePhoto` | internal/api/photos.go:294-310 | Row first, then its file and no other; a sound state stays sound exactly when no other row claims the hash |
| `Instances.Instance.ImportPhotos` | internal/api/photo_imports.go:95-139 | All thumbnails, then the import row, then one record for each photo that is new, equal to the step list; no other row or file changes |
| `BackupLaws.RestoreOnlyAdds` | internal/backup/backup.go:214-354 | Whatever the archive holds and however the restore ends, no existing row or file changes and every added photo row has its file |
| `BackupLaws.SecondRestoreAddsNothing` | internal/backup/backup.go:214-354 | Restoring the same archive again changes nothing, counts nothing new, and ends the same way |
| `RoundTrip.BackupRoundTrip` | internal/backup/backup.go:91-193 | Backup then restore into an empty instance brings back all decisions with timestamps and order, all photos that had a thumbnail on the same anchors, and their bytes |
| `RoundTrip.MatchingSurvivesRestore` | internal/backup/backup.go:95-115 | Matching on the restored decisions is matching on the originals up to an order-preserving renumbering of ids |
| `RoundTrip.TriageSurvivesRestore` | internal/backup/backup.go:95-115 | After the restore every candidate is linked to the copy of the decision it was linked to, and carries the same verdict |
| `BackupRuns.VaultStore.Write` | internal/backup/backup.go:91-193 | The loops produce that archive under its manifest, thumbnails in byte order of their hashes, with a warning naming each photo without a file |
| `BackupRuns.VaultStore.Restore` | internal/backup/backup.go:214-354 | The entry loop and the leftover loop equal the restore specification, error cases and report included |
| `BackupRuns.VaultStore.RestoreDecision` | internal/store/backup.go:45-66 | Insert with original timestamps, skip on a taken anchor, refuse what the table's check refuses |
| `BackupRuns.VaultStore.RestorePhoto` | internal/store/backup.go:71-82 | Insert, or skip on a taken hash |
| `Importing.CanonIdentifies` | internal/store/observations.go:379-414 | Two rows share a canonical text if and only if they agree up to the UTC offsets of their instants |
| `Importing.ImportIsUnion` | internal/store/observations.go:117-147 | An import unions the keys and keeps every stored row |
| `Importing.ReimportInsertsNothing` | internal/store/observations.go:74-80 | Importing rows that are all present changes nothing |
| `Importing.ImportTwice` | internal/store/observations.go:74-80 | Importing the same file again inserts nothing |
| `Importing.ImportsCommute` | internal/store/observations.go:74-80 | Two imports land the same observations in either order |
| `Importing.ImportAddsObservations` | internal/store/observations.go:81-165 | For the importing user the observations are the union; for anyone else nothing changes |
| `Importing.ObservationStore.ImportObservations` | internal/store/observations.go:81-165 | Batched flushing equals inserting one by one; the count is the growth; a row that is not running rolls everything back |
| `Importing.ObservationStore.RunImport` | internal/api/imports.go:159-205 | An attempt ends completed with all its rows or failed with none, under a fresh import row that never stays running; no other import row changes |
| `Timeline.SkipExact` | internal/timeline/parse.go:366-389 | Skipping consumes exactly the tokens of one value, at any nesting depth |
| `Timeline.SkipNeedsAll` | internal/timeline/parse.go:366-389 | A value cut short is never mistaken for a whole one |
| `Timeline.StreamReadsTree` | internal/timeline/parse.go:84-168 | Reading the token stream of a document gives exactly the meaning of its tree |
| `Timeline.ParsedYields` | internal/timeline/parse.go:84-234 | What is read of a whole export is, entry by entry and in order, what each decoded entry says: a visit or activity with its own start, end, places and mode, the timed points of a path, a signal; entries that yield nothing are the skipped ones |
| `Timeline.UnknownKeysAreInert` | internal/timeline/parse.go:84-168 | An unknown top-level key holding anything, anywhere, changes neither observations nor statistics |
| `Timeline.CutShortIsNoticed` | internal/timeline/parse.go:402-410 | A readable export cut at any token is rejected as truncated or malformed, never read |
| `Timeline.StatsAreCounts` | internal/timeline/parse.go:34-41 | The statistics are the numbers of observations of each kind |
| `Timeline.PointsAreKeptOrSkipped` | internal/timeline/parse.go:202-215 | Each point of a path is kept or counted as skipped |
| `Timeline.Decoder.Skip` | internal/timeline/parse.go:366-389 | The depth loop computes that skip |
| `Timeline.Decoder.ReadSection` | internal/timeline/parse.go:236-270 | The array loop decodes, counts and skips as specified |
| `Timeline.Decoder.Parse` | internal/timeline/parse.go:84-168 | The top-level loop equals the stream specification, error cases included |

## Left out

- Operations.HistorySafe: operations run one after another; interleavings of concurrent requests are not claimed to be safe.
- Instances.Instance.ImportPhotos: the position fixes of a photo import, and the finalising of its import row, are not modelled; they name no file.
- Importing.CanonIdentifies: float64 values are named by integers and rendered by an injective text function; NaN and the SHA-256 of the text are not modelled.
- Timeline.StreamReadsTree: JSON text is a token stream with an ending; how one entry's tokens decode into fields, coordinates and instants is a parameter.
- Timeline.CutShortIsNoticed: cuts between tokens; a cut inside a token is a syntax error or end of file at that token.
- Routing.OpenKeysAreTheGaps: the wrap-around of 32-bit keys is not modelled; coordinates in degrees never reach it.
- Candidates.DetectRuns: scores, transport modes, track distance, repeat counts and the rounded figures shown beside a candidate are not modelled; a candidate keeps its span, destination, distance, counts and truncation marks.
- DetectRun.Run: scores, transport modes, track distance and repeat counts of a candidate are not modelled.
- Routing.RouteCache.SaveRoute: the router, data set and time an answer is stored with are not modelled; nothing reads them back into a journey.
- Importing.ObservationStore.RunImport: the window and content hash of an import row, a panic in the reader, and the automatic detection afterwards are not modelled.
- Decisions.DecisionStore.InsertDecision: a refused insert leaves the next id as it was, where Postgres would skip a value.
- Bases.ClusterBases: the grid cell of a place and the rounding of a published centre are parameters.
- Slicing.SliceDays: a day has its date, kilometres, legs and stops; its event list, labels and the ordering of events are not modelled.
- Loading.WindowLoadSuffices: the tables are lists of owned rows in insertion order; country attribution and paging are not modelled.
- BackupRuns.VaultStore.Restore: gzip, tar and JSON are an entry list with unreadable entries; entry names too short for a hash are not modelled.
- Instances.Instance.DeleteMyData: a failing file removal is a named file that stays; a database error in the middle of the transaction changes nothing and is not a separate case.
- Floating-point rounding, haversine and the port of Python's rounding: arithmetic is over reals.
- sort.Slice, sort.SliceStable and the database's ORDER BY are used through their contracts: a permutation ordered by the comparator, stable where the source asks for it.
- Calendar dates are day numbers; the millisecond truncation of Date.parse in the web client is not modelled.
- HTTP wiring, sign-in, sessions, share links, the command line's printing, React components and map layers.
- EXIF and HEIF reading, thumbnail pixels, PostGIS attribution, the OSRM and Nominatim clients.
- The sniffing of file heads before a Timeline file is read.
