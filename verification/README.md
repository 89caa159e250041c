# Opera look-ahead, verified

Opera predicts collisions between humans and robots that work side by side. A robot repeats itself: from the modes it
has been in, the next modes are predicted, and the samples stored for those modes are compared with the latest sample
of a human, one job for each pair of body segments. A job that finds no collision is continued into the next modes,
until the prediction loops. When a new human sample arrives, the jobs are woken; with reuse, a job then skips the
samples that were far enough from the previous human sample, which it knows from barriers of minimum distances.

This project models that machinery in Dafny and proves it right:

- **Reuse gives the verdict of a full scan.** `TraceSampleRange.dfy`, `Barrier.dfy`, `BarrierSection.dfy`,
  `SectionList.dfy`, `SectionReset.dfy`, `BarrierSequence.dfy` model the barriers, their update policies and their reset;
  `LookAheadJob.dfy` and `JobRun.dfy` the two scans. `Reuse.dfy` and `LookAheadJobFactory.dfy` model the awakening of
  jobs. `JobLife.dfy` follows a job through its life: created, scanned, continued, asleep while the history grows, woken,
  and scanned again, each step keeping what the next relies on; `JobPurge.dfy` says which purges it outlives.
  `JobSystem.dfy` puts these steps together: in every run whose steps keep to the conditions of reuse, every scan can be
  made and gives the right verdict. `JobRegistration.dfy`: what the registry holds in such a run. `Sibling.dfy`: no job of
  a prediction is dropped because of another, unless the other looks at the same.
- **The geometry that this rests on.** `Geometry.dfy`, `SegmentDistance.dfy`, `ReuseBound.dfy`, `BodySample.dfy` and
  `CapsuleContact.dfy`: when the clamped closest-point computation is exact, that samples over-approximate what was
  observed, that they touch when they have a point in common, and that the bounds used for reuse are sound.
- **The prediction.** `NextModes.dfy`, `PredictionCount.dfy`, `ModeTrace.dfy`, `LookAheadJobPath.dfy`, `Prediction.dfy`,
  `PredictionPath.dfy`: the longest matching suffix, the tree of jobs, its termination, the conservation of likelihood,
  and that a path tells where the jobs of a prediction part.
- **The history of the robot.** `Timed.dfy`, `History.dfy`, `HistorySnapshot.dfy`, `HistoryProvenance.dfy`,
  `HistoryEnvironment.dfy`, `SampleView.dfy` and the class in `RobotStateHistory.dfy`: three redundant views of one run,
  and snapshots. `LookAheadGuard.dfy`: what the guard of look-ahead admits, the history can answer. `SampleTime.dfy`: what
  sample indices, ranges and guard come to in milliseconds. `HistoryGrowth.dfy`: no two stays leave the same samples
  behind.
- **The registry and the threads.** `LookAheadJobRegistry.dfy` and `RegistryInterleaving.dfy`, `SynchronisedQueue.dfy`,
  `RuntimeReceiver.dfy`, `WorkingJob.dfy`, `RuntimeSteps.dfy`, `CollisionDistance.dfy`, `CollisionReport.dfy`.
- **Runs, step by step.** `ExampleRun.dfy`, `ReuseExample.dfy`, `DetourExample.dfy` and `RegistryExample.dfy`: inputs on
  which properties fail. `SlowRobotExample.dfy`: samples are counted in messages, not in milliseconds.

Objects that the program updates in place are classes, each method proved against a function of the old value, and the
properties are proved of those functions. Distances are exact reals; square roots enter as a function `sqrt` that is only
known to be one. Times are milliseconds and sample positions thousandths of a sample, both integers. A stored sample is
represented by the observations merged into it, and `View` says what capsule it is seen as; an empty one has none.
Exceptions and failed assertions of the program are results (`None`, `Failure`, `AwakeningFailure`).

Properties that turned out not to hold of the code as it stands:

- A step of more than one trace does not bring the recorded end of a range to the new index
  (`ExtendedReachesTraceIff`, and `GapLeavesEndBehind` for a scan). The end then lags behind; the invariant `Tracks` allows
  for that, and reuse stays right.
- A reset is not sound if the robot has left the first mode of a prediction and come back to it, so that its sample
  index there is smaller than before: `GoingBackSkips` is a run, `BackwardStartUnsound` the general case, and
  `BackwardResetSoundIff` and `BackwardResetNeedsAllClear` say, from the barriers before the reset, exactly when it is
  sound nevertheless. Otherwise the start never goes back, and the reset is sound (`ResetSound`, `StartMovesForward`).
- Strong equivalence is documented to exclude every mode whose samples are updated (`include/lookahead_job.hpp:202-204`).
  The code excludes at most the last mode of the trace: `DetourReusesUpdated` is a run in which an updated mode is reused
  and a sample of it that is hit is skipped. None is reused exactly if the modes exited since lie in the part of the trace
  left behind, or outside it (`UpdatedNotReusedIff`, `LeftBehindNotReused`); then reuse is right (`StrongReady`).
- Under weak equivalence, a job can be continued, or woken, into a mode that its snapshot has no samples of, and then its
  scan fails: `OldSnapshotFails` is a run. It can be scanned exactly if a stay in its last mode had ended by the snapshot
  (`NextPredicted`, `WokenPredicted`).
- A purge fails, reading the first of no traces, exactly if the robot has not left a mode since the cutoff
  (`PurgeOutcome`, `LongStayCannotBePurged`).
- A purge that drops the stay before the one that contains a time loses its sample index (`PurgeKeepsIndexIff`,
  `PurgeLosesIndex`). Which purges the jobs outlive is `PurgeKeepsIff`.
- An awakening that the guard admits can fail: the registry is shared by all jobs, and takes no unknown time that is older
  than the last. With two humans last observed at different times, the first awakening can register the later time and
  the second then fail (`TwoHumansFail`). `MoveSleepingJobsToWaitingJobs` says exactly when none fails.
- The computed segment and point distances are not always the distance: `SegmentDistanceExact` and `PointDistanceExact`
  give the exact conditions, and `PointSecondOverestimated`, `NearlyParallelOverestimated` and
  `PointDistanceOverestimated` inputs. With an overestimate reuse can miss a collision (`OverestimateUnsound`).
- A memo of next modes survives a reduction that makes it wrong (`ReductionStalesMemo`); `MemoKeptIff` says exactly when
  it stays right. The program only asks for next modes of freshly merged traces.

When a job is woken without a human sample under strong equivalence, its times advance though its barriers were made in
the earlier snapshot. The conditions of `StrongReady` therefore refer to the job as it was last scanned, its basis
(`GoesOnFromBasis`).

Where code and comments disagree, the code is modelled: jobs are created for all next modes, also for those already in
the trace (`include/lookahead_job_factory.hpp` says otherwise), and the samples found at a time are those stored up to
it, not from it on (`include/state.hpp`).

## Model

| member | source | states |
|---|---|---|
| TraceSampleRanges.ScaledDownCovers | src/trace_sample_range.cpp:73-84 | re-indexing from a later trace renames exactly the indices a range covers that stay non-negative |
| TraceSampleRanges.TrimmedToCovers | src/trace_sample_range.cpp:86-88 | trimming to a bound keeps exactly the covered indices up to it |
| TraceSampleRanges.ExtendedBounds | src/barrier.cpp:52-57 | recording an index keeps what was covered, moves the end forward and never past that index, and reaches it for an index in the same trace or the next |
| TraceSampleRanges.ExtendedReachesTraceIff | src/barrier.cpp:54 | the shrinking loop bound: the end reaches the trace of the index if and only if that is at most one further |
| HistoryEnvironments.GapLeavesEndBehind | src/barrier.cpp:52-57 | a scan over a mode that holds only empty samples, under each policy: the recorded end stays behind the sample checked last, and the invariant of the sequence holds all the same |
| TraceSampleRanges.TraceSampleRange.ScaleDownTraceOf | src/trace_sample_range.cpp:73-84 | the in-place loops compute the specified re-indexing |
| TraceSampleRanges.TraceSampleRange.TrimDownTraceTo | src/trace_sample_range.cpp:86-88 | the in-place loop computes the specified trimming |
| BarrierSections.UpdateWith | src/barrier.cpp:52-57 | the loop that re-reads its own bound extends the range as specified, for every gap |
| Barriers.AbsorbedStep | src/barrier.cpp:108-123 | over every run of checks: the barriers are the run-length compression of the running minimum distance; minima strictly decrease, ranges are ordered and disjoint, each minimum is attained and bounds all checks up to its end |
| BarrierSections.Section.CheckAndUpdate | src/barrier.cpp:108-123 | a section absorbs the check as specified; true iff no collision was or is reached |
| BarrierSections.Section.FindReuseElement | src/barrier.cpp:134-148 | the binary search returns the largest index whose distance exceeds the human-human distance, or -1 |
| BarrierSections.Section.TrimDownTraceIndexRangesTo | src/barrier.cpp:150-159 | the loop trims the last range and drops the barriers beyond the bound |
| BarrierSections.Section.ResetTo | src/barrier.cpp:165-178 | the three loops of a reset compute the specified list |
| Barriers.ResetFacts | src/barrier.cpp:165-178 | what survives a reset is a slice of the old barriers, each farther than the human-human distance, within the bound, ending at or after the start, re-indexed from it |
| Barriers.ResetKeepsExactly | src/barrier.cpp:134-178 | a reset keeps exactly the barriers that begin within the bound, are farther than the human-human distance and, cut to the bound, do not end before the start; each ends where it is cut |
| Barriers.ResetCovers | src/barrier.cpp:134-178 | told by what ranges cover: a reset keeps exactly the barriers that are farther than the human-human distance and cover something from the new start up to the bound; each then covers exactly what it did up to the bound, counted from the trace of the new start, at the same distance |
| SectionLists.CheckKeepsTracking | src/barrier.cpp:355-360 | the invariant of the sequence, that every visited sample is accounted for at the barrier that covers it, is kept by every check, under each policy and for any human |
| SectionLists.AddsSectionIff | src/barrier.cpp:245-284 | a check of another human adds a section, which begins with it, if and only if the policy does not keep one section, the last does not end in a collision, and under the policy that adds when necessary the sample hits the human of the last; all sections but the last stay as they were |
| BarrierSequences.BarrierSequence.CheckKeepOne | src/barrier.cpp:245-255 | the direct verdict, and the sections as specified |
| BarrierSequences.BarrierSequence.CheckAddWhenDifferent | src/barrier.cpp:257-267 | the direct verdict, and the sections as specified |
| BarrierSequences.BarrierSequence.CheckAddWhenNecessary | src/barrier.cpp:269-284 | the direct verdict, and the sections as specified, a tentative barrier being taken back |
| BarrierSequences.BarrierSequence.CheckAndUpdate | src/barrier.cpp:355-360 | all three policies give the direct verdict on the passed samples, unless this human already collided; the empty last section the source guards against never arises |
| BarrierSequences.BarrierSequence.ResetTo | src/barrier.cpp:362-371 | the list of sections is reset in place as specified, up to the first that loses a barrier |
| BarrierSequences.BarrierSequence.Copy | src/barrier.cpp:295-302 | copies are deep: new section objects with the same value |
| BarrierSequences.BarrierSequence.LastUpperTraceIndex | src/barrier.cpp:318-321 | the trace of the recorded end, or zero |
| SectionResets.ResetSound | src/barrier.cpp:134-178 | after a reset for a new human, whatever the new snapshot holds elsewhere: coverage is a gap-free prefix, correctly re-indexed, every sample covered is at a positive distance from the new human, no barrier is a collision, and the end is within the bound |
| SectionResets.ResetEndStays | src/barrier.cpp:362-371 | a reset sequence ends where a barrier is cut that is kept together with all barriers of the sections before |
| SectionResets.StayingEndsBefore | src/barrier.cpp:362-371 | and no such barrier ends later, so nothing of them is lost |
| SectionResets.BackwardResetSoundIff | src/barrier.cpp:362-371 | told from the barriers before the reset: if the start has gone back within the first mode, the reset is sound if and only if, as far as a barrier reaches that the reset keeps, the samples from the new start to the old one are clear |
| SectionResets.BackwardResetNeedsAllClear | src/barrier.cpp:362-371 | if no barrier begins before the old start: sound if and only if the first barrier is not farther than the human moved, or begins beyond the bound, or all samples from the new start to the old one are clear |
| SectionResets.CheckBeginsFrom | src/barrier.cpp:355-360 | a scan keeps every barrier beginning at or after its start, under each policy |
| SectionResets.BackwardStartUnsound | src/barrier.cpp:362-371 | by any metric and for any two such starts: barriers that account for a scan, after whose reset a sample that is hit is skipped |
| SegmentDistances.ClampedInRange | src/geometry.cpp:94-159 | in every branch both parameters lie in [0,1], and a denominator is zero only with its numerator |
| SegmentDistances.ComputeSegmentDistance | src/geometry.cpp:94-159 | the branches compute the specified parameters and distance |
| SegmentDistances.SegmentDistanceExact | src/geometry.cpp:94-159 | for all inputs, by cases that are exhaustive: the computed distance is the minimum over both segments if and only if a condition on the inner products holds (no numerator snapped; for a point as second segment, the first leading away; for a tiny determinant, the clamping correcting the first parameter) |
| SegmentDistances.PointSecondOverestimated | src/geometry.cpp:94-159 | it is too large for every segment that leads to a second segment which is a point |
| SegmentDistances.NearlyParallelOverestimated | src/geometry.cpp:104-114 | and for two segments that are nearly parallel |
| SegmentDistances.SegmentDistanceAttained | src/geometry.cpp:94-159 | the computed distance is always that of two points of the segments |
| ReuseBounds.ComputePointDistance | src/geometry.cpp:161-183 | the branches compute the specified distance |
| ReuseBounds.PointIsDegenerateSegment | src/geometry.cpp:161-183 | the point distance is the segment distance from a segment of no length |
| ReuseBounds.PointDistanceExact | src/geometry.cpp:161-183 | it is the minimum if and only if the parameter is not snapped to the head |
| ReuseBounds.PointDistanceOverestimated | src/geometry.cpp:161-183 | it is too large for every point of a segment whose numerator is below 1e-6 |
| Geometry.CauchySchwarz | src/geometry.cpp:94-110 | the determinant of the inner products is never negative |
| BodySamples.BoundsContain | src/body.cpp:185-195 | bounds extended point by point contain every observed point |
| BodySamples.BoundsTight | src/body.cpp:185-195 | and each bound is the coordinate of one of them |
| BodySamples.DisjointBoxesApart | src/geometry.cpp:221-223 | capsules whose boxes are disjoint by the test do not touch by the computed distance |
| BodySamples.BodySegmentSample.Update | src/body.cpp:161-178 | the loops over common and remaining points keep bounds, centres, radius and emptiness those of all points observed so far, and drop stale caches |
| BodySamples.BodySegmentSample.OverApproximates | src/body.cpp:161-201 | over any run of updates: every segment from an observed head to an observed tail stays, point for point, within the error of the centre segment |
| BodySamples.ObservedSegmentWithinError | src/body.cpp:197-201 | the same for the error computed from the bounds |
| BodySamples.BodySegmentSample.ErrorIsAttained | src/body.cpp:197-198 | the centres are halfway between the bounds, and the error is no larger than needed: a corner of the bounds of the heads or of the tails is that far from its centre |
| BodySamples.CapsuleInBounds | src/body.cpp:203-211 | the capsule of a sample lies in its bounding box and in its bounding sphere |
| BodySamples.BodySegmentSample.GetBoundingBox | src/body.cpp:203-206 | the cached box is that of the present capsule |
| BodySamples.BodySegmentSample.GetBoundingSphere | src/body.cpp:208-211 | the cached sphere is that of the present capsule |
| BodySamples.BodySegmentSample.Intersects | src/body.cpp:217-220 | the fast test with boxes gives the verdict of the plain distance test, whose meaning is `TouchIffContact` |
| BodySamples.TouchAgreesWithMetric | src/barrier.cpp:221-225 | the direct test and the distance the barriers are built on agree |
| CapsuleContacts.TouchIsContact | src/body.cpp:217-220 | samples that touch have a point in common, whether the distance of their segments is exact or not |
| CapsuleContacts.TouchIffContact | src/body.cpp:217-220 | and where it is exact they touch, and the distance of the barriers is zero, if and only if their capsules have a point in common |
| CapsuleContacts.GapIsLeast | src/barrier.cpp:221-225 | the distance between a human and a robot sample is the least distance between points of the two capsules: none are closer, where the segment distance is exact, and some are as close |
| CapsuleContacts.GapIsAttained | src/barrier.cpp:221-225 | some are as close whether it is exact or not |
| CapsuleContacts.ObservedContactTouches | src/body.cpp:217-220 | so if a point of one body as observed, at its thickness from any observed segment, is a point of the other, the samples touch, where the distance is exact |
| CapsuleContacts.ReachIsUpper | src/barrier.cpp:215-219 | the distance between two human samples: no point of the other capsule is farther than that from the reference one |
| CapsuleContacts.ReachIsAttained | src/barrier.cpp:215-219 | and some point is as far, where the distances of its two ends are exact |
| CapsuleContacts.SphereIsBall | src/barrier.cpp:202-210 | sphere sections measure as capsule sections do, with the bounding spheres in place of the human samples |
| ReuseBounds.CapsuleReuseSound | src/barrier.cpp:215-225 | capsule sections: a robot sample farther from the old human sample than the new one reaches out is at a positive distance from the new one, by convexity and the triangle inequality |
| ReuseBounds.SphereReuseSound | src/barrier.cpp:202-210 | the same for sphere sections |
| ReuseBounds.ComputedCapsuleReuseSound | src/barrier.cpp:215-225 | the same with the distances as computed, wherever the one to the robot is exact |
| ReuseBounds.OverestimateUnsound | src/barrier.cpp:215-225 | for every human sample that ends in a robot sample of a single point, the overestimated distance keeps the barrier for a human sample at that point, and the collision is missed: the distance must be exact |
| ModeTraces.ModeTrace.PushFront | src/mode.cpp:105-109 | the entry is certain, and the memo is cleared |
| ModeTraces.ModeTrace.PushBack | src/mode.cpp:111-115 | likelihoods multiply along the trace, and the memo is cleared |
| ModeTraces.ModeTrace.ForwardIndex | src/mode.cpp:117-121 | the first position of a mode, or -1 |
| ModeTraces.ModeTrace.BackwardIndex | src/mode.cpp:123-129 | the last position of a mode, or -1 |
| ModeTraces.ModeTrace.ReduceBetween | src/mode.cpp:143-150 | the entries between the bounds; the memo, as it was, stays up to date if empty, and else if and only if what is kept leads to the same prediction |
| ModeTraces.MemoKeptIff | src/mode.cpp:143-150 | that is: the last mode kept still occurs earlier there, and the same modes follow the longest suffix in the same proportions |
| NextModes.PredictsSameIff | src/mode.cpp:214-256 | in terms of occurrences: when the prediction for one trace is right for another |
| ModeTraces.FrontReductionKeeps | src/mode.cpp:143-150 | which is so if only modes before all occurrences of the longest suffix are dropped, or none |
| ModeTraces.ReductionStalesMemo | src/mode.cpp:143-150 | a run of the class after which the memo names a next mode that the reduced trace does not predict |
| ModeTraces.ModeTrace.HasLooped | src/mode.cpp:157-163 | true iff the last mode occurs earlier |
| ModeTraces.Merge | src/mode.cpp:258-264 | the modes of both traces, one at the seam dropped if shared, with the likelihood of the second |
| ModeTraces.SeamIs | src/mode.cpp:258-264 | a merged trace begins with all of the first and ends with all of the second; they share one entry if and only if the first ends in the mode the second begins with |
| ModeTraces.Backtrack | src/mode.cpp:217-241 | the backtracking loop terminates in bounds, and finds the longest suffix that also ends earlier and the number of places where it does |
| ModeTraces.PredictNext | src/mode.cpp:214-256 | the computed map is the prediction as specified |
| ModeTraces.ModeTrace.NextModes | src/mode.cpp:214-256 | the same through the memo, provided it is fresh |
| NextModes.PredictionUnique | src/mode.cpp:214-256 | the specification determines the prediction: longest suffix, followers counted, divided by occurrences |
| PredictionCounts.EndsAtIs | src/mode.cpp:214-256 | a suffix ends at a position too if and only if, going back from there and from the end, the same modes are met |
| PredictionCounts.PredictionIs | src/mode.cpp:214-256 | counted over sets of positions: a mode is predicted if and only if it followed where the longest repeated suffix ended earlier, and its frequency is its share of those positions; no longer suffix has one |
| NextModes.PredictionNonEmpty | src/mode.cpp:214-256 | there is a next mode iff the last mode occurred earlier, and next modes are old modes |
| NextModes.PredictionExists | src/mode.cpp:214-256 | every trace has a prediction |
| NextModes.PredictionSumsToOne | src/mode.cpp:250-252 | the frequencies sum to one, in whatever order they are listed |
| LookAheadJobPaths.LookAheadJobPath.Add | src/lookahead_job.cpp:39-45 | appends, where the position is positive and beyond the last |
| LookAheadJobPaths.LookAheadJobPath.RemoveLeThan | src/lookahead_job.cpp:47-53 | rebuilds the path by additions each of which is allowed |
| LookAheadJobPaths.LookAheadJobPath.RemoveGThan | src/lookahead_job.cpp:55-59 | pops the elements above the position |
| LookAheadJobPaths.LookAheadJobPath.ReduceBetween | src/lookahead_job.cpp:61-63 | the two reductions in this order |
| LookAheadJobPaths.LookAheadJobPath.IsPrimary | src/lookahead_job.cpp:74-78 | true iff every priority is zero |
| LookAheadJobPaths.ReducedFits | src/lookahead_job.cpp:47-63 | a reduction keeps exactly the elements between the bounds, shifted, in order; positions stay positive, increasing, and inside the reduced trace |
| LookAheadJobPaths.ReducedKeepsChoices | src/lookahead_job.cpp:47-63 | for a trace cut to the same bounds: a choice is kept, with its branch and seen from the new start, if and only if it was made after the start and before the end of what is kept |
| LookAheadJobPaths.KeptDiffer | src/lookahead_job.cpp:47-63 | paths that first differ in the branch taken at one position still do so after both are cut, if that position is inside what both keep |
| LookAheadJobPaths.KeptAlike | src/lookahead_job.cpp:47-63 | and if it is beyond what the shorter keeps, that one's path is a prefix of the other's |
| Predictions.CreateNext | src/lookahead_job_factory.cpp:37-57 | none after a loop, else one job for each predicted mode, with its likelihood and branch; fails iff nothing is predicted. `ChoiceRecorded` and `PredictedFrom` say what a branch records and what is predicted from |
| Predictions.NeverSticks | src/lookahead_job_factory.cpp:37-57 | from a start mode that occurred earlier, a job either has looped or has next jobs, all reachable and one mode longer |
| Predictions.LikelihoodConserved | src/lookahead_job_factory.cpp:48-55 | the likelihoods of the next jobs sum to that of the job |
| Predictions.TreeConserves | src/lookahead_job_factory.cpp:37-57 | over a whole tree of predictions: every leaf has looped, and the leaves share the likelihood of the root |
| Predictions.TreeExists | src/lookahead_job_factory.cpp:37-57 | and from every reachable job there is such a tree, which is finite |
| Predictions.ReachableIsShort | src/lookahead_job_factory.cpp:37-57 | a reachable trace has at most one more entry than the past has modes |
| Predictions.ChainsAreShort | src/lookahead_job_factory.cpp:37-57 | no chain of jobs, each created from the one before, is longer than the modes of the past allow: look-ahead terminates |
| Predictions.BranchesDistinguished | src/lookahead_job_factory.cpp:48-55 | no two jobs created together have the same path |
| Predictions.OnePrimary | src/lookahead_job_factory.cpp:48-55 | of the jobs created from a primary job exactly the first is primary, and of another job none |
| Predictions.OnePrimaryLeaf | src/lookahead_job_factory.cpp:48-55 | over a whole tree, however far it has been followed: of the jobs at its leaves exactly one is primary, if the root is |
| PredictionPaths.ChoiceRecorded | src/lookahead_job_factory.cpp:46-55 | each next job adds one mode; if there are several, its path grows by one element, its own number, positioned at the entry just added, and else stays the same |
| PredictionPaths.LeavesPart | src/lookahead_job_factory.cpp:46-55 | over a whole tree of predictions, however pruned: the paths of any two leaves first differ in the branch taken at one position, and that position is where their traces first differ |
| PredictionPaths.PredictedFrom | src/lookahead_job_factory.cpp:42-44 | the next modes are those predicted after all of the robot's past followed by the job's trace, an entry shared at the seam kept once |
| Histories.CreatedValid | src/state.cpp:170-175 | a new history meets the invariant |
| Histories.AtExitCovers | src/state.cpp:236-251 | the samples stored at an exit are at least those that fit in the stay and those in the buffer, alike for each segment; padding happens iff too few |
| Histories.AcquiredValid | src/state.cpp:220-292 | acquiring a state at any later time keeps the invariant: presences chained, each trace the modes of the completed stays up to its time, stored sizes never shrinking and covering each stay, segments level |
| Histories.SwitchedRecordable | src/state.cpp:275-291 | the position an observation is written to is in range for every segment |
| Histories.PurgedInStep | src/state.cpp:186-203 | a purge drops stays and traces in step |
| JobPurges.PurgeRetains | src/state.cpp:186-203 | a purge retains the stays that ended at or after the cutoff and no others, in order, and all samples stored |
| Histories.PurgeOutcome | src/state.cpp:186-203 | a purge leaves a trace to read if and only if the robot has left a mode since the cutoff; it then keeps the invariant, cutting the traces to the stays that remain |
| ExampleRuns.LongStayCannotBePurged | src/state.cpp:194-195 | a run from a new history that stays in one mode until no trace is left to read |
| HistorySnapshots.RunValid | src/state.cpp:186-292 | over every run of states and purges, presences, traces, stored samples and buffer are views of the same past |
| HistorySnapshots.TraceIsPast | src/state.cpp:301-308 | the trace of any snapshot is exactly the modes of the remaining stays completed by then |
| HistorySnapshots.ModeAtFound | src/state.cpp:213-218 | the search finds the mode of the one stay that contains the time |
| HistorySnapshots.EntranceFound | src/state.cpp:389-404 | the backward search finds the entrance of that stay, unless it is the first one left or in another mode |
| HistorySnapshots.SnapshotStable | src/state.cpp:301-349 | a later state changes no trace, sample or stay of an earlier snapshot |
| HistorySnapshots.RunSnapshotStable | src/state.cpp:301-349 | nor does any run of states later than the snapshot |
| HistorySnapshots.IndexStable | src/state.cpp:389-408 | nor the mode and entrance of an earlier time |
| LookAheadGuards.GuardImpliesBound | src/state.cpp:320-336 | if look-ahead is possible from a time, its checked sample index is found, in this snapshot and every later one |
| HistorySnapshots.GuardImpliesBoundLater | src/state.cpp:410-414 | and after every further run of states, the same index |
| LookAheadGuards.GuardBoundsStay | src/state.cpp:325 | and the stay so far is shorter than the longest recorded one |
| ExampleRuns.ReturnedLooksAhead | src/state.cpp:320-336 | a run in which look-ahead is possible, so the guard can be met |
| HistorySnapshots.PurgeKeepsIndexIff | src/state.cpp:186-193 | a purge keeps the index of a time if and only if that is in the present stay, or the stay before the one that contains it ended at or after the cutoff |
| ExampleRuns.PurgeLosesIndex | src/state.cpp:389-404 | a run after which a purge loses an index |
| LookAheadGuards.LookAheadStarts | src/state.cpp:326-329 | look-ahead starts in a mode that occurred earlier in the trace of the past, which does not end in it |
| LookAheadGuards.GuardDefined | src/state.cpp:389-404 | once an index was known, asking the guard for a later time never fails |
| LookAheadGuards.StoredIff | src/state.cpp:145-160 | a snapshot has samples of a mode, at least one for each segment, if and only if a stay in it had ended by then |
| LookAheadGuards.PastStored | src/state.cpp:301-308 | it has samples of every mode of its trace |
| LookAheadGuards.PastGrows | src/state.cpp:301-308 | the trace of a later snapshot goes on from that of an earlier one |
| HistoryProvenances.RunOwned | src/state.cpp:220-292 | over every run, the samples of a mode hold observations made in that mode only |
| HistoryProvenances.AlwaysOwned | src/state.cpp:170-292 | so over every run from a new history |
| SampleViews.SampleOf | src/state.cpp:283-291 | a sample object updated by the merged observations has the capsule that the stored sample is viewed as, or is empty |
| HistoryProvenances.ObservedAt | src/state.cpp:283-291 | what an observation does to a segment, position by position |
| HistoryProvenances.MergedAtItsTime | src/state.cpp:277-291 | in a mode visited before, an observation at t is merged into sample i of each segment, and into no other, where i messages and no more fit in the milliseconds since the last exit; how many samples there are then, and what the ones in between hold |
| SampleTimes.FirstStayAppends | src/state.cpp:277-291 | in a mode not yet left each observation becomes a sample of its own, at the end |
| SampleTimes.EnteredWith | src/state.cpp:254-291 | on entering a mode the samples go on from those last stored for it, whose first gains the observation, or begin with the observation if the mode is new |
| SampleTimes.LeftWith | src/state.cpp:236-252 | leaving a mode stores its samples, and changes what is stored for no other; if more messages fit in the stay than there are samples, the last is repeated until there is exactly one more than fit |
| RobotStateHistories.RobotStateHistory.Switch | src/state.cpp:233-273 | leaving and entering modes in place computes the specified history |
| RobotStateHistories.RobotStateHistory.Acquire | src/state.cpp:220-292 | acquiring in place computes the specified history |
| RobotStateHistories.RobotStateHistory.RemoveOlderThan | src/state.cpp:186-203 | the three loops compute the specified purge, and fail if and only if no trace is left to read |
| RobotStateHistories.RobotStateHistory.ModeAt | src/state.cpp:213-218 | the specified mode |
| RobotStateHistories.RobotStateHistory.TraceAt | src/state.cpp:301-308 | the specified trace |
| RobotStateHistories.RobotStateHistory.SamplesAt | src/state.cpp:145-153 | the last samples stored up to the snapshot, or a failure |
| RobotStateHistories.RobotStateHistory.PresencesIn | src/state.cpp:343-349 | the stays in a mode completed by the snapshot |
| RobotStateHistories.RobotStateHistory.RangeOfNumSamples | src/state.cpp:367-379 | the fewest and the most samples that fit in one of the stays, both attained; `RangeIs` says what these are in milliseconds |
| RobotStateHistories.RobotStateHistory.UnroundedSampleIndex | src/state.cpp:389-404 | the backward loop computes the specified position, or fails; `UnroundedIs` says what it is in milliseconds |
| RobotStateHistories.RobotStateHistory.CheckedSampleIndex | src/state.cpp:410-414 | the specified index, or a failure; `IndexIs` says what it is in milliseconds |
| SampleTimes.UnroundedIs | src/state.cpp:389-404 | in milliseconds and messages a second: the position of t is, in thousandths, the time since e times the message frequency, e being the last exit, or the entrance into the stay in the mode, not the first on record, that contains t; without such an e it fails |
| SampleTimes.IndexIs | src/state.cpp:406-414 | in milliseconds and messages a second: index i is found if and only if 1000 i <= (t - e) frequency < 1000 (i + 1) for that e, and the snapshot holds a sample i of every segment |
| SampleTimes.RangeIs | src/state.cpp:367-379 | in milliseconds and messages a second: the range of the numbers of samples: every stay has room for as many messages as its lower end and for no more than its upper end, and each end is attained by a stay |
| SampleTimes.GuardIs | src/state.cpp:320-331 | in milliseconds and messages a second: look-ahead is possible if and only if t is not in the future, the mode has samples, the robot has been in it for less time than some completed stay had whole messages, and was in it before in a stay that began before the snapshot |
| SlowRobotExamples.SlowIndex | src/state.cpp:389-414 | a run of a robot with ten messages a second, asked 500 milliseconds after it came back: the index is 5, and look-ahead is possible |
| RobotStateHistories.RobotStateHistory.CanLookAhead | src/state.cpp:320-336 | the specified guard |
| TimedEntries.FindPrefix | src/state.cpp:145-153 | the search stops at the first entry later than the time |
| LookAheadJobs.EarliestUnique | src/lookahead_job.cpp:157-218 | there is at most one earliest collision |
| LookAheadJobs.DiscardLookAheadJob.EarliestCollisionIndex | src/lookahead_job.cpp:157-181 | the first sample hit among those ahead, or -1; ahead are the samples from the bound on if the trace has one mode, those before the bound if the trace ends in the mode it began with, and else all |
| LookAheadJobs.ReuseLookAheadJob.EarliestCollisionIndex | src/lookahead_job.cpp:190-218 | the first sample hit among those ahead, or -1; ahead are the samples from the bound on if the trace has one mode, those before the bound if the trace ends in the mode it began with, and else all, although it skips what the barriers cover; the barriers are left good for the next scan or a reset |
| LookAheadJobs.StepReady | src/lookahead_job.cpp:212-215 | each step of the scan keeps the barriers in account of all that was visited |
| JobRuns.DiscardScan | src/lookahead_job.cpp:157-181 | with samples and bound taken from the history, the right verdict, which `VerdictIs` tells from the history; `StartedReady` and `NextPredicted` say that the history can answer it |
| JobRuns.ReuseScan | src/lookahead_job.cpp:190-218 | the right verdict too, as `VerdictIs` tells it, for every job that can be resumed; afterwards the barriers are good for an awakening, and after a clear scan for the next modes; `RunScannable` says what it asks is met in every run |
| JobRuns.VerdictIs | src/lookahead_job.cpp:157-181 | the right verdict told from the history: the first position among the samples ahead, which are those that the job's snapshot holds for its own robot segment in its last mode, where what was observed is hit by its human; the bound is the sample index of the initial time in the mode the job started in |
| JobRuns.ReturnCompletes | src/lookahead_job.cpp:165-173 | the scan of the first mode and the scan of a trace that has returned to it, from the same start, look at every sample stored for the mode exactly once: from the start on in the first, before it in the second; both are clear if and only if no such sample is hit |
| JobRuns.VerdictUnique | src/lookahead_job.cpp:157-218 | reuse equals discard: there is one right verdict |
| JobRuns.BoundInRange | src/state.cpp:410-414 | the bound of a scan is a position among its samples |
| JobLives.StartedReady | src/lookahead_job_factory.cpp:87-91 | where the guard is met, a job that starts, or starts over, looks ahead over the past and can be scanned |
| JobLives.ScannableIff | src/lookahead_job.cpp:190-196 | a job can be scanned if and only if a stay in its last mode had ended by its snapshot |
| JobLives.PresentIsKnown | src/lookahead_job.cpp:190-196 | so if the snapshot is of the initial time, as under strong equivalence and without reuse, it always can |
| JobLives.NextPredicted | src/lookahead_job_factory.cpp:93-96 | the job into any next mode looks ahead over the past, and can be scanned if and only if a stay in that mode had ended by the snapshot; always, if the snapshot is of the initial time |
| JobLives.NextResumable | src/lookahead_job_factory.cpp:93-96 | after a clear scan its barriers account for all but the new mode |
| JobLives.PredictedLasts | src/state.cpp:220-292 | later states change nothing of what a job looks ahead over, nor that it can be scanned |
| JobLives.ResumableLasts | src/state.cpp:220-292 | nor anything its barriers rely on |
| JobLives.GuardSupports | src/runtime_io.cpp:195-197 | where the guard is met for a sleeping job, the history supports its awakening, which fails only if the registry does not accept the time |
| JobLives.WokenPredicted | src/lookahead_job_factory.cpp:98-185 | each job woken there looks ahead over the past, and can be scanned if and only if a stay in its last mode had ended by its snapshot; always, under strong equivalence or if it starts over |
| JobLives.DiscardReady | src/lookahead_job_factory.cpp:67-78 | without reuse: of all the jobs of one prediction exactly one is woken into a new scan, which the history can answer |
| JobSystems.StepInv | src/runtime_io.cpp:71-97 | acquiring, purging, creating, scanning, continuing and waking, in any order: each step keeps every waiting job scannable with barriers that hold, and every sleeping job fit to be woken |
| JobSystems.PurgeKeepsIff | src/state.cpp:186-203 | a purge keeps that if and only if for every job it retains the stay before the one the job starts in, a stay in its first mode longer than that so far, and one in each mode of its trace |
| JobPurges.PurgeKeepsPredictedIff | src/state.cpp:186-203 | for one job: it looks ahead over what is in the history after a purge exactly then |
| JobPurges.PurgeKeepsJob | src/state.cpp:186-203 | and nothing its barriers rely on has changed |
| JobSystems.RunInv | src/runtime.cpp:147-216 | so in every run, with its purges and registrations |
| JobSystems.RunVerdicts | src/lookahead_job.cpp:190-218 | and every scan in it gives the right verdict |
| JobSystems.RunFollowsAll | src/runtime.cpp:199-207 | in every run no predicted mode is dropped: after a clear scan that has not looped there is a job into each, in wait or with its path registered for another |
| WorkingJobs.ProcessWorkingJob | src/runtime.cpp:167-208 | what a worker does with a waiting job: it scans it, reports a collision by an interval that encloses every possible distance, puts a job that collided or has looped to sleep, and of another the next jobs to wait but those whose longer paths are registered |
| WorkingJobs.ProcessedTakes | src/runtime.cpp:167-208 | so processing is a step of the runs above, for every setting that agrees with the objects |
| JobSystems.RunScannable | src/runtime.cpp:164 | what a scan requires is met for every waiting job |
| JobSystems.RunAnswered | src/runtime_io.cpp:194-197 | asking the guard never fails for a sleeping job, and the history supports each awakening that the guard admits, which then fails if and only if it registers a time that is older than the last and unknown (`Awaken`) |
| JobSystems.RunMoves | src/runtime_io.cpp:184-206 | so, for the sleeping jobs of any state of a run, what `MoveSleepingJobsToWaitingJobs` asks of the history is met, and its exact condition applies |
| JobRegistrations.RunRegistered | src/lookahead_job_factory.cpp:162-183 | in every run the registered times increase, and every waiting job is registered at its time, with a prefix of its path |
| JobRegistrations.StepRegistered | src/lookahead_job_factory.cpp:87-91 | each step keeps that, and forgets nothing that was registered |
| JobRuns.CapsulesAgree | src/body.cpp:217-220 | the scan without reuse and the barriers use the same test |
| JobRuns.CapsulesSound | src/barrier.cpp:215-225 | reuse is sound for all sections and samples whose distances were computed exactly |
| HistoryEnvironments.SamplesKept | src/state.cpp:145-153 | only a mode exited in between has other samples in a later snapshot |
| HistoryEnvironments.StartMovesForward | src/state.cpp:389-408 | if the mode the robot was in was not exited, it is in the same stay and its sample index has not gone back |
| Reuses.BoundIsNotBefore | src/lookahead_job_factory.cpp:127-139 | the interval of the reset is proper: its bound is never before its start |
| Reuses.BoundIsLast | src/lookahead_job_factory.cpp:127-138 | entries are left out only under strong equivalence, from the first on whose mode occurs before the new start, and none such is left in |
| Reuses.LeftBehindNotReused | src/lookahead_job_factory.cpp:127-138 | no entry within the bound has been exited if and only if the modes exited all lie in the part of the trace left behind, or outside the trace |
| Reuses.UpdatedNotReusedIff | src/lookahead_job_factory.cpp:127-138 | in exactly that case no entry within the bound has other samples in the later snapshot |
| HistoryGrowths.UpdatedIffExited | src/state.cpp:233-291 | the samples of a mode differ between two snapshots if and only if a stay in it ended in between |
| HistoryGrowths.RunGrowing | src/state.cpp:220-292 | over every run: at each exit from a mode more observations have been merged into what is stored than at the exit before |
| HistoryGrowths.AlwaysGrowing | src/state.cpp:170-292 | so over every run from a new history |
| Reuses.StrongKeepsSamples | src/lookahead_job_factory.cpp:127-138 | the entries within the bound that were not exited have the same samples in both snapshots |
| Reuses.ResetReady | src/lookahead_job_factory.cpp:139-141 | what the reset leaves is good for a scan of the new samples, which picks up where the barriers end |
| Reuses.GoesOnReady | src/lookahead_job_factory.cpp:125-176 | a job that goes on can be scanned, if the reused samples are the same and the start has not gone back |
| Reuses.StrongReady | src/lookahead_job_factory.cpp:109-177 | strong equivalence: if since the barriers were made no entry within the bound was exited, the woken job, in the present snapshot, skips only samples that are the same there and clear of the new human |
| Reuses.WeakReady | src/lookahead_job_factory.cpp:109-177 | weak equivalence: the same in the old snapshot, whatever was exited, if the start has not gone back; whether the old snapshot can be scanned is `WokenPredicted` |
| Reuses.GoesOnFromBasis | src/lookahead_job_factory.cpp:119-123 | an awakening without human sample keeps the barriers of the job it was, though it changes its times |
| ReuseExamples.GoingBackSkips | src/lookahead_job_factory.cpp:139-141 | a run in which the robot returns to an earlier sample: the guard is met, the job goes on under either equivalence, and the scan starts after a sample that is hit |
| ReuseExamples.OldSnapshotFails | src/lookahead_job_factory.cpp:42-47 | a run under weak equivalence in which a job goes on rightly, but is continued into a mode its snapshot has no samples of |
| DetourExamples.DetourReusesUpdated | src/lookahead_job_factory.cpp:127-138 | a run under strong equivalence: a job goes on from barriers that cover a mode exited since; what it has left to scan is clear, and the sample of that mode that it skips is hit |
| LookAheadJobFactories.ReuseLookAheadJobFactory.ResetUpper | src/lookahead_job_factory.cpp:127-138 | the loop computes the last entry that may be reused |
| LookAheadJobFactories.ReuseLookAheadJobFactory.ResetJob | src/lookahead_job_factory.cpp:139-175 | the barriers left are those of the reset, the trace and the path are cut to what these reach, and one entry more if they cover that to its end; every index is in range; no failure if the history supports it, as `GuardSupports` says it does where the guard is met. What that keeps of trace and path is `CandidatesGoOn`, without reference to the cut |
| LookAheadJobFactories.ReuseLookAheadJobFactory.FindNext | src/lookahead_job_factory.cpp:153-169 | when all is covered the job is completed if it looped, else replaced by its next jobs |
| LookAheadJobFactories.ReuseLookAheadJobFactory.RegisterAll | src/lookahead_job_factory.cpp:162-183 | the jobs whose paths could be registered are woken, and the paths of the others are taken; fails iff the time is not accepted |
| LookAheadJobFactories.ReuseLookAheadJobFactory.Awaken | src/lookahead_job_factory.cpp:98-185 | all four results, exactly: which jobs come of an awakening, whether it has its time registered, and that, if the history supports it, as `GuardSupports` says it does where the guard is met, it fails if and only if it does so and the registry does not accept the time. Each candidate is woken at most once, and no path is registered but those of the woken; `WokenIff` says which they are |
| LookAheadJobFactories.CandidatesGoOn | src/lookahead_job_factory.cpp:125-176 | each woken job starts over, or goes on with barriers that end in its last entry or cover the one before. Its trace then begins with the entries of the old one from the new start, and ends with the last that the barriers reach or, if they cover that, with the next. Its path holds exactly the choices of the old one made after the start and inside that trace, each with its branch, its position counted from the start. One completed has looped |
| LookAheadJobFactories.CompletedIff | src/lookahead_job_factory.cpp:153-161 | told before the awakening: a job is completed, and registers nothing, if and only if what the reset leaves of its barriers covers the rest of its trace to the end, and that has looped |
| Siblings.CandidatesPart | src/lookahead_job_factory.cpp:162-168 | the jobs that one job is woken into part at the mode added last, each numbered by its own branch |
| Siblings.WokenIff | src/lookahead_job_factory.cpp:162-183 | of them exactly those are woken whose paths no registered path blocked before: none blocks another |
| Siblings.BlockedIff | src/lookahead_job_factory.cpp:139-183 | two jobs of a prediction that part beyond the new start, cut where their barriers end: the shorter one, registered, blocks the other if and only if it ends before they part, and then the other has the same trace as far as it goes |
| Siblings.SecondWakes | src/lookahead_job_factory.cpp:98-185 | if all they are woken into goes on beyond the point where they part, the second is woken into exactly what it would be woken into without the first |
| Siblings.LeavesUnaffected | src/lookahead_job_factory.cpp:98-185 | so for any two jobs at the leaves of a tree of predictions |
| LookAheadJobFactories.OneRestarts | src/lookahead_job_factory.cpp:67-78 | without reuse: of the jobs at the leaves of a prediction, however far followed, a new human sample wakes exactly one, which starts over in the present mode |
| LookAheadJobRegistries.LookAheadJobTreeNode.TryRegister | src/lookahead_job_registry.cpp:45-59 | registers the path iff no prefix of it from here on is registered, and changes nothing else |
| LookAheadJobRegistries.LookAheadJobTreeNode.HasRegistered | src/lookahead_job_registry.cpp:36-43 | exact membership |
| LookAheadJobRegistries.LookAheadJobIdTree.TryRegister | src/lookahead_job_registry.cpp:71-74 | the trie refines a set of paths: succeeds iff no prefix, itself included, is in it |
| LookAheadJobRegistries.LookAheadJobIdTree.HasRegistered | src/lookahead_job_registry.cpp:76-79 | exact membership |
| LookAheadJobRegistries.LookAheadJobRegistry.TryRegister | src/lookahead_job_registry.cpp:112-130 | the same for the path set of the time and job, all others unchanged; fails iff the time is older than the last and unknown; entry times strictly increase |
| LookAheadJobRegistries.LookAheadJobRegistry.HasRegistered | src/lookahead_job_registry.cpp:132-146 | exact membership |
| RegistryInterleavings.StepInv | src/lookahead_job_registry.cpp:87-130 | every step of every thread keeps the calls made so far equivalent to some sequential order |
| RegistryInterleavings.RunInv | src/lookahead_job_registry.cpp:71-146 | so in every interleaving |
| RegistryInterleavings.NeverAcceptedAgain | src/lookahead_job_registry.cpp:45-59 | in every interleaving no path accepted for a job, nor an extension of it, is accepted again |
| SynchronisedQueues.SynchronisedQueue.Dequeue | include/synchronised_queue.hpp:49-57 | takes the front and one reservation |
| SynchronisedQueues.SynchronisedQueue.ReserveIfPossible | src/runtime.cpp:115-118 | a worker reserves iff more jobs wait than are reserved, and so never more than there are |
| RuntimeReceivers.MoveSleepingJobsToWaitingJobs | src/runtime_io.cpp:184-206 | each sleeping job that is due is awakened, and every outcome ends in exactly the queue it belongs to, in order; if the history answers, it fails if and only if, for some job that registers the time its own human was last observed, that time is neither known nor later than all registered when its turn comes |
| RuntimeReceivers.CommonTimeAccepted | src/runtime_io.cpp:184-206 | that never happens if all humans were last observed at one time that the registry accepts |
| RegistryExamples.TwoHumansFail | src/runtime_io.cpp:189-197 | a run with two humans in which both jobs are due and supported, and the second awakening fails because the first registered a later time |
| SynchronisedQueues.ChosenAll | src/runtime_io.cpp:195-205 | no job is lost and none added |
| SynchronisedQueues.RemoveUnrespondingHumans | src/runtime_io.cpp:173-180 | the loop keeps the jobs of the other humans in order |
| SynchronisedQueues.RemainingAre | src/runtime_io.cpp:173-180 | each as often as before, and none of the removed humans |
| RuntimeSteps.StepInv | src/runtime.cpp:109-125 | every step keeps reservations within the queue, one for each worker that reserved |
| RuntimeSteps.DequeueNeverFails | include/synchronised_queue.hpp:49-57 | in every interleaving both preconditions hold for whoever has reserved, on both queues |
| RuntimeSteps.TakenInOrder | include/synchronised_queue.hpp:47-57 | each waiting job is taken once, first in first out |
| CollisionDistances.SamplesBetween | src/runtime.cpp:168-178 | the interval is proper and the tightest that holds the true distance whenever each stay is within its recorded range |
| CollisionReports.NoUnderflow | src/runtime.cpp:171-176 | for every job that looks ahead, and every verdict of its scan, no subtraction goes below zero |
| CollisionReports.CollisionDistance | src/runtime.cpp:168-181 | so for the ranges recorded in the job's snapshot; and the reported interval in milliseconds encloses every possible distance |
| CollisionDistances.MillisecondsNearest | src/runtime.cpp:180-181 | the conversion rounds to the nearest millisecond |
| CollisionDistances.MillisecondsMonotone | src/runtime.cpp:180-181 | and keeps the order, so the reported interval is proper and still encloses it |

## Left out

- Update in place of jobs: a job is a value; its barriers are copied into a sequence object for a scan or an awakening
  and copied out again, so sharing of a job's barriers between threads is not captured.
- Registry entries: kept as the list of their timestamps and one map from timestamp and identifier to tree, instead of a
  map inside each entry.
- Trie children: found in a map by priority instead of in an ordered set of nodes.
- Likelihoods of the robot's own trace: all are one, so that trace is a list of modes.
- Order of the next modes: any order instead of that of the map, so priorities are proved distinct but not which is which.
- Equality of modes with different variables, which fails in the source: all modes of a robot share their variables.
- Key points of state messages: an acquired state is given as the observed points of each segment.
- `GoesOnReady`, `StrongReady`, `WeakReady`: take the soundness of the distances as a premise; `CapsulesSound` discharges it
  for capsules where the computed distances are exact.
- `RunInv`, `RunVerdicts`, `RunScannable`, `RunAnswered`: about the jobs of one robot, whose scans and awakenings are known
  by the contracts of their methods, in runs whose steps meet the predicate `Faithful`: the conditions of `StrongReady`
  and `WeakReady`, and that purges retain what the jobs look ahead over; without them reuse is not right, as the runs
  above show. Registrations made for jobs of other robots are not in these runs.
- `PredictedLasts`, `ResumableLasts`: about states later than the latest one; a second state of the same time may change
  the mode that time is in.
- `ProcessWorkingJob`: the human is taken not to have been removed meanwhile, and of the message reported only the
  interval is modelled.
- `TouchIffContact`, `GapIsLeast`, `ReachIsAttained`: where the computed distance of the segments, or of the ends, is exact;
  when that is so is `SegmentDistanceExact` and `PointDistanceExact`.
- `MoveSleepingJobsToWaitingJobs`: the distance between human instances, which must be positive, is taken to be so exactly
  if the later one has a later time; the latest instances are a parameter.
- The history of human samples, pending pairs of human and robot, and the registry of bodies.
- Condition variables, shutdown, counters and liveness: only the safety of the queues is proved.
- Floating-point rounding and NaN; `geometric_median` and `average`.
- Brokers, topics, messages, JSON, the command line, logging.
