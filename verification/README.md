# A verified model of the genetic test generator

The generator under `snippets/geneticAlgorithm/` searches for obstacle layouts that make an autopilot fly too close to a
wall. It describes a layout by genes relative to the mission path, decodes the genes to boxes on the ground, flies the
layouts in a simulator under a budget of attempts, breeds the good ones inside niches by obstacle count, reruns the
promising ones, and submits a suite of distinct tests. This project models that core in Dafny and proves what it is
built to guarantee.

## How it is modelled

* **Numbers.** Floats are exact reals. Lengths are compared squared, so no square root is needed; where the code keeps a
  length, the Euclidean distance is a parameter known by its square (`Mission.Euclidean`). An angle is a unit vector,
  and sine and cosine are any function that has the values the code relies on (`Motifs.IsTrig`). The tolerance 1e-9 is
  carried explicitly. `exp(-x)` is any strictly decreasing positive function that is 1 at 0.
* **Simulator and chance.** The simulator is an arbitrary oracle: every attempt gets a reply that may have crashed, been
  killed by the watchdog, or carry any distances, path and durations. Random draws, the calibrated threshold and the
  order in which a wave's jobs finish are arbitrary choices, so every theorem holds for all of them.
* **State.** `Individual` and `Campaign` are classes with the fields the code updates in place. `Books` holds the same
  state as a value together with the invariant `Kept`; each step of the class is proved to make a step of the books that
  keeps it. `log`, `rounds` and `history` are ghost: the attempts that reached the simulator, what each discovery round
  did, and every generation bred, from whom. A `Generation.Course` records how a whole campaign went.
* **Meaning.** Where the code and a specification use the same function, a lemma says what the function means in the
  fields of its arguments: `Attempts` for the simulator's answers, `Placements` for walls, the formulas of `Scoring`, the
  distances and ranks of `SuiteLaws`, the keys of `Tournaments`.
* **Modules.** `Plane`, `Segments`, `Shadows`, `Boxes` (geometry); `Mission`, `Genes`, `Motifs`, `Placements` (layouts);
  `Scoring`, `Schedule`, `Sorting`; `Resample`, `Flights`, `Suite`, `SuiteLaws`, `Relaxing`, `Layouts` (the suite);
  `Individuals`, `Attempts`, `Waves`, `Scheduler`, `BatchLaws`, `Ledger`, `Histories`, `Books`, `Tournaments`,
  `Breeding`, `Refinement`, `Campaign`, `Generation` (the campaign).

## What the proofs found

* A `shapeGain` below 1 is documented as enough for shaping never to outrank a better tier. That is right for single
  runs. For tests averaged over n runs the exact condition is n * shapeGain <= 1 (`Scoring.ShapingIsSafeExactly`); the
  shipped 0.25 with three runs is safe.
* Halving the similarity threshold is meant to fill the suite. With a frame quota the loop can end with a smaller suite
  than it started with (`Relaxing.LosingRun`). It never does exactly when the threshold is not relaxed, there is no
  quota, or topK is at most 3 or at most one above the quota (`Relaxing.RelaxingIsSafeExactly`).
* The gate solver's comment says that the gap grows with the offset. The proof does not need that: the gap changes by at
  most the change of offset, it is below every gate width at offset 0 and above it at 30 m, for all genes in range.
* A mutated child is documented to differ from its parent. It is equal to it exactly when ten draws in a row are clamped
  back to the old value (`Genes.MutateGenes`), as for a gene at the end of its range that is pushed outwards
  (`Genes.ChildMayEqualParent`).
* The no-progress counter looks at evaluation attempts only. With `rerunElites` on, a round that counts as no progress
  spends as many attempts as it has flown members on confirming them, whenever more than that many remain
  (`Campaign.Campaign.DiscoveryRound`). The budget is kept all the same.
* Confirming the elites is meant to give each of them one more run. A retried flake comes before the jobs still waiting,
  so it may take the attempt meant for another elite (`BatchLaws.FlakeStarvesNext`). Every elite gets exactly one attempt,
  whatever the simulator answers, exactly when flakes are not retried or there is a worker for each
  (`BatchLaws.OneAttemptForEachExactly`).
* The refinement schedule is fair, but the runs keep its order, whatever the simulator answers, exactly with a single
  worker (`BatchLaws.OrderIsKeptExactly`); then nobody is overtaken (`BatchLaws.NobodyOvertaken`). The last jobs may not
  be tried at all if retries use up the reserve.
* The stuck flag is never cleared: a layout whose first attempt the watchdog killed stays stuck, and so out of the suite,
  even if a later evaluation measures it and reaches the goal (`Histories.KilledStaysStuck`).
* `attempts` is documented as counting failed attempts; it also counts flakes and the successful attempt. The limit on
  attempts per layout is maxRunFailures + maxFlakeRetries, and some replies reach it (`Histories.LimitIsReached`); it is
  maxRunFailures exactly when flakes are not retried (`Histories.AttemptsStayWithinFailuresExactly`).

## Model

| member | source | states |
|---|---|---|
| Segments.PointDistanceIsMinimum | snippets/geneticAlgorithm/geometry.py:121-129 | no point of the segment is closer to p than the clamped projection says |
| Segments.ProperCrossingMeets | snippets/geneticAlgorithm/geometry.py:106-111 | the sign test only fires when the segments share a point strictly inside both |
| Segments.MeetingIsReported | snippets/geneticAlgorithm/geometry.py:104-118 | any two proper segments that share a point, parallel or not, are reported as intersecting |
| Segments.SegmentDistanceIsLowerBound | snippets/geneticAlgorithm/geometry.py:132-141 | no pair of points of the two segments is closer than the reported distance |
| Segments.SegmentDistanceIsAttained | snippets/geneticAlgorithm/geometry.py:132-141 | some pair of points is exactly that far apart, or nearer than the tolerance when an intersection is reported |
| Boxes.ShadowBound | snippets/geneticAlgorithm/geometry.py:39-42 | the shadow of a footprint reaches at most the projection radius from the shadow of its centre |
| Boxes.ApartHasSeparatingNormal | snippets/geneticAlgorithm/geometry.py:45-55 | footprints reported apart have shadows on an edge normal that share less than the tolerance |
| Boxes.NoGapMeets | snippets/geneticAlgorithm/geometry.py:45-55 | without a gap on any of the four edge normals the footprints share a point (separating axis theorem) |
| Boxes.OverlapMeets | snippets/geneticAlgorithm/geometry.py:45-55 | footprints reported as overlapping share a point |
| Boxes.TouchingHasNoGap | snippets/geneticAlgorithm/geometry.py:144-155 | footprints with a common point have gap zero, even when they share less than the overlap tolerance |
| Boxes.GapIsLowerBound | snippets/geneticAlgorithm/geometry.py:144-155 | no pair of points of the two footprints is closer than the gap found on the edges |
| Boxes.GapIsAttained | snippets/geneticAlgorithm/geometry.py:144-155 | some pair of points attains the gap, or is nearer than the tolerance when the gap is zero |
| Boxes.FitsExactlyWhenInside | snippets/geneticAlgorithm/geometry.py:67-83 | a box passes the bounds test if and only if its whole rotated footprint lies in the placement area |
| Mission.DirectionIsUnit | snippets/geneticAlgorithm/mission.py:59-72 | the direction of a segment has length one, its side normal too, and the normal is the direction turned right by a right angle |
| Mission.SegmentsAreMeasured | snippets/geneticAlgorithm/mission.py:82-85 | every listed segment has the distance of its ends as its non-zero length |
| Mission.HopsAreListed | snippets/geneticAlgorithm/mission.py:82-85 | the segments are exactly the hops between consecutive waypoints that are longer than a micrometre, each with its own ends |
| Mission.SeedsGoOnLongSegments | snippets/geneticAlgorithm/mission.py:88-90 | a segment gets seeds if and only if it is at least 25 m long, or no segment is |
| Mission.SeedSegmentsExist | snippets/geneticAlgorithm/mission.py:88-90 | seeds go on segments of the mission only, and there is one whenever the mission has a segment |
| Genes.RandomGenes | snippets/geneticAlgorithm/genes.py:82-85 | uniform draws give genes inside the ranges of their kind |
| Genes.RangesMean | snippets/geneticAlgorithm/genes.py:30-44 | genes are in range if and only if they obey, kind by kind and gene by gene, the limits of the two motifs |
| Genes.DrawsDecide | snippets/geneticAlgorithm/genes.py:82-85 | all genes in range can be drawn: by the fractions that say how far along their ranges they are |
| Genes.MutableMeans | snippets/geneticAlgorithm/genes.py:77-79 | a gene may be mutated if and only if its range leaves a choice |
| Genes.ClampIsNearest | snippets/geneticAlgorithm/genes.py:100-100 | clamping gives the value in range that is nearest to the drawn one |
| Genes.MutateGenes | snippets/geneticAlgorithm/genes.py:88-104 | the gene becomes the first of ten draws that clamping does not take back to its old value and stays in range, all else is kept, and the child equals its parent exactly when all ten are |
| Genes.OutwardStepsAreClamped | snippets/geneticAlgorithm/genes.py:97-103 | a gene at an end of its range that is only pushed outwards does not move |
| Genes.ClampedExactly | snippets/geneticAlgorithm/genes.py:97-103 | a gene in range keeps its value if and only if every step is zero or pushes it out at the end of the range it sits at |
| Genes.ChildMayEqualParent | snippets/geneticAlgorithm/genes.py:97-103 | genes in range and ten draws exist for which the child is its parent |
| Genes.CrossoverGenes | snippets/geneticAlgorithm/genes.py:107-118 | inside one frame each gene comes from the parent its coin says; across frames one parent is copied whole; ranges are kept |
| Motifs.MakeWallIsBox | snippets/geneticAlgorithm/motifs.py:40-51 | the stored yaw is folded into [0, 90] degrees and the sides are the given ones |
| Motifs.MakeWallFootprint | snippets/geneticAlgorithm/motifs.py:40-51 | folding and swapping the sides leaves the footprint: length metres along the axis, half the thickness to each side |
| Motifs.MakeWallAxis | snippets/geneticAlgorithm/motifs.py:40-51 | folding and swapping the sides leaves the end points of the long axis |
| Motifs.DecodedWallCrosses | snippets/geneticAlgorithm/motifs.py:54-69 | for all genes in range the wall's axis strictly crosses the attacked segment, passes through pointAt(t) between its ends, and ends exactly overhang metres past it on the gene's side |
| Motifs.OpensNarrow | snippets/geneticAlgorithm/motifs.py:85-95 | at offset 0 the gap is below every gate width |
| Motifs.OpensWide | snippets/geneticAlgorithm/motifs.py:85-95 | at the largest offset the gap is at least every gate width |
| Motifs.DecodeGate | snippets/geneticAlgorithm/motifs.py:72-102 | the blocker sits at the offset the bisection solves; for all gate genes in range that leaves an opening within 30 / 2^41 metres of the gateWidth gene |
| Placements.TipInFrame | snippets/geneticAlgorithm/motifs.py:62-69 | the wall's tip lies overhang metres from the crossing point, at the crossing angle, towards the gene's side |
| Placements.BlockerInFrame | snippets/geneticAlgorithm/motifs.py:72-102 | the blocker starts three metres ahead of the tip and offset metres farther out, and runs length metres back and outwards at 30 degrees |
| Motifs.Decode | snippets/geneticAlgorithm/motifs.py:105-118 | decoding succeeds exactly when the segment exists; the boxes are determined by the genes and depict them on that segment |
| Placements.CuttingIsReported | snippets/geneticAlgorithm/motifs.py:121-130 | a layout whose wall axis has a point in common with another segment is reported |
| Placements.ReportedIsNear | snippets/geneticAlgorithm/motifs.py:121-130 | only layouts with a wall axis within the tolerance of another segment are |
| Breeding.RejectsMeans | snippets/geneticAlgorithm/motifs.py:133-141 | the layout test turns down exactly the layouts that are not legal and, if strict, those that cross another segment |
| Scoring.PointsByTier | snippets/geneticAlgorithm/generator.py:187-192 | per run five points below 0.25 m, two below 1 m, one below 1.5 m and none beyond |
| Scoring.NudgeByTier | snippets/geneticAlgorithm/generator.py:195-209 | within a tier the nudge falls in a straight line from one to zero, beyond 1.5 m it is the decay |
| Scoring.OfficialFormula | snippets/geneticAlgorithm/generator.py:222-253 | score times squared obstacle count times total flight seconds is 600 times the points, for all tests with a run |
| Scoring.SearchFormula | snippets/geneticAlgorithm/generator.py:222-281 | the same with points plus gain times nudges; stuck tests, and only they, get incompleteFactor times that |
| Scoring.ShapedPointsDecrease | snippets/geneticAlgorithm/generator.py:187-219 | for a gain up to 1 the shaped points fall strictly with the distance, across tiers too |
| Scoring.ShapedPointsInvert | snippets/geneticAlgorithm/generator.py:212-219 | for every gain above 1 some nearer distance gets fewer points |
| Scoring.ScoresCompareSums | snippets/geneticAlgorithm/generator.py:222-281 | with equal run counts, obstacle counts and mean durations both scores order tests by the sums of their points |
| Scoring.ShapingKeepsOrder | snippets/geneticAlgorithm/generator.py:234-281 | a strictly better official score is a strictly better search score when n * gain <= 1 |
| Scoring.ShapingInvertsOrder | snippets/geneticAlgorithm/generator.py:256-281 | for every larger gain and every number of runs some pair of tests is inverted |
| Scoring.ShapingIsSafeExactly | snippets/geneticAlgorithm/generator.py:256-281 | over all pairs of tests with n runs, the same obstacle count and the same mean duration, the search score respects the official order if and only if n * gain <= 1 |
| Schedule.PrefixShare | snippets/geneticAlgorithm/generator.py:338-346 | every prefix of length k holds floor(k * gates / popSize) gates |
| Schedule.ScheduleHoldsGates | snippets/geneticAlgorithm/generator.py:338-346 | the schedule holds exactly the requested gates, all other slots are walls |
| Schedule.WindowsAreEven | snippets/geneticAlgorithm/generator.py:338-346 | any two windows of equal length differ by at most one gate |
| Sorting.SortIsStable | snippets/geneticAlgorithm/suite.py:159-159 | sorting by rank keeps the order of tests that rank alike |
| Resample.ArcPointUnique | snippets/geneticAlgorithm/suite.py:40-62 | a polyline has one point at each arc length, repeated points or not |
| Resample.Resample | snippets/geneticAlgorithm/suite.py:40-62 | the forward-moving pointer finds the polyline point at each of n evenly spaced arc lengths, ends included; a path without length gives its first point n times |
| Flights.EvenlyIsUnique | snippets/geneticAlgorithm/suite.py:40-62 | there is only one way to space n points evenly, so the resampling is determined |
| Flights.MeanTrajectory | snippets/geneticAlgorithm/suite.py:65-74 | the path is the point-wise mean of the resampled non-empty runs |
| Flights.MeanPathGrows | snippets/geneticAlgorithm/suite.py:65-74 | one more run moves every point of the mean path by its share; a single run is its own mean path |
| Flights.MeanTrajectoryIsUnique | snippets/geneticAlgorithm/suite.py:65-74 | the mean trajectory is determined by the runs |
| SuiteLaws.DistanceMeans | snippets/geneticAlgorithm/suite.py:77-81 | the distance of two paths of equal length, times their length, is the sum of the distances of their points; it is infinite if and only if a path is empty |
| SuiteLaws.DistanceGrows | snippets/geneticAlgorithm/suite.py:77-81 | one more pair of points adds its distance to the sum, and single points are as far apart as they are |
| SuiteLaws.DistanceIgnoresRest | snippets/geneticAlgorithm/suite.py:77-81 | points of the longer path without a partner do not count |
| SuiteLaws.RankMeans | snippets/geneticAlgorithm/suite.py:109-112 | a test ranks no later if and only if it is scored higher, or the same and no farther from the obstacles on average |
| Suite.GreedyFill | snippets/geneticAlgorithm/suite.py:121-142 | the loop with its frame tally and early stop selects the greedy suite of the specification |
| Suite.FillableCount | snippets/geneticAlgorithm/suite.py:145-152 | the count is topK or the sum of the frame sizes capped at the quota, whichever is less |
| Suite.RankTests | snippets/geneticAlgorithm/suite.py:157-166 | the ranked list is the eligible tests in rank order, each layout once |
| Suite.SelectSuite | snippets/geneticAlgorithm/suite.py:155-183 | the loop ends; the threshold is the first of the halving sequence at which it may stop; the suite is the greedy one at that threshold, in rank order |
| SuiteLaws.CandidatesAreClean | snippets/geneticAlgorithm/suite.py:157-173 | candidates are flown, never stuck and positively scored, no two have the same boxes, and every such layout is among them |
| SuiteLaws.CandidatesAreRanked | snippets/geneticAlgorithm/suite.py:157-173 | candidates come in rank order, except that with keepBestGate the best gate comes first |
| SuiteLaws.GreedyIsSafe | snippets/geneticAlgorithm/suite.py:128-142 | the greedy suite keeps topK, the frame quota and the pairwise threshold |
| SuiteLaws.RejectionIsJustified | snippets/geneticAlgorithm/suite.py:131-141 | a candidate left out of a suite with room has an earlier-ranked selected look-alike, or its frame is full of earlier-ranked ones |
| SuiteLaws.FillableIsUpperBound | snippets/geneticAlgorithm/suite.py:145-152 | no selection from the candidates within topK and the quota is larger than the fillable count |
| SuiteLaws.GreedyWithinFillable | snippets/geneticAlgorithm/suite.py:121-152 | at no threshold does the greedy suite exceed the fillable count |
| SuiteLaws.GreedyFillsAtZero | snippets/geneticAlgorithm/suite.py:121-152 | at a threshold of zero or less it reaches the fillable count |
| SuiteLaws.RelaxingKeepsSize | snippets/geneticAlgorithm/suite.py:179-183 | halving the threshold makes the suite smaller only if the smaller suite still has as many tests as the frame quota |
| Relaxing.HalvingKeepsSize | snippets/geneticAlgorithm/suite.py:179-183 | under safe rules a step of the loop never makes the suite smaller |
| Relaxing.SafeRulesNeverShrink | snippets/geneticAlgorithm/suite.py:174-183 | under safe rules the returned suite is no smaller than any the loop tried before |
| Relaxing.LosingRun | snippets/geneticAlgorithm/suite.py:174-183 | in every placement area with room for a wall, for every quota and large enough topK, legal tests with paths, scores and distances as a campaign records them make the loop halve four times and end with one test less than at its first threshold |
| Relaxing.RelaxingIsSafeExactly | snippets/geneticAlgorithm/suite.py:174-183 | the returned suite is no smaller than any tried before, for all legal tests as a campaign records them, if and only if the threshold is not relaxed, there is no quota, or topK is at most 3 or at most one above the quota |
| SuiteLaws.SuiteIsSafe | snippets/geneticAlgorithm/suite.py:155-183 | the returned suite holds at most topK tests and the quota per frame, ranked, all flown, never stuck and positively scored, no two with the same boxes, and the points of any two flights are on average at least the threshold apart |
| SuiteLaws.BestGateIsKept | snippets/geneticAlgorithm/suite.py:167-173 | with keepBestGate the suite holds a gate that no flown, unstuck, positively scored gate outranks, by score and then by mean distance |
| SuiteLaws.ThresholdIsBest | snippets/geneticAlgorithm/suite.py:174-183 | the threshold is the largest of the halving sequence that fills the suite, or the first at or below the minimum |
| SuiteLaws.HalvedMeans | snippets/geneticAlgorithm/suite.py:179-183 | each threshold tried is half the one before |
| Relaxing.RelaxedSuiteIsLargest | snippets/geneticAlgorithm/suite.py:174-183 | under safe rules the suite at the last threshold is no smaller than at any tried before |
| Attempts.FlakeMeans | snippets/geneticAlgorithm/generator.py:310-335 | a flight that does not fail is a flake if and only if it has no end within goalTol of the goal and every distance exceeds flakeObstacleDistanceM |
| Attempts.NearRunIsRecorded | snippets/geneticAlgorithm/generator.py:326-330 | a run with some distance at most flakeObstacleDistanceM is consumed and appends exactly one distance: a member and lower bound of its distances |
| Attempts.MeasurementMeans | snippets/geneticAlgorithm/generator.py:516-533 | any flight that is no flake appends its nearest distance, path and time, and makes the layout stuck exactly if it ends away from the goal |
| Attempts.FlakeLeavesNothing | snippets/geneticAlgorithm/generator.py:322-335 | a flake changes nothing but the counted attempt and the wall-clock time |
| Attempts.FailureMeans | snippets/geneticAlgorithm/generator.py:534-592 | a failed run is consumed; a first evaluation records nothing, a rerun the sentinel and the watchdog limit; a killed one makes the layout stuck |
| Attempts.IllegalIsSkipped | snippets/geneticAlgorithm/generator.py:495-499 | a layout that is not legal is skipped and flagged |
| Attempts.LegalMeans | snippets/geneticAlgorithm/generator.py:182-184 | the footprints of a legal layout lie in the area, and the shadows of any two share less than the tolerance on some edge normal |
| Attempts.IllegalMeans | snippets/geneticAlgorithm/generator.py:182-184 | a layout that is not legal leaves the area with some point or has two footprints with a common point |
| Individuals.Individual.Evaluate | snippets/geneticAlgorithm/generator.py:487-548 | what one evaluation does to an individual and which outcome it reports, for every reply |
| Individuals.Individual.Rerun | snippets/geneticAlgorithm/generator.py:551-599 | what one rerun appends, including the sentinel after a failure, leaving the scores for later |
| Individuals.Individual.Rescore | snippets/geneticAlgorithm/generator.py:778-784 | both cached scores are recomputed from all runs, nothing else changes |
| Waves.EachOnItsOwn | snippets/geneticAlgorithm/generator.py:602-623 | in any order of a wave, whoever ran took one step from where he started and nobody else moved |
| Waves.OrderDoesNotMatter | snippets/geneticAlgorithm/generator.py:602-623 | any two orders of a wave's jobs lead to the same individuals |
| Scheduler.RunParallelBatch | snippets/geneticAlgorithm/generator.py:602-634 | jobs run in an arbitrary order give each individual its own step and the outcomes in job order |
| Scheduler.SplitWave | snippets/geneticAlgorithm/generator.py:643-655 | the set-based scan draws the wave of the specification from the front of the queue |
| Scheduler.SplitPartitions | snippets/geneticAlgorithm/generator.py:643-656 | no pending job is lost or doubled by the split |
| Scheduler.SplitSeparates | snippets/geneticAlgorithm/generator.py:646-653 | no wave holds two attempts on one individual |
| Scheduler.SplitIsMaximal | snippets/geneticAlgorithm/generator.py:643-658 | a job waits only if the wave is full or holds its individual, so a wave is never empty |
| Scheduler.RunRetryingBatch | snippets/geneticAlgorithm/generator.py:637-681 | the batch ends; its attempts are a function of the simulator's answers; it returns exactly the non-skipped ones, at most the budget; each job is tried at most maxFlakeRetries + 1 times and again only after a flake; below the budget every job is settled; each individual is where its own attempts lead |
| BatchLaws.FlakeTakesTwo | snippets/geneticAlgorithm/generator.py:642-680 | with fewer workers than jobs and one attempt per job in the budget, a flake in the first attempt is retried before the last jobs get theirs |
| BatchLaws.FlakeStarvesNext | snippets/geneticAlgorithm/generator.py:666-679 | two individuals, one worker, two attempts: a flake on the first takes both, and the second gets none |
| BatchLaws.OneAttemptForEachExactly | snippets/geneticAlgorithm/generator.py:642-680 | with one attempt per job in the budget every individual gets exactly one, for all replies, if and only if flakes are not retried or there is a worker for each |
| BatchLaws.OrderIsKeptExactly | snippets/geneticAlgorithm/generator.py:642-680 | every batch takes its jobs up in order, for all replies, if and only if there is a single worker |
| BatchLaws.NobodyOvertaken | snippets/geneticAlgorithm/generator.py:920-928 | with a fair schedule taken up in order, when someone is taken up for the m-th rerun everybody has been for m - 1 |
| Ledger.AttemptsAddUp | snippets/geneticAlgorithm/generator.py:666-671 | every launched attempt was recorded, was a flake, or was a failed first evaluation |
| Ledger.RecordedSomewhere | snippets/geneticAlgorithm/generator.py:519-522 | recordings that all belong to listed individuals add up to the recordings on each of them |
| Ledger.EvaluationSummary | snippets/geneticAlgorithm/generator.py:487-548 | a batch of evaluations of one layout records at most one run, and then its scores agree with it |
| Ledger.RerunSummary | snippets/geneticAlgorithm/generator.py:551-599 | reruns append one distance per recorded attempt, keep the earlier ones, and leave the scores right if none was recorded |
| Histories.RescoringIsSane | snippets/geneticAlgorithm/generator.py:778-784 | rescoring makes the cached scores agree with all runs, whatever state reruns left them in |
| Histories.EvaluatingIsSane | snippets/geneticAlgorithm/generator.py:867-884 | a layout with attempts left stays within maxRunFailures + maxFlakeRetries whatever the simulator answers, and is then coherent or without any run |
| Histories.ReplayTells | snippets/geneticAlgorithm/generator.py:573-592 | what a batch leaves on record is, run by run, what the simulator replied, with the sentinel for failed reruns |
| Histories.StuckMeans | snippets/geneticAlgorithm/generator.py:535-537 | a layout is stuck if and only if some attempt of its ended away from the goal without failing or as a flake, or failed and was killed |
| Histories.KilledStaysStuck | snippets/geneticAlgorithm/generator.py:523-537 | a layout killed first and then measured, reaching the goal, has coherent scores but stays stuck and is not eligible |
| Histories.LimitIsReached | snippets/geneticAlgorithm/generator.py:500-517 | some replies make a layout take all maxRunFailures + maxFlakeRetries attempts |
| Histories.AttemptsStayWithinFailuresExactly | snippets/geneticAlgorithm/generator.py:875-884 | a layout stays within maxRunFailures attempts for all replies if and only if flakes are not retried |
| Histories.RerunningIsStale | snippets/geneticAlgorithm/generator.py:551-599 | between reruns and rescoring the scores can only be out of date if there is more than one run |
| Breeding.MissionIsSound | snippets/geneticAlgorithm/generator.py:770-774 | a mission with a segment gives a generator whose segment lookups never fail |
| Breeding.WorldMeans | snippets/geneticAlgorithm/generator.py:770-774 | its segments are exactly the hops of the mission, its seeds go on the long ones or on all if there are none, and its goal is the last waypoint |
| Breeding.BuildIndividual | snippets/geneticAlgorithm/generator.py:363-370 | null exactly when the decoded layout has a problem; otherwise the individual is decoded from the genes, legal, never flown, and in strict mode crosses no other segment |
| Breeding.FreshIndividual | snippets/geneticAlgorithm/generator.py:373-397 | the seed has n obstacles and is the first draw, on a seed segment and side, that is not turned down: the first seedDraws draws by the strict test, as many more by the loose one; it is flagged illegal exactly if all were, and only after seedDraws of them it may cross another segment |
| Breeding.ChildOf | snippets/geneticAlgorithm/generator.py:400-405 | the child's genes are mixed from both parents in their common frame, or copied from one, and then one gene is moved off its value unless it sits at an end of its range; it is null exactly when they decode to a layout with a problem, else a legal newborn crossing no other segment |
| Tournaments.KeysMean | snippets/geneticAlgorithm/generator.py:284-294 | selection keys compare as the individuals do: fitter, else fewer obstacles, else closer on average, else faster on average; no runs is worst |
| Tournaments.Tournament | snippets/geneticAlgorithm/generator.py:408-422 | the winner is no worse than any of tournamentK distinct legal members of the niche, or than all of them if there are fewer |
| Breeding.NicheChild | snippets/geneticAlgorithm/generator.py:684-701 | the newborn is the child of two tournament winners of the niche that the strict test lets pass; it is seeded only if the niche has no legal member or maxRetries such children were all turned down |
| Breeding.NicheElites | snippets/geneticAlgorithm/generator.py:717-719 | elites are distinct members of the niche in order, within elitePerNiche and one below the quota, and nobody left behind is better; fewer only if the niche has no more |
| Breeding.NicheGeneration | snippets/geneticAlgorithm/generator.py:704-726 | the first slots hold the elites, the last ones, immigrantShare of the others rounded to the nearest, seeds; every slot between holds a child of winners, or a seed if the niche is extinct or maxRetries children were turned down; nobody left behind beats anyone carried over |
| Breeding.Emit | snippets/geneticAlgorithm/generator.py:743-744 | slot k gets the next member of its niche's queue, and no queue runs empty |
| Breeding.NextGeneration | snippets/geneticAlgorithm/generator.py:729-744 | slot k holds what slot Count(counts[..k]) of its niche is due by the same rules: elites first, then children of winners, then the immigrants; both niches have their right shares of each |
| Breeding.BestIsKept | snippets/geneticAlgorithm/generator.py:717-744 | with elites, a niche with two slots keeps a member that no old member of it beats |
| Refinement.RoundRobin | snippets/geneticAlgorithm/generator.py:916-928 | at most budget jobs; whoever gets a rerun has no more than anyone else at that point; with budget left everyone reaches nReruns |
| Refinement.NobodyLeftBehind | snippets/geneticAlgorithm/generator.py:916-928 | if a job brings someone to m reruns, everyone ends with at least m - 1, wherever the list is cut |
| Books.FlightKeeps | snippets/geneticAlgorithm/generator.py:863-865 | a batch of first evaluations skips nobody and keeps every invariant, up to entering and reseeding |
| Books.RerunKeeps | snippets/geneticAlgorithm/generator.py:853-857 | a batch of reruns keeps every invariant, up to rescoring |
| Books.RescoreKeeps | snippets/geneticAlgorithm/generator.py:858-859 | rescoring a layout settles it for good |
| Books.OneRunKeeps | snippets/geneticAlgorithm/generator.py:933-935 | a layout with one run needs no rescoring |
| Books.EnterKeeps | snippets/geneticAlgorithm/generator.py:868-874 | entering a newly valid layout keeps every invariant |
| Books.ReseedKeeps | snippets/geneticAlgorithm/generator.py:875-884 | replacing a layout that failed too often keeps every invariant |
| Books.BreedKeeps | snippets/geneticAlgorithm/generator.py:841-846 | a new generation keeps every invariant |
| Books.StartKeeps | snippets/geneticAlgorithm/generator.py:824-827 | the invariants hold of the seeded population |
| Books.LedgerBalances | snippets/geneticAlgorithm/generator.py:867-884 | all attempts are the distances recorded over the evaluated layouts plus flakes plus failed first evaluations |
| Books.RecordedIsOnRoll | snippets/geneticAlgorithm/generator.py:868-870 | whoever ever had a run recorded is on the list of evaluated layouts |
| Books.EvaluationsAreLimited | snippets/geneticAlgorithm/generator.py:875-884 | no layout takes more than maxRunFailures + maxFlakeRetries discovery attempts |
| Books.ScoresAgree | snippets/geneticAlgorithm/generator.py:519-533 | both cached scores of every evaluated layout equal their recomputation from all its runs, and the official one satisfies the formula in points, squared obstacle count and seconds; durations are positive and as many as the distances; the runs are what its attempts told |
| Books.BatchIsTold | snippets/geneticAlgorithm/generator.py:519-525 | after any batch every individual holds exactly the distances, paths, durations, stuck flag and last test case that its own attempts told |
| Books.UnstuckReachedGoal | snippets/geneticAlgorithm/generator.py:523-537 | every consumed attempt of a layout that is not stuck either ended within goalTol of the goal or failed without being killed |
| Campaign.KeptTwice | snippets/geneticAlgorithm/generator.py:838-884 | not losing the best of a niche composes over steps |
| Campaign.Campaign.constructor | snippets/geneticAlgorithm/generator.py:824-828 | a new campaign satisfies every invariant |
| Campaign.Campaign.FlyCandidates | snippets/geneticAlgorithm/generator.py:848-865 | the attempts are first evaluations of the candidates, at least one each if the budget allows; below the budget every one is settled; the watchdog waits for the longer of minTimeout and timeoutMul times the longest good flight |
| Campaign.Campaign.RerunAndRescore | snippets/geneticAlgorithm/generator.py:851-860 | the attempts are reruns of the given jobs, at least as many as there are jobs if the budget allows; below the budget every job is settled; books and standing of everyone are kept |
| Campaign.Campaign.ConfirmElites | snippets/geneticAlgorithm/generator.py:853-860 | with rerunElites there are exactly as many attempts as flown members if more than that many remain, all of them reruns of flown members, and none otherwise; each member gets one if flakes are not retried or there is a worker for each |
| Campaign.Campaign.Settle | snippets/geneticAlgorithm/generator.py:867-884 | exactly the candidates with maxRunFailures attempts and no measurement give their slots to newborns; those that became valid go on the roll in order; the longest good flight is updated from them; all invariants are restored |
| Campaign.Campaign.Breed | snippets/geneticAlgorithm/generator.py:841-846 | the new population is a generation by the rules, from the population as it was; with elites no niche with two slots loses its best |
| Campaign.Campaign.SlotsToFly | snippets/geneticAlgorithm/generator.py:840-847 | a new generation is bred if and only if no slot is left to fly; all free slots are offered |
| Campaign.Campaign.ConfirmAndFly | snippets/geneticAlgorithm/generator.py:848-865 | confirmations are exactly those due, and as many free members are flown as there are or the budget allows; exactly the given up are replaced |
| Campaign.Campaign.DiscoveryRound | snippets/geneticAlgorithm/generator.py:838-896 | a round breeds exactly when nothing is left to fly, spends exactly the confirmations due on flown members and at least one evaluation on every free slot that the rest of the budget allows, and replaces exactly the members given up; without evaluations nothing was free |
| Campaign.Campaign.RunDiscovery | snippets/geneticAlgorithm/generator.py:832-905 | discovery ends, uses at most its budget, breeds every generation by the rules, makes no reruns without rerunElites, falls short only after max(3, maxRetries) rounds in a row that bred and found nothing to fly, keeps every invariant, and with evolve, elites and no elite reruns never loses the best fitness of a niche with two slots |
| Generation.NearestRoot | snippets/geneticAlgorithm/generator.py:801-803 | the result is the whole number nearest to the square root |
| Generation.DiscoveryShare | snippets/geneticAlgorithm/generator.py:807-808 | discovery gets the whole budget, or at least one full population; beyond that (1 - refineFraction) of the budget rounded down |
| Generation.EffectiveMeans | snippets/geneticAlgorithm/generator.py:792-803 | one worker without isolation; a population larger than the budget shrinks to the nearest root of the budget, at least two; nothing else changes |
| Layouts.SelectLayouts | snippets/geneticAlgorithm/generator.py:956-960 | the suite is the one the halving loop stops at for all evaluated layouts; its tests stand for distinct ones, never stuck and positively scored |
| Generation.ProvisionalLayouts | snippets/geneticAlgorithm/generator.py:912-917 | the promising layouts are exactly those of the selected suite whose first distance is below refineThreshold, in order |
| Generation.TestsAreFlown | snippets/geneticAlgorithm/generator.py:956-960 | what a campaign hands to selection satisfies the premises of the law on relaxing |
| Generation.Refine | snippets/geneticAlgorithm/generator.py:910-943 | the schedule is fair, gives nobody a rerun beyond nReruns and everybody nReruns unless the reserve is short; every attempt is a rerun of the layout its job was scheduled for, at least one per job within the reserve, and every job is settled if the reserve is not used up; a single worker keeps the order |
| Generation.DiscoverAndRefine | snippets/geneticAlgorithm/generator.py:907-943 | the log is discovery within its share, falling short only when stalled, and then the reruns due to exactly the promising layouts of the suite selected from the books at that point |
| Generation.RunCampaign | snippets/geneticAlgorithm/generator.py:907-954 | the log is discovery, the reruns due to the promising layouts of the suite provisionally selected in between, and discovery again; the attempts are at most the budget, and fewer only if the last discovery stalled anew with every slot flown or without a legal layout; every generation was bred by the rules |
| Generation.Submission | snippets/geneticAlgorithm/generator.py:956-980 | the returned test cases are those of the layouts that the suite, at the threshold the halving loop stopped at, stands for |
| Generation.Generate | snippets/geneticAlgorithm/generator.py:786-980 | no tests for a budget of zero or less; otherwise the campaign took that course under the effective configuration, every invariant holds at the end, and the returned tests belong to distinct, valid, unstuck, positively scored layouts of the selected suite |

## Left out

- Floating-point rounding, overflow and not-a-number values: all arithmetic is exact.
- Sine, cosine and arc tangent themselves: walls are built from unit vectors, and the folding of the yaw is done on the vector.
- The probability distribution of random draws, including the mutation step scale and its decay: draws are arbitrary, except that a gaussian step is not zero.
- The watchdog timer, process clean-up, wall-clock measurement and logging: only "killed" survives as a kind of reply.
- Finer interleavings of worker threads than whole operations: each operation writes its own individual only.
- `calibrateThreshold` and `suiteDiversity`: the first is an arbitrary number here, the second only feeds a log line.
- `parseWaypoints` and `wgs84ToLocal`: the waypoint list is given.
- A run without a goal, individuals without genes, and the environment variables read by the configuration: `generate` never makes the first two.
- `testcase.py`, the Docker agent, the patching of Aerialist, the command line and the random baseline generator: thin wrappers.
- Missions without any segment and empty choices of sides: the original raises there, the model requires them away.
- Campaign.Campaign.RunDiscovery: the elitism clause does not cover rerunElites, because a confirming run may lower an elite's mean score.
