# Verified model of JudgeLoom's judging, rating, contest and comment logic

JudgeLoom is an online judge: a Django control plane that queues submissions, scores them, runs
contests and ratings and hosts comments, and a Go worker that pulls jobs, runs them and reports back.
This project models the parts of it that carry hard properties and proves them with Dafny 4.11
(`dafny verify dfyconfig.toml`). Sources are cited by path and line below.

- **Elo-MMR ratings.** The root finder, the divide-and-conquer pass over performances, the memoised
  variance and the mean update, over reals. `tanh`, `sqrt` and `pi` are parameters of which only laws
  are used: `tanh` is strictly increasing with `tanh(0) = 0`, `sqrt` squares back, `pi` is positive.
  `EloEngine` holds the loops and arrays, `EloMmr`, `EloMeans`, `Variance` and `RootFinder` the
  functions and their laws, `LongHistory` the one divisor that can turn negative, `RatingHistory` the
  rating table over sequences of contests, `CurrentRatings` when users show their newest row,
  `RoundExact` what a contest is rated from and every field it stores.
- **Judge jobs.** `JudgeJob` says what each request does to one job, its submission and its case rows;
  `JudgeLaws` has the laws of single requests, `JudgeRuns` those of all interleavings of workers,
  clock, sweep, heartbeats and rejudges, `StepOutcomes` what each step leaves of every job, `JudgeStore` the records that are updated in place, proved
  against the same steps. An atomic transaction is one step that applies in full or not at all; rows
  that other transactions hold locked are a parameter of the sweep and of the claim.
- **Scoring and packages.** `Scoring` has the loops, `ScoringLaws` the declarative definition they
  refine, `ScoringBounds` monotonicity and bounds, `VerdictRules` the verdict from the reported rows,
  `PackageImport` and `ImportRules` the importer, `FullMarks` which packages
  can be accepted at all, `WorkerExecute` the worker's case loop, `ArchivePoints` the points it reads
  from the archive against those stored. `JudgeJourney`, `WorkerTurn` and
  `JudgedRuns` join them: from an imported package to the stored verdict, in any run of the table.
- **Contests.** Five formats as folds over ordered submissions, what one more submission does to a
  standing (`ContestScores`), the cut-off, and the frozen board;
  `JudgedContests` and `RatedBoard` tie them to the judge before them and the ratings after them.
- **Comments.** Materialised paths as text, the thread table, the rebuilt forest
  (`CommentTree`, `CommentChildren`), and votes.
- **Exact checker.** Normalising and comparing outputs, and what exactly is overlooked (`OutputRules`).

Where code and documentation disagree the code is modelled: starting a running job revives a lapsed
lease although the worker protocol says an expired lease is refused (`JudgeLaws.StartRevivesLapsedLease`);
`partial_score` is documented to allow partial verdicts, but they score nothing on cases whose points
the archive leaves to the default (`ArchivePoints.PartialShareExactly`); with partial scoring off, TLE
and similar verdicts stay and CE or IE keep their points (`ScoringBounds.ErrorKeepsPoints`); the frozen
ranking recalculates every participation at the freeze time although its docstring speaks of the stored aggregates (`FrozenRanking.FrozenBoardIsPastBoard`).

## Model

| member | source | states |
|---|---|---|
| Variance.Cache.VarianceFor | apps/ratings/services/elo_mmr.py:25-31 | The grown cache returns the variance recurrence at every index, whatever was asked before; entries already in the cache never change, and the cache grows exactly as far as asked |
| Variance.VarLimIsLimit | apps/ratings/services/elo_mmr.py:18 | VAR_LIM, as computed, is positive and solves x^2 + Vc x = BETA2 Vc |
| Variance.LimitBelowStart | apps/ratings/services/elo_mmr.py:11-18 | VAR_LIM lies strictly between 0 and BETA2, and VAR_INIT above both |
| Variance.NextAgainstLimit | apps/ratings/services/elo_mmr.py:25-31 | Above VAR_LIM one step of the recurrence strictly falls and stays above; VAR_LIM is its fixed point |
| Variance.PriorDecreases | apps/ratings/services/elo_mmr.py:25-31 | The prior variance strictly decreases with every contest and never reaches VAR_LIM |
| Variance.PriorOrdered | apps/ratings/services/elo_mmr.py:25-31 | More contests never mean a larger variance, at any distance |
| RootFinder.Solve | apps/ratings/services/elo_mmr.py:38-67 | The loop with its cached end values terminates, divides by no zero, and equals the plain bisection it abbreviates |
| RootFinder.BisectBrackets | apps/ratings/services/elo_mmr.py:38-67 | For any strictly increasing function on ordered bounds the root stays inside; it is an end point exactly when the target is out of reach there; otherwise the function crosses the target within 2 on each side, measured against the bounds of the whole search |
| RootFinder.BisectMonotone | apps/ratings/services/elo_mmr.py:38-67 | A larger target never gives a smaller root, although the two searches may follow different halves |
| RootFinder.OrderNeedsOrderedBounds | apps/ratings/services/elo_mmr.py:38-67 | That monotonicity holds if and only if the bounds are in order, which a performance ceiling below the valid range breaks |
| RootFinder.StraightExact | apps/ratings/services/elo_mmr.py:59-67 | On a function that is a straight line between the bounds the interpolated root hits the target exactly |
| EloMmr.CurveIncreases | apps/ratings/services/elo_mmr.py:34-35 | A weighted sum of tanh terms plus a non-negative linear term is strictly increasing, so the root finder applies to it |
| EloMmr.TargetAntitone | apps/ratings/services/elo_mmr.py:96-104 | A better rank never has a smaller target |
| EloMmr.TargetsOrdered | apps/ratings/services/elo_mmr.py:96-104 | For ranks in standing order the targets are non-increasing |
| EloMmr.LeaderTarget | apps/ratings/services/elo_mmr.py:96-104 | Ahead of everyone, the target is the sum of all inverse widths |
| EloMmr.TargetStep | apps/ratings/services/elo_mmr.py:96-104 | From one rank to the next below, the target falls by exactly the inverse widths of everyone on the two ranks |
| EloMmr.TermAt | apps/ratings/services/elo_mmr.py:34-35 | A term at u double deviations from its mean is weight times tanh(u) over the deviation |
| EloMmr.PlanCoversOnce | apps/ratings/services/elo_mmr.py:106-111 | `fill` writes every index strictly between its ends exactly once and no other index |
| EloMmr.NeighbourSearchSound | apps/ratings/services/elo_mmr.py:106-111 | A search between two sound neighbour results is itself sound against the full range: depth does not compound the error |
| EloMmr.FillSound | apps/ratings/services/elo_mmr.py:106-111 | After `fill` the whole segment is sound and non-increasing, and nothing outside it has changed |
| EloMmr.PerformancesSound | apps/ratings/services/elo_mmr.py:96-119 | Performances are non-increasing, each keeps F(p-2) <= target <= F(p+2) or is at that end of the range, and equal targets differ by at most 4 |
| EloMeans.PrecisionStep | apps/ratings/services/elo_mmr.py:25-31 | 1/v(k) - 1/BETA2 is the retention factor times 1/v(k-1): the recurrence telescopes |
| EloMeans.RemainderBound | apps/ratings/services/elo_mmr.py:121-135 | What is left for the prior after k history weights is at least the current weight times the precision still to be unrolled |
| EloMeans.InitialWeightPositive | apps/ratings/services/elo_mmr.py:121-138 | The divisor of the mean update is strictly positive for every number of contests and every history no longer than that |
| LongHistory.LongerHistoryExactly | apps/ratings/services/elo_mmr.py:121-138 | Were a history one entry longer than the number of rated contests, the divisor would be negative up to three contests and positive from four on: the length condition matters exactly there, although the only caller passes equal lengths |
| EloMeans.RootNear | apps/ratings/services/elo_mmr.py:38-67 | A root search ends within 2 of any interval on which the function crosses the target |
| EloMeans.NewMeanBetween | apps/ratings/services/elo_mmr.py:121-144 | The new mean stays in the bounds and between the old mean and the new performance up to 2, whatever the rest of the history says |
| EloMeans.DisplayedBounds | apps/ratings/services/elo_mmr.py:146-149 | The displayed rating never exceeds max(1, rounded mean), and for the same mean it never falls with more contests |
| EloMeans.DisplayedShows | apps/ratings/services/elo_mmr.py:146-149 | What is displayed, with the excess deviation added back, is within 1/2 of the mean; it is 1 only for means of at most 1.5 plus that excess |
| EloMeans.DisplayedOrder | apps/ratings/services/elo_mmr.py:146-149 | After equally many contests a larger mean never shows a smaller rating |
| EloEngine.SolveIndex | apps/ratings/services/elo_mmr.py:96-104 | Writes one entry: the root for that player, target summed opponent by opponent; every other entry keeps its value |
| EloEngine.Fill | apps/ratings/services/elo_mmr.py:106-111 | The recursive in-place pass leaves the array that the sequence of neighbour solves describes |
| EloEngine.AccumulateTerms | apps/ratings/services/elo_mmr.py:122-133 | The history loop computes the terms and the running weight sum that the divisor proof is about |
| EloEngine.UpdateMean | apps/ratings/services/elo_mmr.py:121-144 | One round of the mean loop computes the new mean that NewMeanBetween bounds, without dividing by zero |
| EloEngine.SolvePerformances | apps/ratings/services/elo_mmr.py:88-119 | Widths, both end solves and `fill` in place give the performances that PerformancesSound is about |
| EloEngine.Recalculate | apps/ratings/services/elo_mmr.py:70-150 | The whole engine, with the cases of no and of one player, against the functions the laws are about; each displayed rating is within 1/2 of the mean less the excess deviation, or 1 where that is at most 1.5, and keeps the order of means after equally many contests |
| EloEngine.ContestSound | apps/ratings/services/elo_mmr.py:70-150 | For ranks in order and old means in range: performances and new means in range, performances non-increasing, equal ranks within 4, every mean between old mean and performance up to 2 |
| EloEngine.CeilingHolds | apps/ratings/services/elo_mmr.py:70-86 | Under a performance ceiling that no old mean exceeds, no performance and no new mean exceeds it |
| EloEngine.WidthSquared | apps/ratings/services/elo_mmr.py:88-94 | The squared logistic width of a player is 3/pi^2 times the variance of a performance: the prior variance, that of one contest, and BETA2 |
| EloEngine.HistoryScaleSquared | apps/ratings/services/elo_mmr.py:121-128 | That of a past performance is 3/pi^2 times BETA2 |
| EloEngine.FewPlayers | apps/ratings/services/elo_mmr.py:78-87 | With fewer than two players performances and new means are the old means |
| TieRanks.AssignRanks | apps/ratings/services/rating_service.py:145-157 | The nested loops build the tie ranks the following laws are about |
| TieRanks.RanksNondecreasing | apps/ratings/services/rating_service.py:145-157 | Tie ranks never fall along the list, which is the ordering the engine needs |
| TieRanks.RanksTotal | apps/ratings/services/rating_service.py:145-157 | Tie ranks always add up to n(n-1)/2 |
| TieRanks.RankCounts | apps/ratings/services/rating_service.py:145-157 | On a sorted list a rank is the number of strictly better entries plus half the number of other equal ones |
| TieRanks.RanksSeparate | apps/ratings/services/rating_service.py:145-157 | On a sorted list two ranks are equal exactly when the keys are |
| RatingHistory.RatingBook.CalculateRatings | apps/ratings/services/rating_service.py:22-142 | The early returns, selection by rating window, tie ranks, engine, forced recalculation and the writing loop change rows and users as one specification says |
| RatingHistory.RatingBook.WriteRows | apps/ratings/services/rating_service.py:101-127 | The loop stores one row per selected player, with displayed rank, rating before and clamped after, mean, performance and both rounded volatilities from the cache, and updates current and best rating |
| RatingHistory.RatingBook.RecalculateAll | apps/ratings/services/rating_service.py:193-210 | Recalculating everything clears the rows, resets whoever had some, rates the contests in the given order and raises ratings to the floor |
| RatingHistory.SelectKeepsOrder | apps/ratings/services/rating_service.py:45-82 | Leaving out players outside the contest rating window keeps the standing order |
| RatingHistory.RateOk | apps/ratings/services/rating_service.py:22-142 | Rating one contest keeps every stored row in range: rank at least 1, mean and performance in the valid range, volatility not rising, displayed rating inside the configured floor and ceiling; and no rating above the stored maximum |
| RatingHistory.PlayOk | apps/ratings/services/rating_service.py:22-142 | The same for every sequence of contests rated from the empty table, forced recalculations included; what recalculating everything does to the stored maximum is RecalculatedBest |
| RatingHistory.RoundOutcome | apps/ratings/services/rating_service.py:58-93 | After any sequence of contests, one more gives performances in standing order, tied players within 4, and means between the performance and, up to 2, the mean of the latest other contest the player was rated in (1500 without any); the stored rating before is of that same row (1200 without any) |
| RatingHistory.PlayOrdered | apps/ratings/services/rating_service.py:59-65 | Over every sequence of contests, forced ones included, the rows of each user stay ordered by the end of their contest |
| RoundExact.RoundStores | apps/ratings/services/rating_service.py:50-123 | What a contest is rated from and what it stores: exactly those outside the rating window are left out; mean, rating, number of contests and performances are those of the other rows, latest first; performance and mean solve their equations; displayed rank, clamped rating and both volatilities follow from these |
| RatingHistory.SharedRankExactly | apps/ratings/services/rating_service.py:87-114 | Although half ranks are rounded to even, two players of a contest share a stored rank exactly when score and tiebreaker agree, and ranks never fall along the board |
| CurrentRatings.CurrentExactly | apps/ratings/services/rating_service.py:58-127 | Exactly when rating a contest, forced or not, leaves a current rating equal to that of the newest row: for a rated player no other contest they were rated in ended later or shows another number; for everyone else the rating they have is that of their newest other row |
| CurrentRatings.ChronologicalCurrent | apps/ratings/services/rating_service.py:207-208 | Contests rated once each in the order they ended always leave every current rating equal to that of the newest row |
| CurrentRatings.RecalculatedCurrent | apps/ratings/services/rating_service.py:193-210 | After recalculating everything this holds for a rated user exactly when the configured floor does not exceed the ceiling |
| CurrentRatings.RecalculatedFresh | apps/ratings/services/rating_service.py:193-210 | The rows after recalculating everything do not depend on what was stored before; who had rows and gets none starts over at 1200, who never had any keeps both numbers, and ratings below the floor show the floor |
| CurrentRatings.RecalculatedBest | apps/ratings/services/rating_service.py:193-210 | After recalculating everything no rating is above the stored maximum exactly when each user starts with a maximum of at least the floor, or is rated while the floor does not exceed the ceiling |
| CurrentRatings.FloorPassesBest | apps/ratings/services/rating_service.py:210 | A user who was never rated, under a floor of 100: current rating 100, maximum 0 |
| RatedBoard.RatedInOrder | apps/ratings/services/rating_service.py:40-56 | Picking the rated participations off the board by their own ids (live, not disqualified, no excluded user, with a submission unless everybody is rated) keeps the order the tie ranks and the engine rely on; a user with a live and a virtual entry keeps the live one |
| RatedBoard.RatedExactly | apps/ratings/services/rating_service.py:40-56 | Each board entry of a live, not disqualified participation of no excluded user, with a submission unless everybody is rated, gives one rated entry with its score and tiebreaker, and nothing else does |
| RatedBoard.BoardInOrder | apps/contests/formats/base.py:87-89 | The board with its ranks filled in is still in the order of score, tiebreaker and user |
| RatedBoard.BoardRates | apps/ratings/services/rating_service.py:40-93 | From any board of the ranking code, users with several participations included, to the engine: a better place never gets a lower performance, ties stay within 4 |
| Scoring.Collect | apps/judge/services/scoring_service.py:51-82 | The first loop: dictionary of score lists, last status per case, running maxima and passed count, for any list of reports |
| Scoring.FillMissing | apps/judge/services/scoring_service.py:84-90 | The second loop adds one zero for exactly the cases without a report |
| Scoring.Score | apps/judge/services/scoring_service.py:27-126 | The whole computation equals the summary the laws below are about |
| Scoring.GroupIds | apps/judge/services/scoring_service.py:49 | Insertion order of the group dictionary: every defined id once |
| ScoringLaws.EntriesAreSlots | apps/judge/services/scoring_service.py:57-90 | For distinct case numbers the two loops put every manifest case in exactly one group exactly once, missing cases as zero |
| ScoringLaws.ScoreRefines | apps/judge/services/scoring_service.py:27-126 | For distinct case numbers the loops compute the declarative per-group summary: points, subtasks, verdict, counts, time and memory |
| ScoringLaws.ScoreOrderFree | apps/judge/services/scoring_service.py:27-126 | Any permutation of the reported rows gives the same summary |
| ScoringBounds.ScoreMonotone | apps/judge/services/scoring_service.py:71-102 | Lowering any case fraction or dropping rows never raises a subtask score or the raw total, through min, sum, cap and both roundings |
| ScoringBounds.RawBounds | apps/judge/services/scoring_service.py:92-102 | The raw total lies between 0 and the rounded sum of the rounded group caps |
| ScoringBounds.JudgeBounds | apps/judge/services/scoring_service.py:101-115 | So do the points; with partial scoring off they are zero unless the result is AC, CE or IE |
| ScoringBounds.OneGroup | apps/judge/services/scoring_service.py:92-102 | With a single group the raw total is that group's rounded score over all cases |
| ScoringBounds.ErrorKeepsPoints | apps/judge/services/scoring_service.py:105-115 | A CE or IE case decides the result and lifts the gate: the points of the other cases stay, partial scoring on or off |
| ScoringBounds.GateExactly | apps/judge/services/scoring_service.py:105-115 | With partial scoring off a submission that is not accepted earns points exactly when some case was reported as CE or IE and the cases earned something; otherwise it gets nothing |
| ScoringBounds.ErrorKeepsPointsExample | apps/judge/services/scoring_service.py:105-115 | A concrete two-case submission that ends as CE with points |
| VerdictRules.DecidedExactly | apps/judge/services/scoring_service.py:136-148 | Each of CE, IE, TLE, MLE, RTE and OLE is the result exactly when some case of the manifest is last reported so and none as an earlier one of them |
| VerdictRules.UndecidedExactly | apps/judge/services/scoring_service.py:101-115 | When none of the six is reported: AC exactly when all cases passed and the points reach what the groups are worth, PARTIAL exactly when it is not AC, something was earned and partial scoring is on, WA otherwise |
| VerdictRules.SummaryExactly | apps/judge/services/scoring_service.py:101-126 | The rest of the summary for any rows: total, number of accepted rows, largest time and memory, ERROR exactly for CE and IE, points as the rounded sum of the subtask scores, and zeroes where the gate is shut |
| VerdictRules.CaseGroupExactly | apps/judge/services/scoring_service.py:79-81 | A case counts for the group it names if that is declared, else for the default group if that is, else for the first group |
| VerdictRules.LastDefinitionCounts | apps/judge/services/scoring_service.py:49 | Of two groups with one id the later one counts |
| VerdictRules.NoGroupsIsOne | apps/judge/services/scoring_service.py:42-48 | A manifest without groups scores exactly as with one sum group worth all the case points |
| VerdictRules.CodesRoundTrip | apps/judge/services/judge_result_service.py:130-132 | Reading the code of a verdict gives it back, and every other text reads as IR |
| PackageImport.ApplyDefaultPoints | apps/problems/services/package_service.py:290-295 | The in-place loop fills exactly the cases without points, all with the same default |
| PackageImport.ValidateGroups | apps/problems/services/package_service.py:298-332 | Group checks in order with the first error, then coverage of the case groups |
| PackageImport.ImportedManifest | apps/problems/services/package_service.py:335-364 | What scoring may rely on: as many cases as imported, in their own groups, non-negative points and caps, the declared groups or the one default group, and every case group declared up to surrounding blanks |
| ImportRules.ImportExactly | apps/problems/services/package_service.py:198-332 | An archive is imported exactly when it has 1 to 200 cases with points in range, groups with distinct ids that are not blank, known modes and points in range, and every case names a declared group up to surrounding blanks, or the default when none is declared |
| ImportRules.DefaultsAddUp | apps/problems/services/package_service.py:289-295 | As many default points as cases make up the points of the problem, up to 0.005 for each case |
| ImportRules.StripHolds | apps/problems/services/package_service.py:309 | A stripped id has no blank at either end, and only blanks were taken off |
| PackageImport.CasesKeepTheirGroup | apps/problems/services/package_service.py:298-364 | Every imported case is scored under the group it names exactly when no groups are declared or every group a case names is declared in that very spelling |
| PackageImport.CaseKeepsItsGroup | apps/problems/services/package_service.py:298-364 | The same for each single case |
| PackageImport.PaddedGroupLosesCases | apps/problems/services/package_service.py:309-356 | Ids are compared stripped but stored as given: a padded id passes validation and its cases are scored under another group |
| PackageImport.FullMarksExactly | apps/judge/services/scoring_service.py:57-115 | Without declared groups, a fully accepted report is AC exactly when rounding the case points one by one loses nothing against rounding their sum |
| PackageImport.FullMarks | apps/judge/services/scoring_service.py:57-115 | Case points with at most four decimals always reach AC; with at most two the points are exactly their sum |
| PackageImport.DefaultPointsOnGrid | apps/problems/services/package_service.py:290-295 | Default points are in hundredths, so packages that give no points reach full marks |
| PackageImport.FinePointsLose | apps/problems/services/package_service.py:335-364 | A package with one case worth 0.00500001 is never AC: the case is rounded to four decimals, its group to two |
| PackageImport.MinGroupSharesLose | apps/judge/services/scoring_service.py:92-115 | One failing family: a min group worth more than each of its equal cases is WA with zero points even when fully accepted, partial scoring off; FullMarks has the exact condition |
| FullMarks.AcceptedExactly | apps/judge/services/scoring_service.py:57-115 | For every manifest with cases and non-negative case points, declared groups included: a fully accepted report is AC exactly when what the groups score at full reaches the sum of the group points, and it says which verdict and points there are otherwise |
| FullMarks.FullMarksAttainable | apps/problems/services/package_service.py:298-364 | For any accepted import in hundredths: AC exactly when the cases of every group can earn the group points, and then the points are the sum of the group points |
| FullMarks.MinAttainable | apps/judge/services/scoring_service.py:92-99 | For a min group with points that means: it has a case, and each of its cases alone is worth the group |
| FullMarks.UnusedGroupBlocks | apps/problems/services/package_service.py:298-332 | A declared group with points that no case uses passes validation and puts AC out of reach |
| FullMarks.DefaultAttainable | apps/problems/services/package_service.py:335-364 | Without declared groups, case points in hundredths always suffice |
| WorkerExecute.Execute | worker/internal/worker/execute.go:146-212 | The index loop with break and continue: no results after a fault, otherwise one result per case up to the first that is not AC when short-circuiting; each carries the status of a failed run, and of the checker otherwise, with its time, memory in KiB and points |
| WorkerExecute.PrefixSlots | worker/internal/worker/execute.go:146-212 | Results are numbered so that report i lands on manifest case i |
| WorkerExecute.CutNeverOutscores | apps/judge/services/scoring_service.py:71-115 | A run cut after its first failed case never scores more than the full one, with or without partial scoring |
| WorkerExecute.ShortCircuitNeverOutscores | worker/internal/worker/execute.go:146-212 | Short-circuiting can never raise the points of a submission |
| ArchivePoints.WorkerPointsFit | worker/internal/worker/execute.go:98-114 | The points the worker goes by, from the archive as uploaded or from the stored cases when the archive lists none, are the stored points of each case or zero |
| ArchivePoints.PartialShareExactly | worker/internal/worker/execute.go:177-205 | Exactly when a partial verdict keeps its share of the stored points of a case: manifest.json lists no cases, or states the points of this one, or the default is zero, or the checker gave at most 0.00005; otherwise the case scores nothing |
| ArchivePoints.SharesKeptExactly | apps/problems/services/package_service.py:289-295 | Every partial verdict on every case keeps its share exactly when manifest.json lists no cases, states all points, or the default is zero |
| ArchivePoints.UnstatedPartialIsWrong | apps/judge/services/scoring_service.py:57-115 | Where the worker reads no points, a partial verdict is a wrong answer in every respect: the whole summary of the submission is the same with WA in its place |
| ArchivePoints.HalfShareLost | apps/problems/services/package_service.py:289-295 | One case worth 100, stated or by default: the stored manifests are equal, yet half marks earn 50 in one and nothing in the other |
| ArchivePoints.ShareOfTotal | apps/judge/services/scoring_service.py:71-78 | Only the share of the reported total counts: points and total in another unit score the same |
| JudgeLaws.RecordCoupled | apps/judge/services/judge_result_service.py:115-167 | A batch of cases keeps job, submission and rows coupled, with passed and current case bounded by the total |
| JudgeLaws.FinishCoupled | apps/judge/services/judge_result_service.py:185-258 | So does finish, in both modes, through the whole scoring computation |
| JudgeLaws.GradedHolds | apps/judge/services/judge_result_service.py:195-230 | What grading leaves: a verdict, ordered counters, and no points without subtask scores |
| JudgeLaws.EmptyPackageOvercounts | apps/judge/services/judge_result_service.py:221-229 | Why the coupling needs packages with cases: without any, one row numbered 7 is shown as case 7 of 1. The importer rejects such packages, and no run of JudgeRuns has one |
| JudgeLaws.RequestsDescend | apps/judge/services/judge_result_service.py:92-98 | Every request but a rejudge either leaves the status or strictly lowers 3*(max-attempts) + rank(status) |
| JudgeLaws.StrangersDenied | apps/judge/services/judge_result_service.py:36-43 | A callback is refused with a permission error exactly for judges that are not the claimant, and their heartbeat changes nothing |
| JudgeLaws.LeaseRules | apps/judge/services/judge_result_service.py:36-43 | Exactly when each callback is accepted, in terms of claimant, lease and status at the time of writing; `start` needs no lease for a job that is running |
| JudgeLaws.StartRevivesLapsedLease | apps/judge/services/judge_result_service.py:82-99 | Of a lapsed but unswept lease: every other callback is refused, and start accepts and renews it exactly when the job is already running for that judge |
| JudgeLaws.RecordIdempotent | apps/judge/services/judge_result_service.py:121-167 | Posting a batch again inside the lease leaves the submission and the rows of posting it once |
| JudgeLaws.RecordSplits | apps/judge/services/judge_result_service.py:121-167 | With a non-empty manifest, posting a batch in two parts is accepted exactly when the whole is, with the same state |
| JudgeLaws.OutOfRangeRollsBack | apps/judge/services/judge_result_service.py:124-127 | One case number outside the package rolls back the whole batch |
| JudgeLaws.ScoredCounters | apps/judge/services/judge_result_service.py:195-230 | Scored counters: passed and highest case never exceed the number of cases, and there is a subtask score for every group |
| JudgeRuns.GoodRun | apps/judge/services/judge_gateway_service.py:23-168 | Coupling of job, submission and rows holds in every state of every interleaving of workers, clock, sweep, heartbeats and rejudges |
| StepOutcomes.SweepOutcome | apps/judge/services/judge_gateway_service.py:30-124 | After a sweep no unlocked job has a lapsed lease: a lapsed one waits again as if never judged exactly when it has attempts left and is failed with IE and no points otherwise, its rows gone; every other job is as it was |
| StepOutcomes.TakeOutcome | apps/judge/services/judge_gateway_service.py:143-168 | A worker can take exactly a waiting, unlocked job in its languages with no such job of higher priority, or of the same and older; it holds it for 60 seconds on one more attempt, and nothing else changes |
| StepOutcomes.BeatOutcome | apps/judge/api/gateway.py:115-118 | A heartbeat gives every active job of its judge 60 more seconds and changes nothing else |
| StepOutcomes.BeginOutcome | apps/judge/services/judge_result_service.py:82-99 | What start leaves, accepted or not |
| StepOutcomes.PostOutcome | apps/judge/services/judge_result_service.py:112-167 | A batch is accepted exactly from the claimant inside its lease, on the right package, with all numbers in range; then the last entry for a case is its row, other rows stay, and the counters are those of the rows |
| StepOutcomes.CloseOutcome | apps/judge/services/judge_result_service.py:182-258 | finish is accepted exactly from the claimant inside its lease on the right package; then a custom run has the status of its highest-numbered row (IE without any) and a scored submission every field of the summary of its rows |
| StepOutcomes.AbortOutcome | apps/judge/services/judge_result_service.py:277-328 | fail in the same way, leaving CE for a compile error and IE otherwise |
| StepOutcomes.RedoOutcome | apps/submissions/services/submission_service.py:243-331 | After a rejudge a job with a package, or a custom run, waits with no attempt used, no rows and nothing judged; without a package nothing changes |
| StepOutcomes.SubmitOutcome | apps/submissions/services/submission_service.py:96-113 | A new job starts in that same state, with three attempts |
| JudgeRuns.TouchCoupled | apps/judge/api/gateway.py:133-185 | Each atomic step keeps one job coupled |
| JudgeRuns.RowHistory | apps/judge/services/judge_result_service.py:112-147 | Every stored row was written by an accepted report of the current claimant, who has held the job since |
| JudgeRuns.Provenance | apps/judge/services/judge_result_service.py:195-221 | In every run, every row that an accepted finish scores was posted by that judge during its current, unbroken claim |
| JudgeRuns.Fencing | apps/judge/services/judge_result_service.py:36-43 | Deleting from any run the callbacks of a judge that lost the job (requeued, taken by another or rejudged) leaves the whole table the same, until it claims again |
| JudgeRuns.ChangesPaid | apps/judge/services/judge_gateway_service.py:37-168 | Over any run without a rejudge, status changes are paid by the measure and claims by attempts |
| JudgeRuns.BoundedRetries | apps/judge/services/judge_gateway_service.py:37-168 | So a job changes status at most 3*max_attempts times and is claimed at most once per remaining attempt |
| JudgeRuns.VerdictStands | apps/judge/services/judge_result_service.py:187-190 | A finished or failed job, its submission and its rows never change again without a rejudge |
| JudgeRuns.LeaseHolds | apps/judge/services/judge_gateway_service.py:31-34 | Until its lease ends no run can take a job from its claimant, except by a rejudge |
| JudgeJourney.RowsAreReports | apps/judge/services/judge_result_service.py:195-220 | Rows upserted from a worker's results come back to scoring as exactly those results |
| WorkerTurn.WorkJob | worker/internal/worker/worker.go:73-118 | One turn of the worker loop on a claimed job, calling the in-place operations of the server: each refused call ends the turn |
| WorkerTurn.TurnSettles | worker/internal/worker/worker.go:73-151 | A turn inside its leases, with no other request on the job in between and whatever points the worker reads for the cases, settles it: the score of the results, or ERROR with CE for a compile error and IE otherwise, without points |
| JudgedRuns.AsideRun | apps/judge/services/judge_gateway_service.py:31-34 | While a claimed job is inside its lease, whatever other judges, the clock, the sweep, heartbeats and requests on other jobs do leaves the job, its submission and its rows as they are, up to a longer lease |
| JudgedRuns.TurnScores | worker/internal/worker/worker.go:52-119 | In any run of the whole table in which a worker takes, starts, reports and finishes a job inside its leases, with any other actions in between, the stored verdict is the score of its results, and it stays so until a rejudge |
| JudgedRuns.PassingTurn | worker/internal/worker/worker.go:52-119 | From package import to verdict inside a run: a program that passes every case ends in AC exactly when every group can be earned, with the sum of the group points, whether or not the archive the worker reads states the points of its cases |
| JudgedRuns.TurnFails | worker/internal/worker/worker.go:137-151 | A turn that reports a failure inside its leases, with any other actions in between, leaves ERROR with CE or IE and no points, until a rejudge |
| JudgeStore.JobRecord.ExpireOne | apps/judge/services/judge_gateway_service.py:38-122 | One round of the sweep loop writes job, submission and rows as specified |
| JudgeStore.JobRecord.CheckOwned | apps/judge/services/judge_result_service.py:36-43 | Claimant, lease and status checked in this order |
| JudgeStore.JobRecord.StartJob | apps/judge/services/judge_result_service.py:82-99 | The in-place updates of start |
| JudgeStore.UpsertBatch | apps/judge/services/judge_result_service.py:121-148 | The upsert loop: rows and highest case, or nothing at all when one number is out of range |
| JudgeStore.JobRecord.RecordBatch | apps/judge/services/judge_result_service.py:112-167 | The in-place updates of a batch, rolled back when refused |
| JudgeStore.JobRecord.Reports | apps/judge/services/judge_result_service.py:195-220 | The rows in case order as scoring takes them |
| JudgeStore.JobRecord.FinishJob | apps/judge/services/judge_result_service.py:182-258 | The in-place updates of finish, with the server-side score |
| JudgeStore.JobRecord.FailJob | apps/judge/services/judge_result_service.py:277-328 | The in-place updates of fail |
| JudgeStore.JobRecord.RejudgeSubmission | apps/submissions/services/submission_service.py:243-331 | The in-place reset of a rejudge |
| JudgeStore.JobTable.ExpireStaleJobs | apps/judge/services/judge_gateway_service.py:23-124 | The loop over stale, unlocked jobs is one sweep step of the whole table |
| JudgeStore.JobTable.ClaimFirst | apps/judge/services/judge_gateway_service.py:143-168 | Claims a waiting job in a supported language that no other such job precedes by priority and age, or none when there is none |
| JudgeStore.JobTable.ClaimJob | apps/judge/services/judge_gateway_service.py:127-168 | Sweep and claim as two transactions, with the clock moving in between |
| JudgeStore.JobTable.ExtendLeases | apps/judge/api/gateway.py:115-118 | The bulk lease update is one heartbeat step of the whole table |
| ContestFormats.DefaultProblem | apps/contests/formats/default.py:63-80 | The loop finds the best points and the latest accepted time |
| ContestFormats.IcpcProblem | apps/contests/formats/icpc.py:65-87 | The loop with continue and break: wrong tries before the first accept, CE and IE free, penalty only when solved |
| ContestFormats.AtCoderProblem | apps/contests/formats/atcoder.py:69-86 | The loop stops at the first accept and counts every earlier submission as wrong |
| ContestFormats.EcooOf | apps/contests/formats/ecoo.py:59-70 | Solved exactly when one of the first allowed tries is accepted |
| ContestFormats.IoiProblem | apps/contests/formats/ioi.py:57-78 | The nested loops keep the best value of every subtask and add them up, or the best points when there are no subtasks |
| ContestStandings.CalculateParticipation | apps/contests/formats/base.py:41-61 | The five formats added up over the problems of a contest |
| ContestStandings.IcpcParticipation | apps/contests/formats/icpc.py:36-55 | Solved count and penalty minutes over the problems |
| ContestStandings.AtCoderParticipation | apps/contests/formats/atcoder.py:36-59 | Points, latest first accept and penalty for wrong tries on solved problems |
| ContestScores.IcpcWrongTry | apps/contests/formats/icpc.py:41-79 | One more submission that is not accepted, anywhere in the table: the score stays, and the tiebreaker rises by exactly the cost of a wrong try when the problem is solved later and the try is no CE or IE |
| ContestScores.IcpcFirstAccept | apps/contests/formats/icpc.py:41-79 | A first accept adds one to the score, and to the tiebreaker its minute and the cost of every counted try before it |
| ContestScores.IcpcSolvedStays | apps/contests/formats/icpc.py:70-77 | Nothing submitted to a solved problem changes the standing |
| ContestScores.AtCoderWrongTry | apps/contests/formats/atcoder.py:36-86 | One more submission that is not accepted: the tiebreaker rises by exactly the penalty when the problem is solved later, compile errors included |
| ContestScores.AtCoderFirstAccept | apps/contests/formats/atcoder.py:36-86 | A first accept adds the points of the problem, moves the latest accept to its minute if that is later, and charges every earlier try of the problem |
| ContestScores.AtCoderSolvedStays | apps/contests/formats/atcoder.py:69-76 | Nothing submitted to a solved problem changes the standing |
| ContestScores.DefaultNext | apps/contests/formats/default.py:34-80 | One more submission raises the score to the best points of the problem, and an accept moves the tiebreaker to its time if later |
| ContestScores.EcooNext | apps/contests/formats/ecoo.py:36-70 | One more submission adds one exactly when it is a first accept among the allowed tries |
| ContestScores.IoiPlainNext | apps/contests/formats/ioi.py:34-78 | One more submission without subtasks raises the score to the best points as long as the problem has had none with subtasks, and changes nothing afterwards |
| ContestScores.IoiSubtaskNext | apps/contests/formats/ioi.py:34-78 | One more subtask value adds what it improves on the best of that subtask; the first one of all takes the place of the best points |
| ContestScores.NothingSubmitted | apps/contests/formats/base.py:41-61 | With nothing submitted a standing is zero in every format |
| ContestScores.DefaultDetails | apps/contests/formats/default.py:63-80 | Attempts are all submissions, and solved means an accept after the start |
| ContestScores.IcpcDetails | apps/contests/formats/icpc.py:65-87 | Attempts, wrong tries and minute of a problem, before and after its first accept |
| ContestScores.AtCoderDetails | apps/contests/formats/atcoder.py:69-86 | The same, with every submission before the accept a wrong try |
| ContestScores.IoiDetails | apps/contests/formats/ioi.py:57-78 | Attempts are all submissions, and exactly the subtasks met are kept, each with its best value |
| ContestLaws.CutIsPrefix | apps/contests/formats/base.py:165-169 | An earlier cut-off leaves a prefix of each problem's submissions |
| ContestLaws.FrozenIsPast | apps/contests/services/ranking_service.py:71-87 | A standing at a freeze time is the live standing of a contest with no later submission |
| ContestLaws.FirstAcceptFinal | apps/contests/formats/icpc.py:70-77 | In ICPC and AtCoder nothing after the first accept changes a problem result |
| ContestLaws.ErrorsAreFree | apps/contests/formats/icpc.py:70-77 | Deleting every CE and IE submission leaves the ICPC result of a problem unchanged |
| ContestLaws.IoiDominates | apps/contests/formats/ioi.py:62-71 | The IOI total is at least what any single submission scored over its own subtasks |
| ContestLaws.IoiGrowsExactly | apps/contests/formats/ioi.py:62-71 | An IOI score is safe from every later submission exactly when some subtask is already scored or nothing was earned without subtasks |
| ContestLaws.SpoilerLowers | apps/contests/formats/ioi.py:70-71 | Otherwise one later submission with a worthless subtask drops the score to zero |
| ContestLaws.ScoreGrows | apps/contests/formats/base.py:165-169 | In all five formats moving the cut-off later never lowers a score, given non-negative AtCoder points and IOI submissions without subtask scores worth nothing |
| ContestLaws.AtCoderGrowsExactly | apps/contests/formats/atcoder.py:80-86 | AtCoder problem points never fall exactly when the problem is worth at least nothing |
| JudgedContests.JudgedIsScored | apps/contests/formats/ioi.py:62-71 | In every run of the judge a submission without subtask scores has no points |
| JudgedContests.JudgedIoiGrows | apps/contests/formats/ioi.py:57-73 | So IOI scores over judged submissions never fall with the cut-off |
| FrozenRanking.SortedHolds | apps/contests/services/ranking_service.py:89 | The sort permutes its input and orders it by score, tiebreaker and user |
| FrozenRanking.SortedStable | apps/contests/services/ranking_service.py:89 | Entries with equal keys keep their order |
| FrozenRanking.SortedOrderFree | apps/contests/services/ranking_service.py:89 | When no two different entries share score, tiebreaker and user, the board does not depend on the order in which participations are read |
| FrozenRanking.OrderFreeExactly | apps/contests/services/ranking_service.py:89 | And only then: a user with two tied participations makes it depend on the reading order |
| FrozenRanking.RankCountsBetter | apps/contests/services/ranking_service.py:90-91 | Ranks run from 1, and every rank is one more than the number of better entries exactly when no two entries share score, tiebreaker and user |
| FrozenRanking.AssignRanks | apps/contests/services/ranking_service.py:90-91 | The in-place loop numbers the entries from 1 |
| FrozenRanking.GetFrozenRanking | apps/contests/services/ranking_service.py:55-92 | The board while frozen and while not |
| FrozenRanking.BoardHolds | apps/contests/services/ranking_service.py:71-92 | A board, frozen or not, has one entry for each participation that is not disqualified, with its stored standing or the one recalculated up to the freeze, in order of score, tiebreaker and user, numbered from 1 |
| FrozenRanking.FrozenExactly | apps/contests/models/contest.py:105-113 | Frozen exactly from the freeze on until the contest ends, if a freeze is set |
| FrozenRanking.FrozenBoardIsPastBoard | apps/contests/services/ranking_service.py:71-92 | While frozen the board is the recalculated board of the freeze time |
| FrozenRanking.FreezeHides | apps/contests/services/ranking_service.py:71-92 | Two contests that agree on submissions up to the freeze show the same frozen board, whatever came later and whatever is stored |
| CommentPaths.NextSegment | apps/content/services/comment_service.py:201-229 | The loop over sibling paths: the highest last segment plus one in three digits, or the error met |
| CommentPaths.PathsCompare | apps/content/services/comment_service.py:155 | Fixed-width segments: paths compare as texts exactly as their segment numbers compare as lists |
| CommentPaths.DepthIsLength | apps/content/models/comment.py:45-50 | The depth of a path is its number of segments |
| CommentThreads.CommentStore.CreateComment | apps/content/services/comment_service.py:44-71 | Appends the placed comment or leaves the table unchanged with the error |
| CommentThreads.CommentStore.DeleteComment | apps/content/services/comment_service.py:90-103 | Soft deletion hides the row and keeps it |
| CommentThreads.RefusedExactly | apps/content/services/comment_service.py:44-62 | A comment is refused exactly for a parent in another post, a parent at depth ten, or 999 earlier siblings; paths stay below 255 characters |
| CommentThreads.NextIsCount | apps/content/services/comment_service.py:201-229 | The next segment is always one more than the number of siblings, deleted ones included |
| CommentThreads.PlaceThreaded | apps/content/services/comment_service.py:44-71 | Creating a comment keeps every path equal to the ordinals of its ancestors |
| CommentThreads.RunThreaded | apps/content/services/comment_service.py:22-103 | The same after every sequence of creations and deletions |
| CommentThreads.VisibleExactly | apps/content/services/comment_service.py:22-103 | After any requests a comment keeps its post, parent and path, and is visible exactly when it was and no request deleted it |
| CommentThreads.CreatedVisible | apps/content/services/comment_service.py:44-71 | An accepted comment is added at the end, visible, under the post and parent asked for |
| CommentThreads.UniquePaths | apps/content/services/comment_service.py:22-71 | Paths within a post are unique |
| CommentOrder.PathOrderIsPreorder | apps/content/services/comment_service.py:152-156 | Path order is tree preorder, siblings in creation order, in both directions |
| CommentOrder.ListingNested | apps/content/services/comment_service.py:152-156 | Between a comment and its reply the list holds only its descendants, or comments whose parent is hidden |
| CommentOrder.ListingExists | apps/content/services/comment_service.py:152-156 | There is always a list of the visible comments in path order |
| CommentOrder.ShownTree | apps/content/services/comment_service.py:159-198 | After any requests the shown tree holds every listed comment once, and in preorder it is the list whenever no hidden comment has a visible reply |
| CommentTree.GetCommentTree | apps/content/services/comment_service.py:169-198 | The loop over the flat list builds the forest the laws below are about |
| CommentTree.EachPlacedOnce | apps/content/services/comment_service.py:173-196 | Every listed comment is placed exactly once, for any list |
| CommentChildren.ChildrenExactly | apps/content/services/comment_service.py:173-196 | Below each comment stand exactly the listed comments that answer it, and at the top those whose parent is not listed before them, both in list order |
| CommentTree.FlattensExactly | apps/content/services/comment_service.py:173-198 | Reading the forest in preorder gives the list back if and only if no comment with a missing parent stands between a comment and one of its replies |
| CommentTree.HiddenParentReorders | apps/content/services/comment_service.py:189-196 | A concrete list with a hidden parent whose preorder differs |
| CommentVotes.VotedComment.Vote | apps/content/services/comment_service.py:107-139 | A vote updates the vote table and keeps the stored score equal to the sum of votes |
| CommentVotes.TotalAfterCast | apps/content/services/comment_service.py:128-135 | The score delta of a new, repeated or reversed vote is exact |
| CommentVotes.ScoreCountsLastVotes | apps/content/services/comment_service.py:119-139 | After any votes the score is the number of users whose last allowed vote is up less those whose last is down |
| ExactChecker.Normalize | worker/internal/checker/checker.go:152-158 | The in-place trimming loop between split and join computes the normal form |
| ExactChecker.AcceptsExactly | worker/internal/checker/checker.go:31-36 | Two texts have the same normal form exactly when their lines agree after trimming trailing blanks and dropping trailing empty lines |
| ExactChecker.Check | worker/internal/checker/checker.go:31-36 | AC exactly in that case, WA otherwise |
| OutputRules.TrailingBlanks | worker/internal/checker/checker.go:152-158 | Blanks at the end of a line or of the text are overlooked |
| OutputRules.LineEndings | worker/internal/checker/checker.go:152-158 | CRLF and LF line ends are the same |
| OutputRules.FinalLineFeed | worker/internal/checker/checker.go:152-158 | A line feed at the end is overlooked |
| OutputRules.TidyIsNormal | worker/internal/checker/checker.go:152-158 | A text without any of these is its own normal form, so two such outputs are accepted exactly when they are equal |
| ExactChecker.IdempotentExactly | worker/internal/checker/checker.go:152-158 | Normalising twice changes nothing exactly when no line of the text ends, trailing blanks aside, in a carriage return while a later line holds more than blanks |
| ExactChecker.PairedIdempotent | worker/internal/checker/checker.go:152-158 | For texts whose carriage returns come only in CRLF pairs it is always idempotent |
| ExactChecker.StrayReturn | worker/internal/checker/checker.go:152-158 | CR CR LF b changes twice |

## Left out

- Floating point: ratings, points and times are reals, with rounding to 2 and 4 decimals (half to even) written out; results say nothing about accumulated float error.
- EloMmr.Analysis: `tanh`, `sqrt` and `pi` are any functions and number with the stated laws; their numeric values are not modelled.
- EloEngine.Recalculate: the performance ceiling is modelled, but no caller passes one; ContestSound covers ceilings not below the old means.
- RatingHistory.RatingBook.CalculateRatings: takes the entries that RatedBoard.Rated selects from the board; the rows it returns and the events it publishes are not modelled.
- RatingHistory.RatingBook.RecalculateAll: the contests come in the order of the query, each with its standings; a contest's end time is the one stored with the row when it was rated.
- Tied players in larger fields need not get equal performances; only the distance of at most 4 holds.
- Feedback and output texts of cases, source code, limits and configuration of a job: stored and passed on, never decided upon.
- WorkerExecute.Execute: compiling, running and checking a case is one arbitrary outcome with its time and memory; output and feedback texts are not modelled, and an interactive case is an outcome whose run succeeded. An archive of plain .in and .out pairs without manifest.json is imported (package_service.py:144-145), but the worker needs that file (execute.go:268-272), so every submission on it ends as IE; so does one on an archive whose manifest names answers by `output` or writes numbers as text, which the importer accepts. These failures are the Fault of the model.
- JudgeRuns.GoodRun: assumes imported packages have cases, as the importer enforces; JudgeLaws.EmptyPackageOvercounts shows what fails without it.
- JudgeRuns.Fencing: is about callbacks on the job the judge lost; its heartbeats and other jobs stay in the run, and JudgeLaws.StrangersDenied says its heartbeat does not touch that job.
- A lapsed lease that was not swept can be revived by `start` on a running job or by a heartbeat, so safety is stated for the claimant and lease at the time of writing.
- JudgeStore.JobRecord.RejudgeSubmission: a submission without a job row, for which the code creates one, and rebuilding the job configuration are not modelled; nor is deletion of judges or submissions.
- Shadow jobs, which requeue without looking at the attempt limit, and the older bridge, which writes submissions without a job.
- WorkerTurn.WorkJob: is one turn on a claimed job that always names the package of the job; waiting, polling, failed transport and the heartbeat goroutine are not modelled, and in the runs any worker sends any request, with any package hash, at any time.
- JudgeStore.JobTable.ClaimFirst: ties in priority and creation time are left open, as the query leaves them.
- Stored contest scores are not refreshed on rejudge or expiry; the live board shows stored standings.
- FrozenRanking.GetFrozenRanking: `list.sort` is the stable sort it is documented to be, written as insertion.
- ContestLaws.CutIsPrefix: a table ordered by creation time and id is given, as the query returns it.
- CommentOrder.ShownTree: path order is comparison by character code; a database collation that orders '.' or digits differently is not modelled.
- CommentTree.GetCommentTree: nodes are values in a forest and a reply is added by search, so the shared references of the dictionary are not modelled.
- CommentPaths.NextSegment: the segment parser accepts digits only; signs, blanks and underscores, which Python's `int` would accept, never occur in stored paths.
- Concurrent creation of comments under one parent: requests are served one after the other.
- ExactChecker.Normalize: bytes are characters; Testlib, interactive and validator checkers are foreign programs.
- PackageImport.ValidateGroups: group points are numbers already; parsing of JSON and of archives, checkers and validators, and the pairing of plain input and answer files are not modelled.
- FullMarks.FullMarksAttainable: is about case and group points in hundredths, which default points always are; FullMarks.AcceptedExactly is the condition for any points.
- HTTP, authentication, the ORM, events, caches, Celery and administration.
