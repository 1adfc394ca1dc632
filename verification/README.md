# Sigbound: a verified model of the landing engine

Sigbound runs many agents on branches of one repository, groups the branches by
the paths they changed, integrates them, verifies the result and moves the base
branch to it, or parks it for a human, or takes a landing back. This project
models that machinery and proves what it promises: that the fast integration
strategies are the serial fold, that nothing reaches the base unverified, that a
parked landing is resolved at most once, and that a landing can be taken back.

## How it is modelled

A tree maps paths to entries (a mode and a content); a commit is its tree, its
parents and its message. Git's primitives are given by specification only: the
three-way merge works path by path, and where both sides changed a path it
defers to any deterministic content merge; the overlay applies every head's diff
from base. A resolver is any deterministic partial function of a path and its
three contents. Every theorem holds for all content merges and all resolvers.

| module | what it holds |
|---|---|
| `Git` | trees, commits, ancestry, merge, overlay, splice |
| `Seqs` | subsequences picked by positions, and what a partition preserves |
| `WriteSets`, `UnionFinds`, `Partition` | write-sets, the in-place union-find, the overlap partition against connected components |
| `Fold`, `Combine`, `Integrate`, `Regroup` | the serial fold, the pairwise combine, the three strategies and their equivalence, folding only some groups |
| `Pilings`, `Equivalence`, `Coverage` | an engine that shows every difference, exactly when the strategies agree, what the ancestry guard and the recorded write-sets give |
| `Verify`, `Slices`, `GroupSearch`, `Bisect`, `Drive` | the reused worktree and repair loop, Go slices, the bisect search on values and on shared slices, the whole run from integration to landing |
| `Park`, `ParkSafety`, `ParkOnce` | the ack protocol as a state machine, safety without exclusion, at-most-once with it |
| `Unland` | inverting a landing |
| `Plan`, `Lanes` | accepting a plan, and what strict lanes over it give |
| `Holdback`, `Battery`, `Policy` | what policy holds back, the composed verify command, resolving policy against flags |
| `Schedule` | the recurring-intent scheduler |
| `GoText`, `FlatFile`, `PolicyDraft`, `IntentFile` | the text helpers, the shared lexer, and the two printers it reads back |
| `Impact` | the reverse-import closure |

Code that works in place is modelled in place: the union-find and its arrays,
the write-set, the worktree, the verify cache, the refs, the agent record, the run
parameters, the string builder and the bisect index array are classes or arrays
that methods change; each such method is proved against a specification. Loops over
Go maps pick their next key arbitrarily, and parallel phases finish in an
arbitrary order, so a result proved here is the same for every order.

A verdict carries its evidence: the runs in its worktree, every run since the
cache was opened, the passes on record before, and whether a worktree step failed.
Whether git can add a run's worktrees, and which candidates can be built, are
parameters, so that what a run does is stated both ways.

Assumptions stand in the statements. The engine's hypothesis is
`Integrate.Compatible`: branches of different groups leave alike every path they
both change. It is exact: the strategies agree under every content merge and
resolver if and only if it holds (`Equivalence.CompatibleIffStrategiesAgree`). It
holds for any edges when the records leave nothing out
(`Integrate.CoveredCompatible`), as in every record made by the batched diff
(`Coverage.BatchRecordCovers`), and for branches that contain base exactly when no
old name of a rename is recorded by a branch of another group that still has it
(`Coverage.GuardGivesCompatible`). The safety of a run does not rest on it
(`Drive.DriveRun`). A landing by anybody else is a fast-forward and
a green re-verify is built on the head it was given (`Park.Enabled`, the latter
being what `Unland.IntegrateVerifyPark` guarantees); a fixer commits on top of its
head (`Drive.FixerDescends`); the shell runs AND lists as POSIX.1-2017 says
(`Battery.Conforms`); verify commands leave any files behind but do not move HEAD;
a hold always carries a reason.

## Where a stated property fails

- The strategies are equivalent on every batch whose branches contain base, says
  cell/integrate.go:17-20 with cell/cell.go:279-301. A branch's write-set is
  recorded by `git diff --name-only` with rename detection on
  (internal/gitx/gitx.go:658-666), so a rename is recorded under its new name only.
  A branch that renames a file beside one that edits it form two groups, and the
  serial fold and the overlay part: `Coverage.RenamedSourceSplitsStrategies`. The
  exact condition, for every engine, is that branches of different groups leave
  alike every path they both change
  (`Equivalence.CompatibleIffStrategiesAgree`); for what the guard admits, that
  where one branch's rename left a path behind, no branch of another group records
  that path and still has it (`Coverage.GuardGivesEquivalence`). So two branches
  that move or delete one file are harmless; one that edits what another moves is not.
- Cleaning a worktree removes every untracked file, says
  internal/gitx/gitx.go:615-631. A single `-f` leaves nested repositories alone,
  so a verify that clones one is seen by the next run. A verify saw exactly the
  commit's tree iff none was left (`Verify.SawExactlyTheTree`), and
  `Verify.NestedRepositoryLeaks` is a run that breaks it.
- A due intent fires within as many ticks as there are scheduled intents, says
  the rotation in cmd/sig/intent.go:440-451. A stamp more than an hour ahead of
  the clock reads as never fired, but the clock can come to believe it before the
  intent's turn. `Schedule.DueFiresInTimeIff` gives the exact condition.
- A second unland is the no-op case (cmd/sig/unland.go:446-453) exactly when every
  path the run changed still read, at the first one, as the run left it or as
  before the run: `Unland.SecondUnlandIsNoOpIff`. Otherwise a merge or resolver
  may answer differently the second time.
- At-most-once resolution needs claims to be removed only by a live owner or
  after its crash: `ParkOnce.StolenClaimLandsARejection` is a run that lands a
  rejected park once a claim is taken from a live owner.
- Without the ancestry guard the strategies disagree:
  `Coverage.StaleBranchSplitsStrategies`.
- internal/gitx/plumbing.go:286-298 says the batched name diff returns the paths
  the per-branch diff would. It passes `--no-renames` and compares the two trees;
  on branches that contain base the two agree exactly when git paired no rename
  (`Coverage.ContainedRecord`).
- The inverse's write-set is the target run's write-set exactly, and a path that
  needs an ack to change needs one to change back, say cmd/sig/unland.go:455-458
  and cmd/sig/policy.go:352-355. The plan's write-set is recorded the same way, so
  the hold does not see the old names of the run's renames: after a run that
  renames a held path away, its unland brings the path back without an ack
  (`Unland.HeldPathComesBackUnacked`). The hold judges the recorded names as it
  would the diff exactly when git paired no rename (`Git.RecordShowsAllIff`), and a
  given matcher is misled exactly when it matches an old name and nothing that is
  recorded (`Git.RecordHidesFromIff`). A landing's hold judges the same record
  (`Holdback.HoldSeesAllIff`, `Holdback.RenamedHeldPathIsCleared`).
- The invocation count is the number of times the command was actually run, says
  cmd/sig/run.go:2792-2804; the code also counts a call that could not make the
  worktree ready (`Verify.UnreadyCounts`) and a retry that found a past pass. The two agree exactly when every call
  ran the command or the only one found a past pass
  (`Verify.InvocationsAreCommandsIff`).
- A semantic edge that names a branch listed twice binds its last occurrence
  (cell/occ.go:72-84); the model keeps that.

## Model

| member | source | states |
|---|---|---|
| `Git.MergeTreeAt` | internal/gitx/gitx.go:853-876 | the merged tree and the conflicts read the same at every path as the path's own three-way merge, inside and outside the trees |
| `Git.ApplyDiffAt` | internal/gitx/plumbing.go:138-204 | one overlaid head contributes exactly the paths where it differs from base, deletions included |
| `Git.AncestorTransitive` | internal/gitx/gitx.go:303-318 | ancestry composes |
| `WriteSets.WriteSet.Add` | cell/writeset.go:23-23 | the set gains that path and nothing else |
| `WriteSets.WriteSet.Overlaps` | cell/writeset.go:47-57 | true iff the two sets share a path, whichever is smaller |
| `UnionFinds.UnionFind.constructor` | cell/occ.go:131-138 | every element starts as its own root |
| `UnionFinds.UnionFind.Find` | cell/occ.go:139-146 | returns the element's root, moves no element to another root while halving, and takes at most log2(n) steps |
| `UnionFinds.UnionFind.Union` | cell/occ.go:147-159 | two elements share a root afterwards iff they did, or one was with a and the other with b |
| `UnionFinds.ClimbReachesRoot` | cell/occ.go:139-146 | following parents from any element reaches its root in at most log2(n) steps |
| `UnionFinds.ClimbStopsOnlyAtRoot` | cell/occ.go:139-146 | wherever climbing stops it is the root: the arrays alone determine it |
| `UnionFinds.HalvingKeepsForest` | cell/occ.go:139-146 | path halving keeps the heap invariants (ranks rise, roots of rank r have 2^r members) and every root |
| `UnionFinds.LinkKeepsForest` | cell/occ.go:147-159 | linking by rank keeps the heap invariants |
| `Partition.PartitionSemantic` | cell/occ.go:46-113 | the groups are exactly the connected components of "share a path or an edge between the last carriers of its two names", ordered by least index, members in input order, for every order the maps are walked in |
| `Partition.Join` | cell/occ.go:46-84 | after both passes two branches share a root iff they are connected |
| `Partition.JoinByPath` | cell/occ.go:55-70 | the inverted index joins every two branches that share a path |
| `Partition.FillBuckets` | cell/occ.go:86-92 | each bucket lists its root's members ascending |
| `Partition.SortRoots` | cell/occ.go:93-103 | the roots come out by smallest member |
| `Partition.ClassesSplit` | cell/occ.go:17-26 | every branch is in exactly one group |
| `Partition.ClassesPathDisjoint` | cell/occ.go:17-26 | no path is in two groups |
| `Partition.ClassesBelowAscending` | cell/occ.go:93-113 | groups are ordered by least index |
| `Partition.EdgesOnlyCoarsen` | cell/occ.go:28-45 | extra edges only coarsen the grouping |
| `Partition.EdgeJoins` | cell/occ.go:72-84 | an edge puts the last branches that carry its two names in one group |
| `Partition.EdgeGroups` | cell/occ.go:72-84 | so when no name is listed twice, some group of the result holds both branches an edge names |
| `Partition.AbsentEdgeJoinsNothing` | cell/occ.go:72-84 | an edge naming an absent branch leaves every group as it was |
| `Partition.GroupsAreLeast` | cell/occ.go:17-45 | nothing else is put together: a set of branches closed under sharing a path and under the edges holds every group it meets |
| `Partition.ClassesApart` | cell/occ.go:17-26 | members of different groups are not connected |
| `Partition.ClassesTogether` | cell/occ.go:17-26 | members of one group are connected |
| `Fold.MergeStaysInDiff` | cell/integrate.go:383-437 | a merge moves and conflicts on only paths the branch changed |
| `Fold.MergeIsLocal` | cell/integrate.go:383-437 | a branch's verdict and result depend only on what the trees hold on its own paths |
| `Fold.FoldIsLocal` | cell/integrate.go:17-20 | the serial fold restricted to a group's paths is that group's own fold, even between worlds that agree only there |
| `Fold.FoldIsShared` | cell/integrate.go:17-20 | branches that share no recorded path with the others, and leave alike what both change, have by themselves the outcomes they have in the whole batch, and its tree wherever one of them landed a change |
| `Fold.UniformPath` | cell/integrate.go:383-437 | a path left alike by every branch that changes it never conflicts, and reads so once one of them has landed |
| `Fold.FoldStaysInPaths` | cell/integrate.go:383-437 | when write-sets cover, a fold changes only paths in its landed members' write-sets |
| `Fold.FoldStaysInDiffs` | cell/integrate.go:383-437 | in any case it changes only paths a landed branch differs from base on |
| `Integrate.CoveredCompatible` | cell/integrate.go:575-582 | write-sets that cover meet the engine's hypothesis for any edges |
| `Equivalence.CoveredSeparable` | cell/integrate.go:575-582 | and then no path is touched from two groups |
| `Fold.FoldBranches` | cell/integrate.go:383-437 | landed, flagged with conflict paths and the single head commit are those of the serial fold; the auto-merge count is the number of branches that landed with a path some earlier landed branch has recorded |
| `Fold.OutcomeAt` | cell/integrate.go:383-437 | a branch in its turn lands exactly when the resolver answers every path that conflicts with the tree so far, and then each path reads as its merge; else it is flagged with exactly those paths and the tree stays; it overlaps exactly when it lands and an earlier landed branch has recorded one of its paths |
| `Fold.AutoMergesAreOverlaps` | cell/integrate.go:420-425 | the auto-merge count is the number of branches that overlap |
| `Fold.ReportsRead` | cell/integrate.go:383-437 | each branch is in one report, once and in order: landed by name or flagged with its conflicts |
| `Fold.AttemptResolve` | cell/integrate.go:461-494 | resolves iff the resolver answers every conflicted path, and splices exactly those answers |
| `Fold.AnswerIs` | cell/integrate.go:461-485 | the resolver is asked with the path and its content in the merge base, on our side and on theirs, empty where missing |
| `Fold.ResolvedReads` | cell/integrate.go:485-494 | a resolved merge holds the answers where git conflicted, in the mode git left or a regular file's, and is git's elsewhere |
| `Fold.NoResolverDecides` | cell/integrate.go:461-464 | without a resolver a merge goes through exactly when nothing conflicts, and is git's |
| `Fold.FirstMergeIsTheirs` | cell/integrate.go:376-399 | the skipped first merge would have been theirs, without conflict |
| `Fold.NothingLandedYet` | cell/integrate.go:383-437 | until a branch lands the accumulator is untouched |
| `Combine.CombineDisjoint` | cell/integrate.go:496-546 | computes the level-by-level reduction, failing exactly when a pair conflicts and then naming the paths of one that does; on heads that agree it never does, gives the overlay's tree, takes ceil(log2 n) levels and keeps every head an ancestor |
| `Combine.DisjointAgree` | cell/integrate.go:496-498 | heads that change disjoint paths agree |
| `Combine.CombinedIsOverlay` | cell/integrate.go:496-546 | heads that leave alike what two of them change reduce without a conflict to the overlay's tree |
| `Combine.OnlyAgreeingCombine` | cell/integrate.go:496-546 | and where the content merge always conflicts, only such heads reduce |
| `Combine.MergeLevel` | cell/integrate.go:499-546 | one parallel level, whatever order its pairs finish in, fails exactly when one of them conflicts, naming the conflicting paths of such a pair |
| `Combine.LevelsIsCeilLog2` | cell/integrate.go:496-498 | the number of levels is the ceiling of log2(n) |
| `Combine.EveryBracketingIsTheOverlay` | cell/integrate.go:496-546 | however heads that agree are paired, no merge conflicts and the tree is the overlay |
| `Combine.OverlayUnites` | internal/gitx/plumbing.go:125-204 | overlaying heads that agree gives every head's changes and nothing else |
| `Equivalence.HeadsDisjoint` | cell/integrate.go:575-582 | when no path is touched from two groups, group heads change disjoint paths |
| `Integrate.HeadsUniteToSerial` | cell/integrate.go:575-582 | the group heads' changes together are the serial fold's tree |
| `Integrate.ReportsMatch` | cell/integrate.go:244-334 | grouping permutes the serial reports: same landed, same flagged with the same conflicts, same auto-merge count, which is the number of overlaps in the whole batch |
| `Integrate.GroupingIsSerial` | cell/integrate.go:17-20 | for any resolver and edges, in a compatible batch: the group heads combine without a conflict, that and their overlay are the serial fold's tree, and the reports are a permutation of its |
| `Integrate.FoldGroups` | cell/integrate.go:269-311 | every slot of the parallel phase holds its own group's fold |
| `Integrate.Gather` | cell/integrate.go:313-321 | the slots' reports are concatenated in group order, each head beside its own landed branches |
| `Integrate.GatherStep` | cell/integrate.go:313-321 | one more slot appends exactly its own landed and flagged branches, count and head |
| `Integrate.Land` | cell/integrate.go:205-210 | publishes by compare-and-swap, or does nothing when there is no ref or nothing to land |
| `Integrate.Repo.UpdateRefCAS` | internal/gitx/plumbing.go:451-477 | the ref moves iff it still held the old value, and no other ref does |
| `Integrate.IntegrateNaive` | cell/integrate.go:215-232 | the serial fold's tree and reports, with the auto-merge count as the number of overlaps, a fast-forward of base |
| `Integrate.IntegrateOCC` | cell/integrate.go:244-334 | for compatible batches: the serial fold's tree and reports; in general it fails with "partition invariant violated" exactly when the group heads do not combine, and what it lands is above base |
| `Integrate.IntegrateOverlay` | cell/integrate.go:583-691 | for compatible batches: the serial fold's tree and reports; in general when the assert fails and how, and what it lands is above base |
| `Integrate.RequireContainsBase` | cell/cell.go:302-322 | accepts iff every branch resolves and contains base, and otherwise names the first that does not and which of the two it fails |
| `Integrate.CellIntegrate` | cell/cell.go:268-277 | the strategy asked for computes the commit, which is above base and, in a compatible batch, the serial fold's result; a refused batch moves nothing and the first bad branch is named; otherwise the landing ref moves from base to exactly that commit, or nothing moves |
| `Git.AncestorAntisymmetric` | internal/gitx/gitx.go:303-318 | two commits that contain each other are one |
| `Git.DiffNameOnly` | internal/gitx/gitx.go:658-666 | the recorded names are the two-tree diff less the old names of whatever renames git pairs |
| `Git.RecordShowsAllIff` | cmd/sig/unland.go:455-458 | any judgement of the recorded names is that of the diff exactly when no rename was paired |
| `Git.RecordHidesFromIff` | cmd/sig/policy.go:57-62 | a path matcher is misled exactly when it matches an old name of a rename and no recorded name |
| `Coverage.ContainedRecord` | cell/cell.go:279-301 | a branch that contains base is recorded as its two-tree diff less the old names of its renames; the record covers the diff, and equals it, exactly when there are none |
| `Coverage.GuardGivesCoverage` | cell/cell.go:279-301 | what the guard admits is covered exactly when no branch renamed a file |
| `Coverage.GuardGivesSeparable` | cell/cell.go:279-301 | what the guard admits keeps its groups' paths apart exactly when no old name of a rename is recorded or renamed from another group |
| `Coverage.GuardGivesCompatible` | cell/cell.go:279-301 | what the guard admits meets the engine's hypothesis exactly when no branch of another group records an old name of a rename and still has it |
| `Coverage.GuardGivesEquivalence` | cell/integrate.go:17-20 | so on what the guard admits, that is exactly when the strategies agree under every content merge and resolver |
| `Equivalence.CompatibleIffStrategiesAgree` | cell/integrate.go:17-20 | naive, merge-tree and overlay give one tree and one report, with no combine error, under every content merge and resolver, exactly when branches of different groups leave alike every path they both change; merge-tree giving the naive tree is already enough |
| `Pilings.LeavingOutShows` | cell/integrate.go:383-437 | under an engine that marks every merge, a fold that leaves out a branch which changed a path otherwise than the first to change it reads otherwise there |
| `Equivalence.SeparableIffAlwaysDisjoint` | cell/integrate.go:496-498 | for records within the diff, group heads change disjoint paths under every content merge and resolver exactly when no path is touched from two groups |
| `Coverage.BatchRecordCovers` | internal/gitx/plumbing.go:286-363 | what the batched diff records always covers |
| `Coverage.RenamedSourceSplitsStrategies` | cell/integrate.go:17-20 | two branches that contain base, one renaming the file the other edits, on which the serial fold and the overlay differ |
| `Coverage.StaleBranchSplitsStrategies` | cell/cell.go:279-301 | a stale branch makes the serial fold and the overlay disagree |
| `Regroup.FoldConcat` | cell/integrate.go:383-437 | two batches set apart, folded in turn, each have the outcomes they have alone, and show wherever they landed a change |
| `Regroup.RegroupedDoesItsPart` | cmd/sig/policy.go:286-293 | folding only some groups, one after another, gives each its outcome from the whole batch, the whole batch's tree wherever one of them landed a change, and base elsewhere |
| `Verify.Worktree.constructor` | internal/gitx/gitx.go:488-493 | a fresh detached worktree reads as its commit |
| `Verify.Worktree.ResetHard` | internal/gitx/gitx.go:633-651 | tracked files read as HEAD again, untracked ones stay |
| `Verify.Worktree.Clean` | internal/gitx/gitx.go:615-632 | untracked files go, nested repositories stay |
| `Verify.Worktree.CheckoutDetach` | internal/gitx/gitx.go:602-614 | touches exactly the paths that differ between the commits |
| `Verify.Worktree.MoveTo` | cmd/sig/run.go:2326-2359 | reset, clean, checkout leaves the new commit's tree, whatever was left behind |
| `Verify.SawExactlyTheTree` | internal/gitx/gitx.go:615-632 | a run saw exactly its commit's tree iff no nested repository was left over |
| `Verify.HermeticRuns` | cmd/sig/run.go:3406-3412 | when the run before left no nested repository, a run saw exactly its commit's tree |
| `Verify.NestedRepositoryLeaks` | internal/gitx/gitx.go:615-632 | a run, a reset, a clean and a second run on one commit, where the second sees files the first had cloned |
| `Verify.GreenSawItsTree` | cmd/sig/run.go:2326-2359 | the run a green verdict rests on saw exactly the verified commit's tree, iff nothing nested was left |
| `Verify.RunVerify` | cmd/sig/run.go:3406-3473 | a green verdict is a green run of exactly this commit under the command, an earlier green run of its tree under that command since the cache was opened, or a pass on record before; a red one is a red run of it or a failed worktree step; an enabled cache is always consulted and gains exactly the passes of green runs; without impact scoping the command is the full one |
| `Verify.RunFiled` | cmd/sig/run.go:3469-3471 | a run adds its tree and command to an enabled cache if and only if it was green |
| `Verify.ProofIsARun` | cmd/sig/run.go:3429-3447 | so whatever a verdict proves rests on a green run of that tree under that command, of that very commit when uncached, or on a pass older than the cache |
| `Verify.RunVerifyRetry` | cmd/sig/run.go:2792-2822 | at most retries+1 calls, all of them when red; flaky means green on a retry; the count reported, the commands run and the failed steps are those of the calls; the verdict stands on the same evidence as one call's |
| `Verify.InvocationsAreCommandsIff` | cmd/sig/run.go:2792-2804 | the reported count is that of the commands run exactly when every call ran the command or the only one found a past pass, and never lower |
| `Verify.UnreadyCounts` | cmd/sig/run.go:2792-2822 | a retried verify that reports two invocations for one command run |
| `Verify.RepairRound` | cmd/sig/run.go:2300-2400 | the head moves only to what a returning fixer committed, and the next verify is of that commit; a refused, failed or empty repair ends the loop without a verify |
| `Verify.VerifyWithRepair` | cmd/sig/run.go:2260-2401 | OK means the returned head is the commit last verified green, by a run of this call or a pass on record; red that it failed with every round spent; the head moved only through repairs not refused, and none follows one that left nothing to verify; attempts are the repairs, invocations the sum over the rounds, both bounded |
| `Verify.RepairedHeadDescends` | cmd/sig/run.go:2841-2915 | repairs that commit on top keep the original head an ancestor |
| `Slices.Append` | cmd/sig/run.go:2622-2622 | append's contents, where it may write in place, and that it writes nowhere else |
| `GroupSearch.Split` | cmd/sig/run.go:2611-2623 | the search on values: probes extend the log by at most 2n-1 |
| `GroupSearch.SplitSorts` | cmd/sig/run.go:2603-2623 | the result is ascending and duplicate-free, every kept index was in a green block, every dropped one was a lone red |
| `GroupSearch.GoodGroupsSorts` | cmd/sig/run.go:2574-2601 | the same of the whole search |
| `GroupSearch.ProbeBound` | cmd/sig/run.go:2583-2601 | k probes up to six groups, at most 2k-2 above |
| `GroupSearch.FewBadGroups` | cmd/sig/run.go:2403-2408 | above six groups that do not interact, not all of them green, at most 2·b·ceil(log2 k) probes when b are red |
| `GroupSearch.LargestGreenSubset` | cmd/sig/run.go:777-782 | when groups do not interact the search keeps exactly the green groups |
| `GroupSearch.SplitReads` | cmd/sig/run.go:2611-2623 | a search depends only on the answers it probed |
| `Bisect.Prober.Eval` | cmd/sig/run.go:2480-2499 | one more probe, backed by a verify of exactly its candidate commit whenever that could be built; red without a verify only when it could not, or when the worktree failed |
| `Bisect.VerifyCandidate` | cmd/sig/run.go:2744-2762 | a green verdict is of exactly the candidate commit, and so is a red one unless a worktree step failed |
| `Bisect.SplitGood` | cmd/sig/run.go:2611-2623 | on slices sharing one array: the same result and probes as the search on values, and no write outside its own window |
| `Bisect.SearchBeside` | cmd/sig/run.go:2611-2623 | a search leaves alone what any slice beside its window, or in another array, shows |
| `Bisect.SearchHalves` | cmd/sig/run.go:2622-2622 | searching the left half leaves the right half intact, searching the right leaves the left result intact, so both are the searches on values |
| `Bisect.BisectGoodGroups` | cmd/sig/run.go:2583-2601 | the search over all groups, on the shared array, equals the search on values |
| `Bisect.ProbeEach` | cmd/sig/run.go:2642-2690 | in whatever order the probes finish, every slot holds the verdict of a verify of exactly its own group's candidate, or red because that could not be built or a worktree failed |
| `Bisect.CollectGreen` | cmd/sig/run.go:2700-2729 | the parallel scan keeps what the serial scan keeps |
| `Bisect.VerifyBisect` | cmd/sig/run.go:2450-2553 | it gets to its probes exactly when its worktrees can be added; then it lands the union of the kept groups exactly when that commit, the last thing verified, is green; every probe is backed by a verify of its own candidate |
| `Bisect.LandUnion` | cmd/sig/run.go:2516-2552 | the union is probed once more iff anything was kept, and lands iff that probe is green |
| `Bisect.LandedIsLargestGreen` | cmd/sig/run.go:777-782 | when groups do not interact, what lands is exactly the green groups, and nothing lands only when no group is green |
| `Bisect.ReportIsAPartition` | cmd/sig/run.go:2528-2552 | landed and dropped groups partition all groups, and a failed salvage drops them all |
| `Drive.SalvageIsTheKeptBatch` | cmd/sig/run.go:2731-2742 | in a compatible batch the salvaged tree is what the kept groups' branches fold to by themselves |
| `Drive.CandidateDescends` | cmd/sig/run.go:2731-2742 | a candidate descends from base and from every head it overlays |
| `Drive.Salvage` | cmd/sig/run.go:1955-1966 | it probes exactly when its worktrees can be added, and lands exactly when the last probe, of the kept union, is green: a commit that is proved, descends from base and overlays the kept groups' heads, in a compatible batch their own fold; without one the gate's failure stands |
| `Drive.IntegrateAndGate` | cmd/sig/run.go:1906-1998 | what reaches the landing passed the gate as exactly that commit, whole or as the kept groups; a red batch is bisected exactly when that was asked for, over two groups or more, and can be done, and then a subset reaches the landing exactly when its union is green; nothing has moved by then |
| `Drive.DriveRun` | cmd/sig/run.go:1906-2022 | for any batch, the base moves only from exactly the head the run computed on, to a descendant that passed its gate; a green whole lands unless the base moved; a red whole ends red exactly when it is not bisected or the kept union is not green, so when groups do not interact a bisected run ends red exactly when no group is green; a compatible batch lands the serial fold's tree |
| `ParkSafety.RunSafe` | cmd/sig/park.go:1068-1340 | in every run the record and every actor name only commits that passed their gate on the head they name |
| `ParkSafety.AckMovesOnlyVerified` | cmd/sig/park.go:1139-1171 | with no exclusion at all, an ack moves the base only from exactly the head its commit was verified on, to a descendant |
| `ParkSafety.BaseOnlyGrows` | cmd/sig/run.go:2189-2206 | every earlier base stays an ancestor of every later one |
| `ParkSafety.NothingLandedIsLost` | cmd/sig/park.go:636-660 | no landed commit ever leaves the base's history |
| `ParkOnce.RunOnce` | cmd/sig/park.go:664-701 | with claims removed only by a live owner or after its crash, decisions, record, status and claim stay consistent |
| `ParkOnce.ResolvedAtMostOnce` | cmd/sig/park.go:1432-1445 | landings and rejections together number at most one |
| `ParkOnce.TerminalForever` | cmd/sig/park.go:594-607 | a decision nobody is still taking back never changes |
| `ParkOnce.RejectedNeverLands` | cmd/sig/park.go:1493-1532 | rejected never lands |
| `ParkOnce.LandedStaysLanded` | cmd/sig/park.go:1139-1189 | landed is never rejected, nor landed again |
| `ParkOnce.CrashBeforeSwapNeverRelands` | cmd/sig/park.go:1139-1171 | a crash between the record write and the swap is never re-landed |
| `ParkOnce.AckedLandedSHAIsTrue` | cmd/sig/park.go:545-569 | a commit is reported as acked only if the base really moved to it |
| `ParkOnce.RefusalReopens` | cmd/sig/park.go:1394-1418 | in any exclusive run a refused ack's own steps leave the park unresolved, awaiting and unclaimed, nothing landed, its record still a valid landing |
| `ParkOnce.RefusedSwapIsAckable` | cmd/sig/park.go:1380-1418 | and ackable: one more green ack lands it on the base as it stands, and it is reported so |
| `ParkOnce.OpenParkIsAckable` | cmd/sig/park.go:1068-1189 | an open, unclaimed park lands under one more undisturbed, green ack; its recorded landing need be valid only when the base has not moved |
| `ParkOnce.OpenParkIsRejectable` | cmd/sig/park.go:1493-1532 | an open, unclaimed park is resolved as rejected, the base unmoved, by one undisturbed rejection, or by a sweep once its deadline has passed |
| `ParkOnce.RedReverifyStaysOpen` | cmd/sig/park.go:1196-1340 | an ack that finds the base moved and re-verifies red costs one attempt and leaves the park open and unclaimed |
| `ParkOnce.SettledTurnsAway` | cmd/sig/park.go:1432-1445 | a park marked done or rejected turns every later ack, rejection and sweep away, changing nothing |
| `ParkOnce.ClaimTurnsAway` | cmd/sig/park.go:664-701 | a claim held turns away everybody else who comes for it |
| `ParkOnce.EarlySweepLeavesAlone` | cmd/sig/park.go:1548-1586 | a sweep before the deadline leaves an open park as it was |
| `ParkOnce.StolenClaimLandsARejection` | cmd/sig/park.go:687-698 | a run in which a stolen claim lands a rejected park |
| `Unland.InvertAt` | cmd/sig/unland.go:434-440 | paths the run never changed are kept; ones it changed and nobody touched since read as before it |
| `Unland.InvertBlocksOnlyOnTouched` | cmd/sig/unland.go:420-445 | only a path the run changed and somebody changed again can block |
| `Unland.UnlandRestores` | cmd/sig/unland.go:526-530 | directly after landing it restores the pre-run tree |
| `Unland.SecondUnlandIsNoOpIff` | cmd/sig/unland.go:446-453 | the exact condition under which a second unland is the no-op case for every merge and resolver |
| `Unland.UnlandsCommute` | cmd/sig/unland.go:337-524 | unlands of runs with disjoint changes commute, blocked or not |
| `Unland.RunKeepsTwins` | cell/integrate.go:336-368 | a later run off the landed paths does and reports the same whether or not the run had landed |
| `Unland.UnlandIsAsIfNeverLanded` | cmd/sig/unland.go:434-453 | after later landings whose branches touch none of its paths, exactly the tree they would have produced had the run never landed |
| `Unland.PlanUnland` | cmd/sig/unland.go:167-218 | plans iff the run landed on a usable base branch, its base precedes its commit and that is still in the base's history |
| `Unland.IntegrateVerifyPark` | cmd/sig/park.go:917-980 | any flagged branch means no commit; otherwise a descendant of the target and of every branch holding the folded tree, its verdict under the full command standing on a run of exactly that commit, an earlier pass, or a worktree step that failed |
| `Unland.WholeOrFlagged` | cmd/sig/park.go:945-952 | with nothing flagged, every branch of the group landed, in order |
| `Unland.UnlandRun` | cmd/sig/unland.go:337-524 | the base moves only from exactly the head the inverse was folded onto, to a verified descendant holding the folded tree; each outcome's condition, a block being a conflict, a verify that failed on such a commit, or a base that moved; refused exactly when a precondition fails, and then nothing is created |
| `Unland.HeldPathComesBackUnacked` | cmd/sig/unland.go:455-458 | the unland of a run that renamed a held path away lands without an ack, unless somebody moves the base |
| `Plan.ParsePlan` | cmd/sig/plan.go:176-236 | accepts exactly the well-formed plans with pairwise disjoint files; otherwise reports the first thing wrong, task by task and id, prompt, files within one, the first unsafe file by name, and overlap last, with every shared path's claimants |
| `Plan.ClaimantsAre` | cmd/sig/plan.go:219-231 | a shared path's claimants are exactly the ids of the tasks that declare it |
| `Plan.ClaimantsCount` | cmd/sig/plan.go:219-231 | each of them once |
| `Plan.ClaimantsInOrder` | cmd/sig/plan.go:219-231 | and in task order |
| `Plan.RelSafeExactly` | cmd/sig/plan.go:288-302 | a path is refused exactly when, trimmed, it is empty, ".", absolute, or has a ".." between slashes or its edges |
| `Plan.NormalizedKeeps` | cmd/sig/plan.go:211-223 | what is stored keeps each task's id and prompt and its files, trimmed, in place |
| `Plan.DisjointClaimedOnce` | cmd/sig/plan.go:225-235 | disjoint file sets leave no path with two claimants |
| `Plan.ClaimFiles` | cmd/sig/plan.go:211-223 | every file is normalized, checked, and claimed once per task; the first unsafe one is reported |
| `Lanes.Agent.Enforce` | cmd/sig/run.go:3206-3234 | strict: an agent still OK wrote only declared files; what strayed is listed, in order |
| `Lanes.OutsideInOrder` | cmd/sig/run.go:3206-3234 | the stray files are listed one by one in the order they were changed |
| `Lanes.CandidatesAre` | cmd/sig/run.go:1884-1912 | what goes on to integrate is exactly the OK agents' branches with their files, in order |
| `Lanes.LanesMakeDisjoint` | cmd/sig/run.go:3197-3205 | a disjoint plan and strict lanes give pairwise disjoint write-sets |
| `Partition.DisjointGroupsAreSingletons` | cell/occ.go:46-113 | disjoint branches partition into singletons |
| `Lanes.DisjointBatchLands` | cell/integrate.go:383-437 | disjoint branches all land, none overlapped, every changed path as its branches left it and no other moved, for every resolver and for none |
| `Lanes.EnforceAll` | cmd/sig/run.go:3197-3234 | every agent is enforced against its own task |
| `Lanes.StrictKeepsLanes` | cmd/sig/run.go:3206-3234 | under strict enforcement against a plan's stored tasks an agent stays OK exactly when every file it changed is one its task declared |
| `Lanes.PlannedRunLandsEverything` | cmd/sig/run.go:1884-1912 | disjoint plan and kept lanes: nothing flagged, nothing auto-merged, every OK agent's exact changes landed |
| `Lanes.LandPlan` | cmd/sig/plan.go:166-236 | from the planner's output to the landing: the plan is accepted iff well formed and disjoint; under strict lanes, whatever the strategy and edges, exactly the agents that were OK and kept to their declared files have their changes land, and the ref moves to exactly that commit |
| `Holdback.PolicyHoldback` | cmd/sig/policy.go:294-343 | cleared and held are the branches of the groups without and with a trigger, in group order, each held group parked with its kind, reason and matched paths |
| `Holdback.JudgeGroup` | cmd/sig/policy.go:303-337 | the group's kind is policy edit if any trigger is one, its reason that of the first trigger, its matched paths those of all its triggers; a member without a trigger carries the group's reason |
| `Holdback.HoldbackSplits` | cmd/sig/policy.go:275-293 | cleared and held together are the batch, nothing lost and nothing twice |
| `Holdback.HeldIffComponentTriggers` | cmd/sig/policy.go:282-288 | held iff some branch of the overlap component triggers |
| `Holdback.HeldAndClearedShareNoPath` | cmd/sig/policy.go:286-293 | no path is shared between held and cleared |
| `Holdback.ClearedDoTheirPart` | cmd/sig/policy.go:290-293 | integrating the cleared branches alone gives them their outcomes from the full batch, and its tree wherever one of them landed a change |
| `Holdback.HoldSeesAllIff` | cmd/sig/policy.go:294-302 | a branch that contains base is judged as its diff would be, by every policy and by every path matcher, exactly when git paired no rename |
| `Holdback.RenamedHeldPathIsCleared` | cmd/sig/policy.go:294-302 | a branch that renames a held path away is cleared |
| `Battery.QuotedIsLiteral` | cmd/sig/policy.go:232-239 | whatever a member contains, its quoted form lexes as one literal piece of a word |
| `Battery.BatteryReadsBack` | cmd/sig/policy.go:205-230 | for all members, the composed command parses to exactly them, in order, each the argument of its own shell |
| `Battery.BatteryRunsItsMembers` | cmd/sig/policy.go:205-230 | in a conforming shell the battery behaves as its members run in turn: it succeeds iff each does |
| `Battery.NestedBatteryIsFlat` | cmd/sig/run.go:1086-1092 | a battery inside a battery runs as if its members were listed there |
| `Policy.ClampCeiling` | cmd/sig/policy.go:266-275 | the clamped limit allows exactly what both limits allow |
| `Policy.ResolvePolicy` | cmd/sig/policy.go:103-151 | fails iff a deliberate flag is below a floor or there are too many tasks, naming lanes before semantic analysis before assertions before the task count; otherwise every floor is met, every ceiling kept, impact scoping dropped under a policy battery |
| `Policy.GreenMeansEveryPolicyMember` | cmd/sig/policy.go:103-123 | a passing verify passed every policy member, then the invoker's command |
| `Policy.IntentInsidePolicy` | cmd/sig/run.go:1086-1092 | an intent's acceptance and the invoker's verify, whichever there are, run in that order as members after the policy's |
| `Policy.GreenMeansAccepted` | cmd/sig/run.go:1086-1092 | a passing composed verify passed the acceptance, then the invoker's own verify |
| `Schedule.DueIntent` | cmd/sig/intent.go:452-466 | picks something exactly when some scheduled intent was never fired, has a stamp more than an hour ahead, or was fired at least its schedule ago; the pick is the least recently fired of those, earliest listed on a tie |
| `Schedule.DueExactly` | cmd/sig/intent.go:409-439 | the same of each intent: scheduled, and never fired, or stamped more than 3,600,000,000,000 ns ahead, or at least its schedule back |
| `Schedule.AlonePickedIff` | cmd/sig/intent.go:432-439 | by itself an intent is picked exactly then |
| `Schedule.DueFiresInTime` | cmd/sig/intent.go:440-451 | a due intent with a believed stamp fires within as many ticks as there are scheduled intents |
| `Schedule.DueFiresInTimeIff` | cmd/sig/intent.go:403-422 | exactly when that promise holds for every strictly increasing clock |
| `Schedule.FiresAreSpaced` | cmd/sig/intent.go:424-439 | two fires of one intent are at least its schedule apart, so a missed stretch fires it once |
| `Schedule.FiresAgainInTime` | cmd/sig/intent.go:440-451 | conversely, from the first tick at least its schedule past its last fire it fires again within as many ticks as there are scheduled intents |
| `GoText.TrimShape` | cmd/sig/config.go:63-74 | trimming peels spaces off both edges and leaves none there |
| `GoText.SplitMembers` | cmd/sig/plan.go:296-300 | the pieces of a split are exactly the separator-free stretches between separators or edges |
| `FlatFile.ParseConfigFile` | cmd/sig/config.go:75-95 | the lines' entries in order with their numbers, or the first malformed line |
| `FlatFile.ParsesIff` | cmd/sig/config.go:63-95 | a text parses iff no line is malformed, and then to its lines' pairs in order |
| `FlatFile.LineReads` | cmd/sig/config.go:63-95 | a line is ignored exactly when blank or a comment, malformed without an equals sign or with nothing before its first one, and otherwise the trimmed pair around it |
| `FlatFile.FirstMalformed` | cmd/sig/config.go:75-95 | a malformed text fails on its first malformed line, with its number and what is wrong |
| `FlatFile.EntriesNumbered` | cmd/sig/config.go:75-95 | every entry is the pair of the line whose number it carries |
| `FlatFile.AssignmentReads` | cmd/sig/config.go:63-95 | a printed assignment reads back as its key and edge-trimmed value, whatever the value contains on its line |
| `PolicyDraft.ScrubControl` | cmd/sig/policyinit.go:357-378 | in place on a copy: exactly the control characters become question marks |
| `PolicyDraft.CommentLineIsComment` | cmd/sig/policyinit.go:314-338 | every line a comment becomes is one ignored line without control characters |
| `PolicyDraft.CommentKeepsText` | cmd/sig/policyinit.go:314-338 | taking the markers off a comment's lines gives back its text, when that has no control characters but newlines |
| `PolicyDraft.EmitComment` | cmd/sig/policyinit.go:328-338 | appends exactly the comment's lines |
| `PolicyDraft.Render` | cmd/sig/policyinit.go:252-289 | writes exactly the draft's lines |
| `PolicyDraft.RenderParsesBack` | cmd/sig/policyinit.go:248-289 | the file parses to exactly its live key/value lines, whatever its comments and notes contain |
| `IntentFile.ParseIntent` | cmd/sig/intent.go:182-275 | accepts exactly a usable id with well-formed entries, no scalar twice, and a goal; what it returns is what those entries say, every file a safe path |
| `IntentFile.AcceptedIff` | cmd/sig/intent.go:182-275 | the same of the entries alone, by induction over them |
| `IntentFile.AtoiOfDigits` | cmd/sig/intent.go:236-265 | a printed 64-bit number reads back |
| `IntentFile.AtoiReads` | cmd/sig/intent.go:236-265 | with a sign or leading zeros too, and refused outside 64 bits |
| `IntentFile.AtoiNeedsDigits` | cmd/sig/intent.go:236-265 | only digits after at most one sign make a number |
| `IntentFile.ValueConcat` | cmd/sig/intent.go:236-265 | digits weigh tens from the right |
| `IntentFile.PlainIssueReads` | cmd/sig/intent.go:257-265 | an issue is its number, space around it or not |
| `IntentFile.HashedIssueReads` | cmd/sig/intent.go:257-265 | or the same behind one number sign |
| `IntentFile.TwoHashesRefused` | cmd/sig/intent.go:257-265 | but not behind two |
| `IntentFile.PathsRead` | cmd/sig/main.go:376-384 | path lists read piece by piece, trimmed, in order, blanks dropped |
| `IntentFile.FirstBadEntry` | cmd/sig/intent.go:182-275 | a refused file is refused for its first entry that cannot stand after those before it |
| `IntentFile.RenderImportedIntent` | cmd/sig/intent.go:990-999 | writes exactly the issue's lines |
| `IntentFile.ImportRoundTrips` | cmd/sig/intent.go:982-999 | an issue with a one-line title parses back to its number and edge-trimmed lines, and is refused exactly when it has no text |
| `Impact.ImpactedPackages` | cmd/sig/impact.go:66-92 | exactly the packages from which a changed one is reachable, the least set holding the changed ones and closed under "imports a member" |
| `Impact.BuildReverse` | cmd/sig/impact.go:67-74 | the reverse graph has exactly the edges of the imports, test imports and external test imports of every package |

## Left out

- Git itself: merge, overlay, splice, commit, ref swap and ancestry are specifications; rename detection, file/directory clashes and line merging are not modelled, and conflicts are sets, not git's order.
- The porcelain strategy (cell/integrate.go:722 on): a working-tree merge.
- Git and file-system errors other than a refused swap, a failed worktree step, a gate or bisection worktree that cannot be added and an unbuildable candidate.
- Running agents, planners, resolvers, fixers and publish commands, environment scoping, timeouts, budgets, logs and temporary directories; their outcomes are arbitrary values.
- The glob matching behind hold and refusal decisions: any function of a branch's paths.
- The verify cache's storage: a set of past passes, read and filed without error. Which packages impact scoping selects for a verify: any.
- The park file's lock, keep-alive refs, garbage collection and the audit sample; the time a deadline is measured against is left open, so a sweep may expire a park or not.
- The stale-claim steal and the vestigial tidy-up are outside the at-most-once theorems; they are inside the safety theorems, which assume no exclusion.
- Blast radius and entanglement reporting of an unland, and replay's reproduced verdicts.
- Decoding: JSON plans, ledgers and package lists arrive decoded; durations are read by any function.
- Bytes: text is sequences of characters, so invalid UTF-8 is not modelled; a NUL in a verify member, which no argument can carry, is not excluded.
- The index: a file a verify staged is treated as untracked until the next reset and clean, which leave the same tree either way.
- Report rendering, events, notes, presets, the board and the command line.
- `Schedule.DueFiresInTimeIff`: assumes no more intents than an hour has nanoseconds, because the stranding clock must step once per tick inside the hour.
- `Battery.BatteryReadsBack`: is about two members or more; a single member is passed through verbatim and is not lexed.
- `PolicyDraft.RenderParsesBack`: assumes live keys the lexer can read and one-line live values, which is what the draft's sources are filtered to (cmd/sig/policyinit.go:340-365).
- `Bisect.ProbeEach`: interleaves whole probes on distinct worktrees, not their individual steps.
- `Verify.RunVerify`: takes the impact-scoped command as any command; an impact-scoped green is a pass of that command, not of the full one.
- `Drive.DriveRun`: starts after policy holdback, with the cleared branches, and ends at the landing; parking the held groups is the `Park` model's starting state.
