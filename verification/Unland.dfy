/** Inverting a landing: a commit carrying the run's pre-run tree, parented on
    what the run landed, is folded onto the base as it stands. */
module Unland {
  import opened Git
  import opened Seqs
  import opened Partition
  import opened Fold
  import opened Pilings
  import opened Integrate
  import opened Verify
  import Plan

  // ---- the inverse on trees ----

  /** Taking back the landing before -> after from a base now at `head`; None
      when a conflict is left for a human. */
  function Invert(e: Engine, before: Tree, after: Tree, head: Tree): Option<Tree> {
    Merge(e, after, head, before)
  }

  ghost predicate UnchangedSince(before: Tree, after: Tree, head: Tree, p: Path) {
    At(head, p) == At(after, p) || At(head, p) == At(before, p)
  }

  /** A path the run never changed is kept as it stands; one the run changed and
      nobody touched since reads as before the run. */
  lemma InvertAt(e: Engine, before: Tree, after: Tree, head: Tree, p: Path)
    requires Invert(e, before, after, head).Some?
    ensures At(before, p) == At(after, p) ==> At(Invert(e, before, after, head).value, p) == At(head, p)
    ensures At(before, p) != At(after, p) && UnchangedSince(before, after, head, p) ==>
              At(Invert(e, before, after, head).value, p) == At(before, p)
  {
    MergeReadsAt(e, after, head, before, p);
  }

  /** Only a path the run changed and somebody changed again can block. */
  lemma InvertBlocksOnlyOnTouched(e: Engine, before: Tree, after: Tree, head: Tree)
    requires forall p :: p in DiffPaths(before, after) ==> UnchangedSince(before, after, head, p)
    ensures Invert(e, before, after, head).Some?
  {
    forall p
      ensures p !in Conflicts(e, after, head, before)
    {
      MergeTreeAt(e, after, head, before, p);
      assert p !in DiffPaths(before, after) ==> At(before, p) == At(after, p);
    }
    assert Conflicts(e, after, head, before) == {};
    MergeDecides(e, after, head, before);
  }

  /** Directly after landing it restores the pre-run tree. */
  lemma UnlandRestores(e: Engine, before: Tree, after: Tree)
    ensures Invert(e, before, after, after) == Some(before)
  {
    FirstMergeIsTheirs(e, after, before);
    CleanMerge(e, after, after, before);
  }

  // ---- a second unland ----

  /** Repeating the unland changes nothing, whatever content merge and resolver
      are in use. */
  ghost predicate SecondIsNoOp(before: Tree, after: Tree, head: Tree) {
    forall e: Engine :: Invert(e, before, after, head).Some? ==>
      Invert(e, before, after, Invert(e, before, after, head).value) == Invert(e, before, after, head)
  }

  lemma PilingAt(before: Tree, after: Tree, head: Tree, p: Path)
    requires p in DiffPaths(before, after) && !UnchangedSince(before, after, head, p)
    ensures Invert(Piling("x"), before, after, head).Some?
    ensures ContentOf(At(Invert(Piling("x"), before, after, head).value, p)) ==
            ContentOf(At(after, p)) + ContentOf(At(head, p)) + ContentOf(At(before, p)) + "x"
  {
    hide Merge, DiffPaths;
    var e := Piling("x");
    MergeDecides(e, after, head, before);
    MergeReadsAt(e, after, head, before, p);
    DiffersAt(before, after, p);
    assert Answer(e, p, after, head, before) ==
           Some(ContentOf(At(after, p)) + ContentOf(At(head, p)) + ContentOf(At(before, p)) + "x");
  }

  lemma PilingMoves(before: Tree, after: Tree, head: Tree, p: Path)
    requires p in DiffPaths(before, after) && !UnchangedSince(before, after, head, p)
    ensures !SecondIsNoOp(before, after, head)
  {
    hide Merge, DiffPaths, Invert;
    var e := Piling("x");
    PilingAt(before, after, head, p);
    var t := Invert(e, before, after, head).value;
    var once := ContentOf(At(after, p)) + ContentOf(At(head, p)) + ContentOf(At(before, p)) + "x";
    assert |once| > |ContentOf(At(after, p))| && |once| > |ContentOf(At(before, p))|;
    assert !UnchangedSince(before, after, t, p);
    PilingAt(before, after, t, p);
    assert |ContentOf(At(Invert(e, before, after, t).value, p))| > |once|;
  }

  /** A second unland is the no-op case exactly when every path the run changed
      still read as the run left it, or as before the run, at the first one. */
  lemma SecondUnlandIsNoOpIff(before: Tree, after: Tree, head: Tree)
    ensures SecondIsNoOp(before, after, head) <==>
            forall p :: p in DiffPaths(before, after) ==> UnchangedSince(before, after, head, p)
  {
    hide Invert, DiffPaths, SecondIsNoOp;
    if forall p :: p in DiffPaths(before, after) ==> UnchangedSince(before, after, head, p) {
      assert SecondIsNoOp(before, after, head) by {
        forall e: Engine | Invert(e, before, after, head).Some?
          ensures Invert(e, before, after, Invert(e, before, after, head).value) == Invert(e, before, after, head)
        {
          UntouchedTwice(e, before, after, head);
        }
        DefineNoOp(before, after, head);
      }
    } else {
      var p :| p in DiffPaths(before, after) && !UnchangedSince(before, after, head, p);
      PilingMoves(before, after, head, p);
    }
  }

  lemma DefineNoOp(before: Tree, after: Tree, head: Tree)
    requires forall e: Engine :: Invert(e, before, after, head).Some? ==>
               Invert(e, before, after, Invert(e, before, after, head).value) == Invert(e, before, after, head)
    ensures SecondIsNoOp(before, after, head)
  {
  }

  lemma UntouchedTwice(e: Engine, before: Tree, after: Tree, head: Tree)
    requires Invert(e, before, after, head).Some?
    requires forall p :: p in DiffPaths(before, after) ==> UnchangedSince(before, after, head, p)
    ensures Invert(e, before, after, Invert(e, before, after, head).value) == Invert(e, before, after, head)
  {
    hide Invert, DiffPaths;
    var t := Invert(e, before, after, head).value;
    forall p | p in DiffPaths(before, after)
      ensures UnchangedSince(before, after, t, p)
    {
      DiffersAt(before, after, p);
      InvertAt(e, before, after, head, p);
    }
    InvertBlocksOnlyOnTouched(e, before, after, t);
    var u := Invert(e, before, after, t).value;
    forall p: Path
      ensures At(u, p) == At(t, p)
    {
      DiffersAt(before, after, p);
      InvertAt(e, before, after, head, p);
      InvertAt(e, before, after, t, p);
    }
    TreeExtensionality(u, t);
  }

  // ---- two disjoint runs ----

  function AndThen(first: Option<Tree>, next: Tree -> Option<Tree>): Option<Tree> {
    if first.None? then None else next(first.value)
  }

  /** Unlands of runs that changed disjoint paths commute, whatever the base has
      become since, blocked or not. */
  lemma UnlandsCommute(e: Engine, before1: Tree, after1: Tree, before2: Tree, after2: Tree, head: Tree)
    requires DiffPaths(before1, after1) !! DiffPaths(before2, after2)
    ensures AndThen(Invert(e, before1, after1, head), t => Invert(e, before2, after2, t)) ==
            AndThen(Invert(e, before2, after2, head), t => Invert(e, before1, after1, t))
  {
    hide Merge, DiffPaths;
    OtherDoesNotMatter(e, before1, after1, before2, after2, head);
    OtherDoesNotMatter(e, before2, after2, before1, after1, head);
    var one, two := Invert(e, before1, after1, head), Invert(e, before2, after2, head);
    if one.Some? && two.Some? {
      var onetwo, twoone := Invert(e, before2, after2, one.value).value, Invert(e, before1, after1, two.value).value;
      forall p: Path
        ensures At(onetwo, p) == At(twoone, p)
      {
        DiffersAt(before1, after1, p);
        DiffersAt(before2, after2, p);
        InvertAt(e, before1, after1, head, p);
        InvertAt(e, before2, after2, head, p);
        InvertAt(e, before1, after1, two.value, p);
        InvertAt(e, before2, after2, one.value, p);
      }
      TreeExtensionality(onetwo, twoone);
    }
  }

  lemma DiffSymmetric(s: Tree, t: Tree)
    ensures DiffPaths(s, t) == DiffPaths(t, s)
  {
  }

  /** Run 2's unland reads the same on a base where disjoint run 1 was unlanded. */
  lemma OtherDoesNotMatter(e: Engine, before1: Tree, after1: Tree, before2: Tree, after2: Tree, head: Tree)
    requires DiffPaths(before1, after1) !! DiffPaths(before2, after2)
    ensures Invert(e, before1, after1, head).Some? ==>
              var t := Invert(e, before1, after1, head).value;
              && (Invert(e, before2, after2, t).Some? <==> Invert(e, before2, after2, head).Some?)
              && (Invert(e, before2, after2, t).Some? ==>
                    Agree(Invert(e, before2, after2, t).value, Invert(e, before2, after2, head).value, DiffPaths(before2, after2)))
  {
    hide Merge, DiffPaths;
    if Invert(e, before1, after1, head).Some? {
      var t, w := Invert(e, before1, after1, head).value, DiffPaths(before2, after2);
      forall p | p in w
        ensures At(t, p) == At(head, p)
      {
        DiffersAt(before1, after1, p);
        InvertAt(e, before1, after1, head, p);
      }
      DiffSymmetric(before2, after2);
      MergeIsLocal(e, after2, t, before2, after2, head, before2, w);
    }
  }

  // ---- runs landed since ----

  /** A run that landed later: its branches, as they stood. */
  datatype LaterRun = LaterRun(changes: seq<BranchChange>, tips: Tips)

  /** The base after landing each run in turn, each forked off the base it found. */
  function AfterRuns(e: Engine, start: Tree, runs: seq<LaterRun>): Tree
    requires forall r <- runs :: Resolves(r.tips, r.changes)
  {
    if runs == [] then start
    else
      var n := |runs| - 1;
      assert runs[n] in runs;
      var base := AfterRuns(e, start, runs[..n]);
      Run(e, base, base, runs[n].tips, runs[n].changes).tree
  }

  /** The same branches, forked off another base: each makes its own change there. */
  function Replanted(base: Tree, base': Tree, tips: Tips): (tips': Tips)
    ensures forall b :: b in tips' <==> b in tips
  {
    map b | b in tips :: tips[b].(tree := ApplyDiff(base', base, tips[b].tree))
  }

  /** The same history from another start: every run's branches make the same
      changes to the base they would have found. */
  function Instead(e: Engine, start: Tree, start': Tree, runs: seq<LaterRun>): Tree
    requires forall r <- runs :: Resolves(r.tips, r.changes)
  {
    if runs == [] then start'
    else
      var n := |runs| - 1;
      assert runs[n] in runs;
      var base, base' := AfterRuns(e, start, runs[..n]), Instead(e, start, start', runs[..n]);
      var tips' := Replanted(base, base', runs[n].tips);
      assert Resolves(runs[n].tips, runs[n].changes);
      assert forall b :: b in runs[n].tips ==> b in tips';
      Run(e, base', base', tips', runs[n].changes).tree
  }

  /** Everything the branches can touch. */
  ghost function AllFeet(base: Tree, tips: Tips, changes: seq<BranchChange>): set<Path>
    requires Resolves(tips, changes)
  {
    set i: nat, p | i < |changes| && p in FootAt(base, tips, changes, i) :: p
  }

  lemma FootInFeet(base: Tree, tips: Tips, changes: seq<BranchChange>, i: nat)
    requires Resolves(tips, changes) && i < |changes|
    ensures FootAt(base, tips, changes, i) <= AllFeet(base, tips, changes)
  {
  }

  lemma EveryChangeInside(base: Tree, tips: Tips, changes: seq<BranchChange>)
    requires Resolves(tips, changes)
    ensures Isolated(base, tips, changes, Range(|changes|), AllFeet(base, tips, changes))
    ensures Select(changes, Range(|changes|)) == changes
  {
    hide FootAt, AllFeet;
    SelectExtremes(changes, Range(|changes|));
    forall i: nat | i < |changes|
      ensures FootAt(base, tips, changes, i) <= AllFeet(base, tips, changes)
    {
      FootInFeet(base, tips, changes, i);
    }
  }

  /** Nothing a later run's branches touch lies in w. */
  ghost predicate StayOut(e: Engine, start: Tree, runs: seq<LaterRun>, w: set<Path>)
    requires forall r <- runs :: Resolves(r.tips, r.changes)
  {
    forall k :: 0 <= k < |runs| ==> StaysOut(e, start, runs, w, k)
  }

  ghost predicate StaysOut(e: Engine, start: Tree, runs: seq<LaterRun>, w: set<Path>, k: nat)
    requires k < |runs| && forall r <- runs :: Resolves(r.tips, r.changes)
  {
    assert runs[k] in runs;
    AllFeet(AfterRuns(e, start, runs[..k]), runs[k].tips, runs[k].changes) !! w
  }

  /** Two bases alike except on w, where one reads as `after`, the other as `before`. */
  ghost predicate Twins(t: Tree, t': Tree, before: Tree, after: Tree, w: set<Path>) {
    forall p: Path :: TwinAt(t, t', before, after, w, p)
  }

  ghost predicate TwinAt(t: Tree, t': Tree, before: Tree, after: Tree, w: set<Path>, p: Path) {
    if p in w then At(t, p) == At(after, p) && At(t', p) == At(before, p) else At(t, p) == At(t', p)
  }

  lemma ReplantedAgree(base: Tree, base': Tree, tip: Tree, w: set<Path>)
    requires DiffPaths(base, tip) <= w && Agree(base, base', w)
    ensures Agree(tip, ApplyDiff(base', base, tip), w)
    ensures DiffPaths(base', ApplyDiff(base', base, tip)) <= DiffPaths(base, tip)
  {
    forall p: Path
      ensures p in w ==> At(tip, p) == At(ApplyDiff(base', base, tip), p)
      ensures p in DiffPaths(base', ApplyDiff(base', base, tip)) ==> p in DiffPaths(base, tip)
    {
      ApplyDiffAt(base', base, tip, p);
      DiffersAt(base', ApplyDiff(base', base, tip), p);
      DiffersAt(base, tip, p);
    }
  }

  /** A replanted branch touches no more than it did. */
  lemma ReplantedInside(base: Tree, base': Tree, r: LaterRun, own: set<Path>)
    requires Resolves(r.tips, r.changes) && own == AllFeet(base, r.tips, r.changes) && Agree(base, base', own)
    ensures Resolves(Replanted(base, base', r.tips), r.changes)
    ensures Isolated(base, r.tips, r.changes, Range(|r.changes|), own)
    ensures Isolated(base', Replanted(base, base', r.tips), r.changes, Range(|r.changes|), own)
    ensures TipsAgree(r.tips, Replanted(base, base', r.tips), r.changes, Range(|r.changes|), own)
  {
    hide DiffPaths, ApplyDiff, AllFeet;
    var tips' := Replanted(base, base', r.tips);
    assert Resolves(tips', r.changes);
    EveryChangeInside(base, r.tips, r.changes);
    forall i: nat | i < |r.changes|
      ensures FootAt(base', tips', r.changes, i) <= own
      ensures Agree(r.tips[r.changes[i].branch].tree, tips'[r.changes[i].branch].tree, own)
    {
      assert r.changes[i] in r.changes && i in Range(|r.changes|);
      assert FootAt(base, r.tips, r.changes, i) <= own;
      ReplantedAgree(base, base', r.tips[r.changes[i].branch].tree, own);
    }
  }

  /** One run keeps twins twins, and is reported alike in both worlds. */
  lemma RunKeepsTwins(e: Engine, base: Tree, base': Tree, before: Tree, after: Tree, w: set<Path>, r: LaterRun)
    requires Resolves(r.tips, r.changes)
    requires Twins(base, base', before, after, w)
    requires AllFeet(base, r.tips, r.changes) !! w
    ensures Resolves(Replanted(base, base', r.tips), r.changes)
    ensures var s, s' := Run(e, base, base, r.tips, r.changes), Run(e, base', base', Replanted(base, base', r.tips), r.changes);
            Twins(s.tree, s'.tree, before, after, w) && s.outs == s'.outs
  {
    hide Run, Select, ApplyDiff, DiffPaths, AllFeet, Isolated, Twins;
    var tips' := Replanted(base, base', r.tips);
    var at, own := Range(|r.changes|), AllFeet(base, r.tips, r.changes);
    TwinsAgreeOff(base, base', before, after, w, own);
    ReplantedInside(base, base', r, own);
    SelectExtremes(r.changes, at);
    FoldIsLocal(e, base, base, r.tips, base', base', tips', r.changes, at, own);
    FoldIsLocal(e, base', base', tips', base, base, r.tips, r.changes, at, own);
    var s, s' := Run(e, base, base, r.tips, r.changes), Run(e, base', base', tips', r.changes);
    SelectExtremes(s'.outs, at);
    StillTwins(base, base', s.tree, s'.tree, before, after, w, own);
  }

  lemma TwinsAgreeOff(base: Tree, base': Tree, before: Tree, after: Tree, w: set<Path>, own: set<Path>)
    requires Twins(base, base', before, after, w) && own !! w
    ensures Agree(base, base', own)
  {
    assert forall p <- own :: TwinAt(base, base', before, after, w, p);
  }

  /** Trees that moved alike, and only off w, stay twins. */
  lemma StillTwins(base: Tree, base': Tree, t: Tree, t': Tree, before: Tree, after: Tree, w: set<Path>, own: set<Path>)
    requires Twins(base, base', before, after, w) && own !! w && Agree(t, t', own)
    requires forall p :: p !in own ==> At(t, p) == At(base, p) && At(t', p) == At(base', p)
    ensures Twins(t, t', before, after, w)
  {
    forall p: Path
      ensures TwinAt(t, t', before, after, w, p)
    {
      assert TwinAt(base, base', before, after, w, p);
    }
  }

  lemma {:induction false} RunsKeepTwins(e: Engine, before: Tree, after: Tree, w: set<Path>, runs: seq<LaterRun>)
    requires forall r <- runs :: Resolves(r.tips, r.changes)
    requires StayOut(e, after, runs, w) && w == DiffPaths(before, after)
    ensures Twins(AfterRuns(e, after, runs), Instead(e, after, before, runs), before, after, w)
  {
    hide Run, Twins, AllFeet, ApplyDiff, DiffPaths;
    if runs == [] {
      assert Twins(after, before, before, after, w) by {
        TwinsAtFirst(before, after);
      }
    } else {
      var n := |runs| - 1;
      var front := runs[..n];
      forall k | 0 <= k < |front|
        ensures StaysOut(e, after, front, w, k)
      {
        assert StaysOut(e, after, runs, w, k) && runs[..k] == front[..k];
      }
      RunsKeepTwins(e, before, after, w, front);
      assert StaysOut(e, after, runs, w, n);
      RunKeepsTwins(e, AfterRuns(e, after, front), Instead(e, after, before, front), before, after, w, runs[n]);
    }
  }

  lemma TwinsAtFirst(before: Tree, after: Tree)
    ensures Twins(after, before, before, after, DiffPaths(before, after))
  {
    forall p: Path
      ensures TwinAt(after, before, before, after, DiffPaths(before, after), p)
    {
      DiffersAt(before, after, p);
    }
  }

  /** Unlanding a run after later landings that stayed off its paths yields
      exactly the tree those landings would have produced had it never landed. */
  lemma UnlandIsAsIfNeverLanded(e: Engine, before: Tree, after: Tree, runs: seq<LaterRun>)
    requires forall r <- runs :: Resolves(r.tips, r.changes)
    requires StayOut(e, after, runs, DiffPaths(before, after))
    ensures Invert(e, before, after, AfterRuns(e, after, runs)) == Some(Instead(e, after, before, runs))
  {
    hide Invert, DiffPaths, AfterRuns, Instead;
    var head, other, w := AfterRuns(e, after, runs), Instead(e, after, before, runs), DiffPaths(before, after);
    RunsKeepTwins(e, before, after, w, runs);
    assert forall p: Path :: TwinAt(head, other, before, after, w, p);
    forall p | p in w
      ensures UnchangedSince(before, after, head, p)
    {
      assert TwinAt(head, other, before, after, w, p);
    }
    InvertBlocksOnlyOnTouched(e, before, after, head);
    var t := Invert(e, before, after, head).value;
    forall p: Path
      ensures At(t, p) == At(other, p)
    {
      DiffersAt(before, after, p);
      assert TwinAt(head, other, before, after, w, p);
      InvertAt(e, before, after, head, p);
    }
    TreeExtensionality(t, other);
  }

  // ---- the operation ----

  /** What the ledger recorded of a run. */
  datatype RunRecord = RunRecord(base: string, baseCommit: Commit, finalCommit: Commit, landed: bool)

  datatype Target = Target(baseCommit: Commit, finalCommit: Commit, head: Commit, writeSet: set<Path>)

  datatype UnlandParams = UnlandParams(hasVerify: bool, verify: Params, message: string)

  datatype UnlandOutcome =
    | Refused
    | Blocked
    | NoOp
    | AwaitingAck(verified: Commit)
    | Unlanded(commit: Commit)

  /** A recorded base an unland may move: a plain branch name, not a full ref. */
  predicate UsableBase(base: string) {
    Plan.UsableBranchName(base) && !("refs/" <= base)
  }

  /** The preconditions: nothing has been created when one of them fails. The
      write-set is the landing's recorded diff, old names of renames left out. */
  method PlanUnland(repo: Repo, rec: RunRecord) returns (plan: Option<Target>, ghost renames: map<Path, Path>)
    ensures plan.Some? <==> rec.landed && UsableBase(rec.base) && rec.base in repo.refs
                            && IsAncestor(rec.baseCommit, rec.finalCommit) && IsAncestor(rec.finalCommit, repo.refs[rec.base])
    ensures plan.Some? ==> RenamePairs(rec.baseCommit.tree, rec.finalCommit.tree, renames)
    ensures plan.Some? ==> plan.value == Target(rec.baseCommit, rec.finalCommit, repo.refs[rec.base],
                                              NamesChanged(rec.baseCommit.tree, rec.finalCommit.tree, renames))
  {
    hide Plan.UsableBranchName, RenamePairs;
    renames := map[];
    if !rec.landed || !UsableBase(rec.base) || rec.base !in repo.refs {
      return None, renames;
    }
    var head := repo.refs[rec.base];
    var describes := ContainsBase(rec.baseCommit, rec.finalCommit);
    if !describes {
      return None, renames;
    }
    var present := ContainsBase(rec.finalCommit, head);
    if !present {
      return None, renames;
    }
    var names: set<Path>;
    names, renames := DiffNameOnly(rec.baseCommit.tree, rec.finalCommit.tree);
    return Some(Target(rec.baseCommit, rec.finalCommit, head, names)), renames;
  }

  function InverseOf(plan: Target, message: string): Commit {
    Commit(plan.baseCommit.tree, [plan.finalCommit], message)
  }

  /** The commit with the pre-run tree on top of what the run landed. */
  method BuildInverse(repo: Repo, branch: string, plan: Target, message: string)
    modifies repo
    ensures repo.refs == old(repo.refs)[branch := InverseOf(plan, message)]
  {
    repo.refs := repo.refs[branch := InverseOf(plan, message)];
  }

  /** The branches' own changes since they forked. */
  function ChangesSince(fork: Commit, tips: Tips, branches: seq<string>): (changes: seq<BranchChange>)
    requires forall b <- branches :: b in tips
    ensures |changes| == |branches| && Resolves(tips, changes)
  {
    seq(|branches|, k requires 0 <= k < |branches| =>
      assert branches[k] in branches; BranchChange(branches[k], DiffPaths(fork.tree, tips[branches[k]].tree)))
  }

  /** The verify behind the evidence ran in one of these worktrees, and a step
      blamed for it failed there. */
  ghost predicate Watched(evidence: Evidence, wts: seq<Worktree>)
    reads wts
  {
    wts != [] && (evidence.faulted ==> AnyFault(wts)) && exists wt <- wts :: evidence.runs == wt.runs
  }

  /** integrateVerifyPark: fold branches onto a base they did not fork from, then
      verify the result. A group lands whole or not at all: when any branch is
      flagged there is no commit. */
  method IntegrateVerifyPark(e: Engine, tips: Tips, fork: Commit, onto: Commit, branches: seq<string>, p: UnlandParams, passes: Passes)
    returns (final: Option<Commit>, v: Option<Verdict>, flagged: seq<BranchResult>, ghost evidence: Evidence, ghost wts: seq<Worktree>)
    requires forall b <- branches :: b in tips
    ensures var s := Run(e, fork.tree, onto.tree, tips, ChangesSince(fork, tips, branches));
            && flagged == FlaggedOf(s.outs)
            && (final.None? <==> flagged != [])
            && (final.Some? ==> final.value.tree == s.tree)
    ensures final.Some? ==> IsAncestor(onto, final.value) && forall b <- branches :: IsAncestor(tips[b], final.value)
    ensures v.Some? <==> final.Some? && p.hasVerify
    ensures v.Some? ==> v.value == evidence.verdict && Supported(evidence, final.value) && v.value.command == Full
    ensures v.Some? && v.value.cached ==> p.verify.useCache
    ensures v.Some? && !v.value.ok ==> v.value.invocations == Max0(p.verify.verifyRetries) + 1
    ensures evidence.entry == passes && fresh(set wt | wt in wts)
    ensures if v.Some? then wts != [] && Watched(evidence, wts) else wts == []
  {
    wts := [];
    hide Run, LandedOf, FlaggedOf, DiffPaths, Worktree.Valid, PassCache.Valid;
    evidence := Evidence(Verdict(false, false, false, Full, 0), [], passes, [], true);
    var changes := ChangesSince(fork, tips, branches);
    WholeOrFlagged(e, fork.tree, onto.tree, tips, changes);
    var head, landed, auto;
    head, landed, flagged, auto := FoldBranches(e, tips, fork, onto, changes, "sigbound: onto");
    if flagged != [] {
      return None, None, flagged, evidence, wts;
    }
    if landed == [] {
      NothingLandedYet(e, fork.tree, onto.tree, tips, changes);
    } else {
      FoldHeadReaches(onto, tips, Run(e, fork.tree, onto.tree, tips, changes).tree, landed, "sigbound: onto");
    }
    forall b | b in branches
      ensures b in landed
    {
      var k :| 0 <= k < |branches| && branches[k] == b;
      assert landed[k] == changes[k].branch;
    }
    if !p.hasVerify {
      return Some(head), None, flagged, evidence, wts;
    }
    var wt := new Worktree(head);
    var cache := new PassCache(p.verify.useCache, passes);
    var verdict, _ := RunVerifyRetry(wt, p.verify.(hasImpact := false), cache);
    evidence, wts := Evidence(verdict, wt.runs, passes, cache.ran, wt.faults > 0), [wt];
    assert wt in wts && Watched(evidence, wts);
    return Some(head), Some(verdict), flagged, evidence, wts;
  }

  /** With nothing flagged, every branch landed, in order. */
  lemma {:induction false} WholeOrFlagged(e: Engine, base: Tree, acc: Tree, tips: Tips, changes: seq<BranchChange>)
    requires Resolves(tips, changes)
    ensures FlaggedOf(Run(e, base, acc, tips, changes).outs) == [] ==>
              var landed := LandedOf(Run(e, base, acc, tips, changes).outs);
              |landed| == |changes| && forall k :: 0 <= k < |changes| ==> landed[k] == changes[k].branch
  {
    hide Merge, Conflicts, Run, LandedOf, FlaggedOf;
    if changes == [] {
      EmptyReports(e, base, acc, tips);
    } else {
      var n := |changes| - 1;
      assert changes[..n + 1] == changes;
      ReportsGrow(e, base, acc, tips, changes, n);
      WholeOrFlagged(e, base, acc, tips, changes[..n]);
    }
  }

  /** With a verify configured, exactly this commit passed it. */
  ghost predicate Verified(p: UnlandParams, c: Commit, evidence: Evidence) {
    p.hasVerify ==> Proves(evidence, c)
  }

  /** A commit with this tree above the head failed its verify. */
  ghost predicate Rejected(p: UnlandParams, head: Commit, tree: Tree, evidence: Evidence) {
    p.hasVerify && !evidence.verdict.ok && exists c: Commit :: c.tree == tree && IsAncestor(head, c) && Supported(evidence, c)
  }

  /** A fold of one branch: it lands, or it is the one flagged. */
  lemma OneBranchFold(e: Engine, base: Tree, acc: Tree, tips: Tips, changes: seq<BranchChange>)
    requires |changes| == 1 && Resolves(tips, changes)
    ensures changes[0].branch in tips
    ensures var s, m := Run(e, base, acc, tips, changes), Merge(e, base, acc, tips[changes[0].branch].tree);
            && (m.None? ==> LandedOf(s.outs) == [] && FlaggedOf(s.outs) != [])
            && (m.Some? ==> LandedOf(s.outs) == [changes[0].branch] && FlaggedOf(s.outs) == [] && s.tree == m.value)
  {
    hide Merge, Conflicts;
    EmptyReports(e, base, acc, tips);
    ReportsGrow(e, base, acc, tips, changes, 0);
    assert changes[..0] == [] && changes[..1] == changes;
  }

  /** unlandRun. The base moves only while it still holds the head the inverse
      was folded onto, and to a descendant of that head holding the folded tree,
      verified green when a verify is configured. A refusal creates nothing.
      `seen` is where the base stood when the run got to its swap. */
  method UnlandRun(e: Engine, repo: Repo, rec: RunRecord, branch: string, p: UnlandParams, passes: Passes, held: set<Path> -> bool)
    returns (out: UnlandOutcome, ghost seen: Option<Commit>, ghost evidence: Evidence, ghost wts: seq<Worktree>, ghost renames: map<Path, Path>)
    requires branch != rec.base
    modifies repo
    ensures out.Refused? <==> !(rec.landed && UsableBase(rec.base) && rec.base in old(repo.refs)
                                && IsAncestor(rec.baseCommit, rec.finalCommit) && IsAncestor(rec.finalCommit, old(repo.refs)[rec.base]))
    ensures out.Refused? ==> repo.refs == old(repo.refs)
    ensures !out.Refused? ==>
              && UsableBase(rec.base) && rec.base in old(repo.refs) && seen.Some?
              && IsAncestor(rec.baseCommit, rec.finalCommit) && IsAncestor(rec.finalCommit, old(repo.refs)[rec.base])
    ensures !out.Refused? ==>
              repo.refs == old(repo.refs)[branch := Commit(rec.baseCommit.tree, [rec.finalCommit], p.message)]
                                         [rec.base := if out.Unlanded? then out.commit else seen.value]
    ensures !out.Refused? ==>
              var head := old(repo.refs)[rec.base];
              var t := Invert(e, rec.baseCommit.tree, rec.finalCommit.tree, head.tree);
              && (t.None? ==> out.Blocked?) && (out.Blocked? && t.Some? && seen.value == head ==> wts != [])
              && (out.NoOp? ==> t == Some(head.tree))
              && (out.Unlanded? ==> t == Some(out.commit.tree) && t != Some(head.tree) && seen.value == head
                                    && IsAncestor(head, out.commit) && Verified(p, out.commit, evidence))
              && (out.AwaitingAck? ==> t == Some(out.verified.tree) && t != Some(head.tree)
                                       && IsAncestor(head, out.verified) && Verified(p, out.verified, evidence))
              && evidence.entry == passes && (p.hasVerify && (out.Unlanded? || out.AwaitingAck?) ==> evidence.verdict.command == Full)
              && RenamePairs(rec.baseCommit.tree, rec.finalCommit.tree, renames)
              && (out.Unlanded? ==> !held(NamesChanged(rec.baseCommit.tree, rec.finalCommit.tree, renames)))
              && (out.AwaitingAck? ==> held(NamesChanged(rec.baseCommit.tree, rec.finalCommit.tree, renames)))
              && (out.Blocked? && t.Some? ==> Rejected(p, head, t.value, evidence) || (seen.value != head && t != Some(head.tree)))
    ensures fresh(set wt | wt in wts)
    ensures wts != [] ==> Watched(evidence, wts)
  {
    hide Merge, DiffPaths, Earned, Refuted, Watched, IsAncestor, RenamePairs, NamesChanged, UsableBase, Run, FlaggedOf;
    evidence, wts, seen := Evidence(Verdict(false, false, false, Full, 0), [], passes, [], true), [], None;
    var plan;
    plan, renames := PlanUnland(repo, rec);
    if plan.None? {
      return Refused, seen, evidence, wts, renames;
    }
    BuildInverse(repo, branch, plan.value, p.message);
    var head := plan.value.head;
    var final, verdict, flagged;
    final, verdict, flagged, evidence, wts := IntegrateVerifyPark(e, repo.refs, rec.finalCommit, head, [branch], p, passes);
    OneBranchFold(e, rec.finalCommit.tree, head.tree, repo.refs, ChangesSince(rec.finalCommit, repo.refs, [branch]));
    ForeignLandings(repo, rec.base);
    seen := Some(repo.refs[rec.base]);
    if final.None? || (verdict.Some? && !verdict.value.ok) {
      return Blocked, seen, evidence, wts, renames;
    }
    if final.value.tree == head.tree {
      return NoOp, seen, evidence, wts, renames;
    }
    if held(plan.value.writeSet) {
      return AwaitingAck(final.value), seen, evidence, wts, renames;
    }
    var moved := repo.UpdateRefCAS(rec.base, final.value, head);
    out := if moved then Unlanded(final.value) else Blocked;
  }

  // ---- what the hold does not see ----

  const HELD_BEFORE := Commit(map["f" := Entry(DEFAULT_MODE, "x")], [], "before")
  const HELD_AFTER := Commit(map["g" := Entry(DEFAULT_MODE, "x")], [HELD_BEFORE], "run")

  lemma RenameIsUnheld()
    ensures RenamePairs(HELD_BEFORE.tree, HELD_AFTER.tree, map["f" := "g"])
    ensures "f" in DiffPaths(HELD_BEFORE.tree, HELD_AFTER.tree)
    ensures "f" !in NamesChanged(HELD_BEFORE.tree, HELD_AFTER.tree, map["f" := "g"])
    ensures HELD_BEFORE.tree != HELD_AFTER.tree && IsAncestor(HELD_BEFORE, HELD_AFTER)
  {
    assert "f" != "g";
    assert IsAncestor(HELD_BEFORE, HELD_AFTER.parents[0]);
  }

  /** A run renamed the held path "f" away, and git paired the rename: unless
      somebody moves the base, its unland brings "f" back without an ack, although
      "f" is among what the inverse changes. */
  method HeldPathComesBackUnacked(e: Engine, repo: Repo, base: string, branch: string, verify: Params)
    returns (out: UnlandOutcome, ghost seen: Option<Commit>, ghost renames: map<Path, Path>)
    requires UsableBase(base) && branch != base && base in repo.refs && repo.refs[base] == HELD_AFTER
    modifies repo
    ensures "f" in DiffPaths(HELD_BEFORE.tree, HELD_AFTER.tree)
    ensures renames == map["f" := "g"] && seen == Some(HELD_AFTER) ==>
              out.Unlanded? && out.commit.tree == HELD_BEFORE.tree && base in repo.refs && repo.refs[base] == out.commit
  {
    hide Invert, DiffPaths, NamesChanged, RenamePairs, UsableBase, IsAncestor;
    RenameIsUnheld();
    UnlandRestores(e, HELD_BEFORE.tree, HELD_AFTER.tree);
    assert IsAncestor(HELD_AFTER, HELD_AFTER) by {
      ItsOwnAncestor(HELD_AFTER);
    }
    ghost var evidence;
    ghost var wts: seq<Worktree>;
    out, seen, evidence, wts, renames :=
      UnlandRun(e, repo, RunRecord(base, HELD_BEFORE, HELD_AFTER, true), branch, UnlandParams(false, verify, "unland"), {}, w => "f" in w);
  }

  lemma ItsOwnAncestor(c: Commit)
    ensures IsAncestor(c, c)
  {
  }
}
