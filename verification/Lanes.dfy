/** From a disjoint plan to a conflict-free landing: strict lanes keep every OK
    agent inside the files its task declared. */
module Lanes {
  import opened Git
  import opened Seqs
  import opened Partition
  import opened Fold
  import opened Integrate
  import opened Plan

  datatype LaneMode = Off | Warn | Strict

  function Outside(files: seq<Path>, declared: seq<Path>): seq<Path> {
    if files == [] then []
    else
      var n := |files| - 1;
      Outside(files[..n], declared) + if files[n] in declared then [] else [files[n]]
  }

  lemma {:induction false} NothingOutside(files: seq<Path>, declared: seq<Path>)
    ensures Outside(files, declared) == [] <==> forall f <- files :: f in declared
    ensures forall f :: f in Outside(files, declared) <==> f in files && f !in declared
  {
    if files != [] {
      var n := |files| - 1;
      NothingOutside(files[..n], declared);
      assert files == files[..n] + [files[n]];
    }
  }

  /** They are listed file by file, in order. */
  lemma {:induction false} OutsideInOrder(a: seq<Path>, b: seq<Path>, f: Path, declared: seq<Path>)
    ensures Outside(a + b, declared) == Outside(a, declared) + Outside(b, declared)
    ensures Outside([f], declared) == if f in declared then [] else [f]
  {
    assert [f][..0] == [];
    if b == [] {
      assert a + b == a;
    } else {
      assert (a + b)[..|a + b| - 1] == a + b[..|b| - 1];
      OutsideInOrder(a, b[..|b| - 1], f, declared);
    }
  }

  class Agent {
    var branch: string
    var ok: bool
    var files: seq<Path>
    var declared: seq<Path>
    var actual: seq<Path>
    var inLane: bool
    var strayed: seq<Path>

    constructor (branch: string, ok: bool, files: seq<Path>)
      ensures this.branch == branch && this.ok == ok && this.files == files
    {
      this.branch, this.ok, this.files := branch, ok, files;
      declared, actual, inLane, strayed := [], [], true, [];
    }

    /** applyLaneEnforcement: a task that declared files binds an OK agent; in
        strict mode straying fails it. */
    method Enforce(t: Task, mode: LaneMode)
      modifies this
      ensures branch == old(branch) && files == old(files)
      ensures declared == t.files && actual == old(files)
      ensures var binds := old(ok) && mode != Off && t.files != [];
              var out := Outside(old(files), t.files);
              && (inLane <==> !(binds && out != []))
              && strayed == (if binds && out != [] then out else old(strayed))
              && ok == (old(ok) && !(binds && mode == Strict && out != []))
      ensures mode == Strict && t.files != [] && ok ==> forall f <- files :: f in t.files
    {
      declared, actual, inLane := t.files, files, true;
      NothingOutside(files, t.files);
      if !ok || mode == Off || |t.files| == 0 {
        return;
      }
      var out: seq<Path> := [];
      for i := 0 to |files|
        invariant out == Outside(files[..i], t.files)
      {
        assert files[..i + 1][..i] == files[..i];
        if files[i] !in t.files {
          out := out + [files[i]];
        }
      }
      assert files[..|files|] == files;
      if |out| > 0 {
        strayed, inLane := out, false;
        if mode == Strict {
          ok := false;
        }
      }
    }
  }

  // ---- what the run integrates ----

  /** An agent as it stands after enforcement. */
  datatype Finished = Finished(branch: string, ok: bool, files: set<Path>)

  /** Only OK agents are candidates, in order. */
  function Candidates(agents: seq<Finished>): seq<BranchChange> {
    if agents == [] then []
    else
      var a := agents[|agents| - 1];
      Candidates(agents[..|agents| - 1]) + if a.ok then [BranchChange(a.branch, a.files)] else []
  }

  /** Every agent's branch with the files it wrote. */
  function AsChanges(agents: seq<Finished>): seq<BranchChange> {
    seq(|agents|, i requires 0 <= i < |agents| => BranchChange(agents[i].branch, agents[i].files))
  }

  /** The candidates are those of the OK agents, all of them, in order. */
  lemma {:induction false} CandidatesAre(agents: seq<Finished>)
    ensures Candidates(agents) == Select(AsChanges(agents), set i: nat | i < |agents| && agents[i].ok)
  {
    if agents != [] {
      var n := |agents| - 1;
      var front := agents[..n];
      CandidatesAre(front);
      assert AsChanges(agents)[..n] == AsChanges(front);
      SelectSame(AsChanges(front), set i: nat | i < |agents| && agents[i].ok, set i: nat | i < n && front[i].ok);
    }
  }

  ghost predicate LanesKept(tasks: seq<Task>, agents: seq<Finished>) {
    && |agents| == |tasks|
    && forall i :: 0 <= i < |agents| && agents[i].ok ==> agents[i].files <= FileSet(tasks[i])
  }

  /** Enforcement against the stored, normalized task keeps the declared lane. */
  lemma EnforcedKeepsLane(t: Task, files: seq<Path>)
    requires forall f <- files :: f in Normalized(t).files
    ensures (set f | f in files) <= FileSet(t)
  {
    forall f | f in files
      ensures f in FileSet(t)
    {
      var k :| 0 <= k < |Normalized(t).files| && Normalized(t).files[k] == f;
      assert t.files[k] in t.files;
    }
  }

  /** Strict lanes over an accepted plan: actual write-sets are disjoint. */
  lemma {:induction false} LanesMakeDisjoint(tasks: seq<Task>, agents: seq<Finished>)
    requires FilesDisjoint(tasks) && LanesKept(tasks, agents)
    ensures PathDisjoint(Candidates(agents))
    ensures forall bc <- Candidates(agents) :: exists i :: 0 <= i < |agents| && agents[i].ok && agents[i].files == bc.writeSet
  {
    if agents != [] {
      var n := |agents| - 1;
      LanesMakeDisjoint(tasks[..n], agents[..n]);
      var front := Candidates(agents[..n]);
      if agents[n].ok {
        forall k | 0 <= k < |front|
          ensures front[k].writeSet !! agents[n].files
        {
          assert front[k] in front;
          var i :| 0 <= i < n && agents[..n][i].ok && agents[..n][i].files == front[k].writeSet;
          assert FileSet(tasks[i]) !! FileSet(tasks[n]);
        }
      }
      forall bc <- Candidates(agents)
        ensures exists i :: 0 <= i < |agents| && agents[i].ok && agents[i].files == bc.writeSet
      {
        if bc in front {
          var i :| 0 <= i < n && agents[..n][i].ok && agents[..n][i].files == bc.writeSet;
          assert agents[i].ok && agents[i].files == bc.writeSet;
        } else {
          assert agents[n].ok && agents[n].files == bc.writeSet;
        }
      }
    }
  }

  // ---- disjoint branches ----

  lemma OneApart(base: Commit, tips: Tips, changes: seq<BranchChange>, i: nat)
    requires Compatible(base, tips, changes, []) && PathDisjoint(changes) && i < |changes|
    ensures Apart(base.tree, tips, changes, {i})
  {
    hide Alike, Connected;
    forall j: nat | j < |changes| && j != i
      ensures Alike(base.tree, Theirs(tips, changes, i), Theirs(tips, changes, j))
      ensures changes[i].writeSet !! changes[j].writeSet
    {
      if Connected(changes, [], i, j) {
        ConnectedToSelfOnly(changes, i, j);
      }
    }
  }

  /** A disjoint branch lands, unoverlapped, with exactly its own content. */
  lemma DisjointBranchLands(e: Engine, base: Commit, tips: Tips, changes: seq<BranchChange>, i: nat)
    requires Compatible(base, tips, changes, []) && PathDisjoint(changes) && i < |changes|
    ensures Serial(e, base, tips, changes).outs[i] == Landed(changes[i].branch, false)
    ensures HoldsOwn(base, tips, changes, i, Serial(e, base, tips, changes).tree)
  {
    OneApart(base, tips, changes, i);
    hide Run, PathDisjoint, Apart, Alike, Compatible;
    assert changes[i] in changes;
    ApartAgrees(e, base, tips, changes, {i});
    SelectOne(changes, i);
    FirstLands(e, base, tips, [changes[i]]);
    SelectOne(Serial(e, base, tips, changes).outs, i);
    forall p | ChangesAt(base.tree, tips, changes, i, p)
      ensures At(Serial(e, base, tips, changes).tree, p) == At(Theirs(tips, changes, i), p)
    {
      assert [changes[i]][0] == changes[i] && ChangesAt(base.tree, tips, [changes[i]], 0, p);
    }
  }

  /** Disjoint branches all land: nothing is flagged, nothing overlaps, every
      path reads as the branches that changed it left it and no other path moves.
      This holds for every resolver, and for none, so none is ever needed. */
  lemma DisjointBatchLands(e: Engine, base: Commit, tips: Tips, changes: seq<BranchChange>)
    requires Compatible(base, tips, changes, []) && PathDisjoint(changes)
    ensures Serial(e, base, tips, changes).outs == seq(|changes|, i requires 0 <= i < |changes| => Landed(changes[i].branch, false))
    ensures LandsEach(base, tips, changes, Serial(e, base, tips, changes).tree)
  {
    assert Resolves(tips, changes);
    hide Run, PathDisjoint, Compatible, ChangesAt, HoldsOwn;
    forall i: nat | i < |changes|
      ensures Serial(e, base, tips, changes).outs[i] == Landed(changes[i].branch, false)
      ensures HoldsOwn(base, tips, changes, i, Serial(e, base, tips, changes).tree)
    {
      DisjointBranchLands(e, base, tips, changes, i);
    }
    forall p | forall i: nat :: i < |changes| ==> !ChangesAt(base.tree, tips, changes, i, p)
      ensures At(Serial(e, base, tips, changes).tree, p) == At(base.tree, p)
    {
      FoldStaysInDiffs(e, base.tree, base.tree, tips, changes, p);
    }
  }

  /** The tree reads as the branch does on everything the branch changed. */
  ghost predicate HoldsOwn(base: Commit, tips: Tips, changes: seq<BranchChange>, i: nat, t: Tree)
    requires Resolves(tips, changes) && i < |changes|
  {
    forall p :: ChangesAt(base.tree, tips, changes, i, p) ==> At(t, p) == At(Theirs(tips, changes, i), p)
  }

  /** The tree holds exactly each branch's own changes. */
  ghost predicate LandsEach(base: Commit, tips: Tips, changes: seq<BranchChange>, t: Tree)
    requires Resolves(tips, changes)
  {
    && (forall i: nat :: i < |changes| ==> HoldsOwn(base, tips, changes, i, t))
    && forall p :: (forall i: nat :: i < |changes| ==> !ChangesAt(base.tree, tips, changes, i, p)) ==> At(t, p) == At(base.tree, p)
  }

  lemma {:induction false} AllLandedReports(outs: seq<Outcome>)
    requires forall o <- outs :: o.Landed? && !o.overlapped
    ensures |LandedOf(outs)| == |outs| && (forall i :: 0 <= i < |outs| ==> LandedOf(outs)[i] == outs[i].branch)
    ensures FlaggedOf(outs) == [] && AutoMergedOf(outs) == 0
  {
    if outs != [] {
      var n := |outs| - 1;
      assert outs[n] in outs;
      AllLandedReports(outs[..n]);
    }
  }

  /** Disjoint plan, kept lanes: the integration flags nothing, auto-merges
      nothing and lands every OK agent's branch exactly as its agent left it. */
  lemma PlannedRunLandsEverything(e: Engine, base: Commit, tips: Tips, tasks: seq<Task>, agents: seq<Finished>, res: IntegrationResult)
    requires FilesDisjoint(tasks) && LanesKept(tasks, agents)
    requires Compatible(base, tips, Candidates(agents), [])
    requires Integrates(e, base, tips, Candidates(agents), res)
    ensures LandsPlan(base, tips, Candidates(agents), res)
  {
    hide Run, Candidates, LandsEach;
    var changes := Candidates(agents);
    LanesMakeDisjoint(tasks, agents);
    DisjointBatchLands(e, base, tips, changes);
    var s := Serial(e, base, tips, changes);
    AllLandedReports(s.outs);
    assert LandedOf(s.outs) == BranchNames(changes);
    assert |multiset(res.flagged)| == 0;
  }

  ghost predicate LandsPlan(base: Commit, tips: Tips, changes: seq<BranchChange>, res: IntegrationResult)
    requires Resolves(tips, changes)
  {
    && multiset(res.landed) == multiset(BranchNames(changes))
    && res.flagged == [] && res.autoMerged == 0
    && LandsEach(base, tips, changes, res.final.tree)
  }

  /** More edges only merge groups, so what was compatible stays so. */
  lemma CompatibleCoarser(base: Commit, tips: Tips, changes: seq<BranchChange>, edges: seq<Edge>)
    requires Compatible(base, tips, changes, [])
    ensures Compatible(base, tips, changes, edges)
  {
    hide Alike, Connected;
    forall i: nat, j: nat | i < |changes| && j < |changes| && !Connected(changes, edges, i, j)
      ensures Alike(base.tree, Theirs(tips, changes, i), Theirs(tips, changes, j))
    {
      if Connected(changes, [], i, j) {
        EdgesOnlyCoarsen(changes, edges, i, j);
      }
    }
  }

  // ---- from the planner's output to the landing ----

  /** An agent's outcome once its lane has been enforced. */
  function FinishedAs(branch: string, ok: bool, files: seq<Path>, t: Task, mode: LaneMode): Finished {
    Finished(branch, ok && !(mode == Strict && t.files != [] && Outside(files, t.files) != []), set f | f in files)
  }

  /** Every agent enforced against its own task. */
  method EnforceAll(tasks: seq<Task>, agents: seq<Agent>, mode: LaneMode) returns (finished: seq<Finished>)
    requires |agents| == |tasks| && forall i, j :: 0 <= i < j < |agents| ==> agents[i] != agents[j]
    modifies set a | a in agents
    ensures |finished| == |agents|
    ensures forall i :: 0 <= i < |agents| ==>
              finished[i] == FinishedAs(old(agents[i].branch), old(agents[i].ok), old(agents[i].files), tasks[i], mode)
  {
    hide Outside;
    finished := [];
    for i := 0 to |agents|
      invariant |finished| == i
      invariant forall k :: 0 <= k < i ==>
                  finished[k] == FinishedAs(old(agents[k].branch), old(agents[k].ok), old(agents[k].files), tasks[k], mode)
      invariant forall k :: i <= k < |agents| ==> unchanged(agents[k])
    {
      var a := agents[i];
      a.Enforce(tasks[i], mode);
      finished := finished + [Finished(a.branch, a.ok, set f | f in a.files)];
    }
  }

  /** An agent goes on with its branch and its files; it stays OK exactly when
      every one of them is a file its task declares. */
  ghost predicate StrictlyKept(t: Task, branch: string, ok: bool, files: seq<Path>, f: Finished) {
    && f.branch == branch && f.files == (set p | p in files)
    && (f.ok <==> ok && forall p <- files :: Declares(t, p))
  }

  /** Strict enforcement against the stored tasks of a plan keeps its lanes. */
  lemma StrictKeepsLanes(tasks: seq<Task>, stored: seq<Task>, finished: seq<Finished>, branches: seq<string>, oks: seq<bool>, files: seq<seq<Path>>)
    requires |stored| == |tasks| == |finished| == |branches| == |oks| == |files|
    requires forall t <- tasks :: TaskOk(t)
    requires forall i :: 0 <= i < |tasks| ==> stored[i] == Normalized(tasks[i])
    requires forall i :: 0 <= i < |tasks| ==> finished[i] == FinishedAs(branches[i], oks[i], files[i], stored[i], Strict)
    ensures LanesKept(tasks, finished)
    ensures forall i :: 0 <= i < |tasks| ==> StrictlyKept(tasks[i], branches[i], oks[i], files[i], finished[i])
  {
    hide Outside, FileSet, Declares;
    forall i | 0 <= i < |tasks|
      ensures StrictlyKept(tasks[i], branches[i], oks[i], files[i], finished[i])
    {
      assert tasks[i] in tasks;
      NothingOutside(files[i], stored[i].files);
      NormalizedKeeps(tasks[i]);
      hide Normalized;
      assert |stored[i].files| > 0;
    }
    forall i | 0 <= i < |finished| && finished[i].ok
      ensures finished[i].files <= FileSet(tasks[i])
    {
      assert tasks[i] in tasks;
      NothingOutside(files[i], stored[i].files);
      EnforcedKeepsLane(tasks[i], files[i]);
    }
  }

  /** From the planner's output to the landing, in strict mode: a rejected plan
      integrates nothing; under an accepted one, whatever the strategy and the
      semantic edges, every OK agent's branch lands exactly as its agent left it,
      nothing is flagged and nothing auto-merged. */
  method LandPlan(cfg: Config, strategy: Strategy, repo: Repo, base: Commit, tasks: seq<Task>, n: int, agents: seq<Agent>)
    returns (plan: Result<seq<Task>, PlanError>, r: Option<Result<IntegrationResult, IntegrateError>>, finished: seq<Finished>)
    requires |agents| == |tasks| && forall i, j :: 0 <= i < j < |agents| ==> agents[i] != agents[j]
    modifies repo, set a | a in agents
    ensures plan.Ok? <==> WellFormed(tasks, n) && FilesDisjoint(tasks)
    ensures r.Some? <==> plan.Ok?
    ensures plan.Err? || r.value.Err? ==> repo.refs == old(repo.refs)
    ensures plan.Ok? ==>
              && LanesKept(tasks, finished)
              && forall i :: 0 <= i < |agents| ==>
                   StrictlyKept(tasks[i], old(agents[i].branch), old(agents[i].ok), old(agents[i].files), finished[i])
    ensures plan.Ok? && r.value.Ok? ==>
              repo.refs == if cfg.landRef.None? || r.value.value.final == base then old(repo.refs)
                           else old(repo.refs)[cfg.landRef.value := r.value.value.final]
    ensures plan.Ok? && Compatible(base, old(repo.refs), Candidates(finished), []) ==>
              && (BaseContained(base, old(repo.refs), Candidates(finished)) ==> r.value.Ok? || r.value == Err(RefMoved))
              && (r.value.Ok? ==> LandsPlan(base, old(repo.refs), Candidates(finished), r.value.value))
  {
    hide WellFormed, FilesDisjoint, Candidates, LandsPlan, Compatible, Integrates, Outside, FileSet, SlotsFold, StrictlyKept, Tallies, Computes;
    finished, r := [], None;
    plan := ParsePlan(tasks, n);
    if plan.Err? {
      return;
    }
    ghost var branches := seq(|agents|, i requires 0 <= i < |agents| reads agents => agents[i].branch);
    ghost var oks := seq(|agents|, i requires 0 <= i < |agents| reads agents => agents[i].ok);
    ghost var files := seq(|agents|, i requires 0 <= i < |agents| reads agents => agents[i].files);
    finished := EnforceAll(plan.value, agents, Strict);
    AcceptedTasksOk(tasks, n);
    StrictKeepsLanes(tasks, plan.value, finished, branches, oks, files);
    ghost var tips := repo.refs;
    var changes := Candidates(finished);
    if Compatible(base, tips, changes, []) {
      CompatibleCoarser(base, tips, changes, cfg.edges);
    }
    var res, slots := CellIntegrate(cfg, repo, strategy, base, changes);
    if res.Ok? && Compatible(base, tips, changes, []) {
      PlannedRunLandsEverything(cfg.engine, base, tips, tasks, finished, res.value);
    }
    r := Some(res);
  }

  lemma AcceptedTasksOk(tasks: seq<Task>, n: int)
    requires WellFormed(tasks, n)
    ensures forall t <- tasks :: TaskOk(t)
  {
  }

  function BranchNames(changes: seq<BranchChange>): seq<string> {
    seq(|changes|, i requires 0 <= i < |changes| => changes[i].branch)
  }
}
