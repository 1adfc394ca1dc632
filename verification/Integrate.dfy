/** The integration strategies: the naive serial fold, the OCC engine combining
    group heads by merges, and the OCC engine combining them by overlay. In
    a compatible batch all three land the same thing. */
module Integrate {
  import opened Git
  import opened Seqs
  import opened Partition
  import opened Fold
  import opened Combine

  // ---- what a batch integrates to ----

  /** The reference: every branch folded onto base, one after another. */
  function Serial(e: Engine, base: Commit, tips: Tips, changes: seq<BranchChange>): FoldState
    requires Resolves(tips, changes)
  {
    Run(e, base.tree, base.tree, tips, changes)
  }

  /** Each write-set covers its branch's base diff. */
  ghost predicate Covered(base: Commit, tips: Tips, changes: seq<BranchChange>) {
    Resolves(tips, changes) && AllCover(base.tree, tips, changes)
  }

  /** The engine's hypothesis: branches of different groups leave alike every
      path they both change. */
  ghost predicate Compatible(base: Commit, tips: Tips, changes: seq<BranchChange>, edges: seq<Edge>) {
    && Resolves(tips, changes)
    && forall i: nat, j: nat :: i < |changes| && j < |changes| && !Connected(changes, edges, i, j) ==>
         Alike(base.tree, Theirs(tips, changes, i), Theirs(tips, changes, j))
  }

  /** With write-sets that cover there is no such path, whatever the edges. */
  lemma CoveredCompatible(base: Commit, tips: Tips, changes: seq<BranchChange>, edges: seq<Edge>)
    requires Covered(base, tips, changes)
    ensures Compatible(base, tips, changes, edges)
  {
    hide DiffPaths, Connected;
    forall i: nat, j: nat | i < |changes| && j < |changes| && !Connected(changes, edges, i, j)
      ensures Alike(base.tree, Theirs(tips, changes, i), Theirs(tips, changes, j))
    {
      forall p | At(Theirs(tips, changes, i), p) != At(base.tree, p)
        ensures At(Theirs(tips, changes, j), p) == At(base.tree, p)
      {
        assert CoversDiff(base.tree, tips[changes[i].branch].tree, changes[i]);
        assert CoversDiff(base.tree, tips[changes[j].branch].tree, changes[j]);
        DiffersAt(base.tree, Theirs(tips, changes, i), p);
        DiffersAt(base.tree, Theirs(tips, changes, j), p);
        if p in changes[j].writeSet {
          assert SharePath(changes, i, j);
          LinkedConnected(changes, edges, i, j);
        }
      }
    }
  }

  ghost predicate BaseContained(base: Commit, tips: Tips, changes: seq<BranchChange>)
    requires Resolves(tips, changes)
  {
    forall bc <- changes :: IsAncestor(base, tips[bc.branch])
  }

  // ---- one group ----

  /** A group's head commit and its part of the report. */
  datatype GroupResult = GroupResult(head: Commit, landed: seq<string>, flagged: seq<BranchResult>, autoMerged: nat)

  /** The slot holds the group's own fold. */
  ghost predicate FoldsTo(e: Engine, base: Commit, tips: Tips, g: seq<BranchChange>, r: GroupResult)
    requires Resolves(tips, g)
  {
    var s := Serial(e, base, tips, g);
    && r.landed == LandedOf(s.outs) && r.flagged == FlaggedOf(s.outs) && r.autoMerged == AutoMergedOf(s.outs)
    && r.landed != []
    && r.head.tree == s.tree
    && (forall b <- r.landed :: b in tips && IsAncestor(tips[b], r.head))
    && (BaseContained(base, tips, g) ==> IsAncestor(base, r.head))
  }

  /** The first branch of a fold onto base always lands. */
  lemma {:induction false} FirstLands(e: Engine, base: Commit, tips: Tips, g: seq<BranchChange>)
    requires Resolves(tips, g) && g != []
    ensures var s := Serial(e, base, tips, g);
            LandedOf(s.outs) != []
    ensures |g| == 1 ==> Serial(e, base, tips, g) == FoldState(tips[g[0].branch].tree, g[0].writeSet, [Landed(g[0].branch, false)])
  {
    hide Merge, Conflicts, LandedOf;
    var n := |g| - 1;
    ReportsGrow(e, base.tree, base.tree, tips, g, n);
    assert g[..n + 1] == g;
    if n > 0 {
      FirstLands(e, base, tips, g[..n]);
    } else {
      EmptyReports(e, base.tree, base.tree, tips);
      assert g[..0] == [];
      var theirs := tips[g[0].branch].tree;
      FirstMergeIsTheirs(e, base.tree, theirs);
      CleanMerge(e, base.tree, base.tree, theirs);
      assert [] + [Landed(g[0].branch, false)] == [Landed(g[0].branch, false)];
      assert {} + g[0].writeSet == g[0].writeSet && g[0].writeSet * {} == {};
    }
  }

  lemma SingletonFolds(e: Engine, base: Commit, tips: Tips, g: seq<BranchChange>)
    requires Resolves(tips, g) && |g| == 1
    ensures g[0].branch in tips
    ensures FoldsTo(e, base, tips, g, GroupResult(tips[g[0].branch], [g[0].branch], [], 0))
  {
    hide Serial, Run;
    FirstLands(e, base, tips, g);
    assert g[0] in g;
    var o := Landed(g[0].branch, false);
    assert Serial(e, base, tips, g).outs == [] + [o];
    FlatMapSnoc(LandedIn, [], o);
    FlatMapSnoc(FlaggedIn, [], o);
    FlatMapSnoc(OverlappedIn, [], o);
  }

  lemma FoldHeadReaches(acc: Commit, tips: Tips, tree: Tree, landed: seq<string>, prefix: string)
    requires (forall b <- landed :: b in tips) && landed != []
    ensures IsAncestor(acc, HeadOf(acc, tips, tree, landed, prefix))
    ensures forall b <- landed :: IsAncestor(tips[b], HeadOf(acc, tips, tree, landed, prefix))
  {
    var head := HeadOf(acc, tips, tree, landed, prefix);
    assert head.parents[0] == acc;
    forall b <- landed
      ensures IsAncestor(tips[b], head)
    {
      var i :| 0 <= i < |landed| && landed[i] == b;
      assert head.parents[i + 1] == tips[b];
    }
  }

  /** The parallel phase: each group folded into its own slot, in any order. A
      singleton's tip already is its group head. */
  method FoldGroups(e: Engine, base: Commit, tips: Tips, groups: seq<seq<BranchChange>>, prefix: string)
    returns (slots: seq<GroupResult>)
    requires forall g <- groups :: g != [] && Resolves(tips, g)
    ensures |slots| == |groups|
    ensures forall k :: 0 <= k < |groups| ==> Resolves(tips, groups[k]) && FoldsTo(e, base, tips, groups[k], slots[k])
  {
    hide FoldsTo;
    slots := seq(|groups|, k => GroupResult(base, [], [], 0));
    var pending := Range(|groups|);
    while pending != {}
      invariant |slots| == |groups| && forall k <- pending :: k < |groups|
      invariant forall k :: 0 <= k < |groups| && k !in pending ==>
                  Resolves(tips, groups[k]) && FoldsTo(e, base, tips, groups[k], slots[k])
      decreases pending
    {
      var k :| k in pending;
      pending := pending - {k};
      var g := groups[k];
      assert g in groups;
      if |g| == 1 {
        SingletonFolds(e, base, tips, g);
        slots := slots[k := GroupResult(tips[g[0].branch], [g[0].branch], [], 0)];
      } else {
        var slot := FoldGroup(e, base, tips, g, prefix);
        slots := slots[k := slot];
      }
    }
  }

  method FoldGroup(e: Engine, base: Commit, tips: Tips, g: seq<BranchChange>, prefix: string) returns (slot: GroupResult)
    requires Resolves(tips, g) && g != []
    ensures FoldsTo(e, base, tips, g, slot)
  {
    hide Run, LandedOf, FlaggedOf, AutoMergedOf;
    var head, landed, flagged, auto := FoldBranches(e, tips, base, base, g, prefix);
    FirstLands(e, base, tips, g);
    FoldHeadReaches(base, tips, Serial(e, base, tips, g).tree, landed, prefix);
    slot := GroupResult(head, landed, flagged, auto);
  }

  // ---- the groups against the whole batch ----

  /** Every path recorded for the selected branches. */
  ghost function PathsAt(changes: seq<BranchChange>, at: set<nat>): set<Path> {
    set i: nat, p | i < |changes| && i in at && p in changes[i].writeSet :: p
  }

  lemma ClassApart(base: Commit, tips: Tips, changes: seq<BranchChange>, edges: seq<Edge>, k: nat)
    requires Compatible(base, tips, changes, edges) && k < |Classes(changes, edges)|
    ensures Apart(base.tree, tips, changes, Classes(changes, edges)[k])
  {
    hide Alike, Classes, Connected;
    var at := Classes(changes, edges)[k];
    forall i: nat, j: nat | i < |changes| && j < |changes| && i in at && j !in at
      ensures changes[i].writeSet !! changes[j].writeSet && Alike(base.tree, Theirs(tips, changes, i), Theirs(tips, changes, j))
    {
      ClassesApart(changes, edges, k, i, j);
      ClassesPathDisjoint(changes, edges, k, i, j);
    }
  }

  ghost predicate GroupAgrees(e: Engine, base: Commit, tips: Tips, changes: seq<BranchChange>, at: set<nat>)
    requires Resolves(tips, changes)
  {
    && Resolves(tips, Select(changes, at))
    && SharedIn(base.tree, tips, changes, at, Serial(e, base, tips, Select(changes, at)), Serial(e, base, tips, changes))
  }

  /** The fold of branches set apart from the others agrees with the serial fold
      of the whole batch. */
  lemma ApartAgrees(e: Engine, base: Commit, tips: Tips, changes: seq<BranchChange>, at: set<nat>)
    requires Resolves(tips, changes) && Apart(base.tree, tips, changes, at)
    ensures GroupAgrees(e, base, tips, changes, at)
  {
    hide Run, SharedIn, Alike;
    var w := PathsAt(changes, at);
    forall i: nat | i < |changes|
      ensures if i in at then changes[i].writeSet <= w else changes[i].writeSet !! w
    {
    }
    FoldIsShared(e, base.tree, tips, changes, at, w);
  }

  /** Each group's own fold does. */
  lemma GroupsAgree(e: Engine, base: Commit, tips: Tips, changes: seq<BranchChange>, edges: seq<Edge>, k: nat)
    requires Compatible(base, tips, changes, edges) && k < |Classes(changes, edges)|
    ensures GroupAgrees(e, base, tips, changes, Classes(changes, edges)[k])
  {
    hide Run, GroupAgrees, Apart, Classes;
    ClassApart(base, tips, changes, edges, k);
    ApartAgrees(e, base, tips, changes, Classes(changes, edges)[k]);
  }

  /** The slots are the folds of the partition's groups. */
  ghost predicate SlotsFold(e: Engine, base: Commit, tips: Tips, changes: seq<BranchChange>, edges: seq<Edge>, slots: seq<GroupResult>) {
    && |slots| == |Classes(changes, edges)|
    && forall k :: 0 <= k < |slots| ==>
         && Resolves(tips, Select(changes, Classes(changes, edges)[k]))
         && FoldsTo(e, base, tips, Select(changes, Classes(changes, edges)[k]), slots[k])
  }

  function Heads(slots: seq<GroupResult>): seq<Commit> {
    seq(|slots|, k requires 0 <= k < |slots| => slots[k].head)
  }

  /** Where a group's head moved, the serial fold's tree reads as it does. */
  lemma HeadReads(e: Engine, base: Commit, tips: Tips, changes: seq<BranchChange>, edges: seq<Edge>, slots: seq<GroupResult>, k: nat, p: Path)
    requires Compatible(base, tips, changes, edges) && SlotsFold(e, base, tips, changes, edges, slots) && k < |slots|
    requires Changed(base.tree, slots[k].head, p)
    ensures At(Serial(e, base, tips, changes).tree, p) == At(slots[k].head.tree, p)
  {
    hide Run, Classes, Select, LandsOn, Compatible;
    var at := Classes(changes, edges)[k];
    var part := Serial(e, base, tips, Select(changes, at));
    GroupsAgree(e, base, tips, changes, edges, k);
    if !LandsOn(base.tree, tips, Select(changes, at), part.outs, p) {
      FoldStaysInDiffs(e, base.tree, base.tree, tips, Select(changes, at), p);
    }
  }

  /** Where the serial fold moved, some group's head did. */
  lemma SomeHeadMoved(e: Engine, base: Commit, tips: Tips, changes: seq<BranchChange>, edges: seq<Edge>, slots: seq<GroupResult>, p: Path)
    returns (k: nat)
    requires Compatible(base, tips, changes, edges) && SlotsFold(e, base, tips, changes, edges, slots)
    requires At(Serial(e, base, tips, changes).tree, p) != At(base.tree, p)
    ensures k < |slots| && Changed(base.tree, slots[k].head, p)
  {
    assert Resolves(tips, changes);
    hide Run, Classes, Select, Compatible;
    var full, cs := Serial(e, base, tips, changes), Classes(changes, edges);
    if !LandsOn(base.tree, tips, changes, full.outs, p) {
      FoldStaysInDiffs(e, base.tree, base.tree, tips, changes, p);
    }
    var i: nat :| i < |changes| && full.outs[i].Landed? && ChangesAt(base.tree, tips, changes, i, p);
    ClassesSplit(changes, edges);
    assert Covers(cs, i);
    k :| 0 <= k < |cs| && i in cs[k];
    GroupsAgree(e, base, tips, changes, edges, k);
    SelectLands(base.tree, tips, changes, cs[k], full.outs, i, p);
  }

  lemma SlotCount(e: Engine, base: Commit, tips: Tips, changes: seq<BranchChange>, edges: seq<Edge>, slots: seq<GroupResult>)
    requires SlotsFold(e, base, tips, changes, edges, slots)
    ensures |slots| == |Classes(changes, edges)|
  {
  }

  /** The group heads' changes together are the serial fold's tree. */
  lemma HeadsUniteToSerial(e: Engine, base: Commit, tips: Tips, changes: seq<BranchChange>, edges: seq<Edge>, slots: seq<GroupResult>)
    requires Compatible(base, tips, changes, edges) && SlotsFold(e, base, tips, changes, edges, slots)
    ensures Unites(base.tree, Heads(slots), Serial(e, base, tips, changes).tree)
  {
    assert Resolves(tips, changes);
    hide Classes, SlotsFold, Run, Compatible;
    var heads, t := Heads(slots), Serial(e, base, tips, changes).tree;
    forall k, p | 0 <= k < |heads| && Changed(base.tree, heads[k], p)
      ensures At(t, p) == At(heads[k].tree, p)
    {
      HeadReads(e, base, tips, changes, edges, slots, k, p);
    }
    forall p | At(t, p) != At(base.tree, p)
      ensures exists k :: 0 <= k < |heads| && Changed(base.tree, heads[k], p)
    {
      var k := SomeHeadMoved(e, base, tips, changes, edges, slots, p);
      assert heads[k] == slots[k].head;
    }
  }

  /** The three reports, concatenated over the slots. */
  function AllLanded(slots: seq<GroupResult>): seq<string> {
    Concat(seq(|slots|, k requires 0 <= k < |slots| => slots[k].landed))
  }

  function AllFlagged(slots: seq<GroupResult>): seq<BranchResult> {
    Concat(seq(|slots|, k requires 0 <= k < |slots| => slots[k].flagged))
  }

  function AllAuto(slots: seq<GroupResult>): nat {
    if slots == [] then 0 else AllAuto(slots[..|slots| - 1]) + slots[|slots| - 1].autoMerged
  }

  ghost predicate SameReport(s: FoldState, landed: seq<string>, flagged: seq<BranchResult>, autoMerged: nat) {
    && multiset(landed) == multiset(LandedOf(s.outs))
    && multiset(flagged) == multiset(FlaggedOf(s.outs))
    && autoMerged == AutoMergedOf(s.outs)
  }

  lemma {:induction false} AutoIsLength(slots: seq<GroupResult>, outs: seq<seq<Outcome>>)
    requires |slots| == |outs| && forall k :: 0 <= k < |slots| ==> slots[k].autoMerged == AutoMergedOf(outs[k])
    ensures AllAuto(slots) == AutoMergedOf(Concat(outs))
  {
    if slots != [] {
      var n := |slots| - 1;
      AutoIsLength(slots[..n], outs[..n]);
      FlatMapConcat(OverlappedIn, Concat(outs[..n]), outs[n]);
    }
  }

  /** Grouping permutes the serial reports: same branches landed, same branches
      flagged with the same conflict paths, same auto-merge count. */
  lemma ReportsMatch(e: Engine, base: Commit, tips: Tips, changes: seq<BranchChange>, edges: seq<Edge>, slots: seq<GroupResult>)
    requires Compatible(base, tips, changes, edges) && SlotsFold(e, base, tips, changes, edges, slots)
    ensures SameReport(Serial(e, base, tips, changes), AllLanded(slots), AllFlagged(slots), AllAuto(slots))
    ensures AllAuto(slots) == OverlapCount(changes, Serial(e, base, tips, changes).outs)
  {
    assert Resolves(tips, changes);
    hide Classes, Run, Select, AutoMergedOf, LandsOn, Compatible;
    var s, cs := Serial(e, base, tips, changes), Classes(changes, edges);
    var outs := SelectAll(s.outs, cs);
    forall k | 0 <= k < |slots|
      ensures slots[k].landed == FlatMap(LandedIn, outs[k])
      ensures slots[k].flagged == FlatMap(FlaggedIn, outs[k])
      ensures slots[k].autoMerged == AutoMergedOf(outs[k])
    {
      GroupsAgree(e, base, tips, changes, edges, k);
      assert Serial(e, base, tips, Select(changes, cs[k])).outs == outs[k];
    }
    assert seq(|slots|, k requires 0 <= k < |slots| => slots[k].landed) ==
           seq(|outs|, k requires 0 <= k < |outs| => FlatMap(LandedIn, outs[k]));
    assert seq(|slots|, k requires 0 <= k < |slots| => slots[k].flagged) ==
           seq(|outs|, k requires 0 <= k < |outs| => FlatMap(FlaggedIn, outs[k]));
    FlatMapOfConcat(LandedIn, outs);
    FlatMapOfConcat(FlaggedIn, outs);
    AutoIsLength(slots, outs);
    ClassesSplit(changes, edges);
    SplitPermutes(s.outs, cs);
    PermutedReports(s.outs, Concat(outs));
    AutoMergesAreOverlaps(e, base.tree, base.tree, tips, changes);
  }

  lemma PermutedReports(xs: seq<Outcome>, ys: seq<Outcome>)
    requires multiset(xs) == multiset(ys)
    ensures multiset(LandedOf(xs)) == multiset(LandedOf(ys))
    ensures multiset(FlaggedOf(xs)) == multiset(FlaggedOf(ys))
    ensures AutoMergedOf(xs) == AutoMergedOf(ys)
  {
    FlatMapPermutation(LandedIn, xs, ys);
    FlatMapPermutation(FlaggedIn, xs, ys);
    FlatMapPermutation(OverlappedIn, xs, ys);
    SameLength(FlatMap(OverlappedIn, xs), FlatMap(OverlappedIn, ys));
  }

  /** The engine's equivalence, for any semantic edges and resolver: the group
      heads combine without a conflict, that and their overlay on base are the
      serial fold's tree, and the groups' reports are a permutation of its. */
  lemma GroupingIsSerial(e: Engine, base: Commit, tips: Tips, changes: seq<BranchChange>, edges: seq<Edge>, slots: seq<GroupResult>)
    requires Compatible(base, tips, changes, edges) && SlotsFold(e, base, tips, changes, edges, slots)
    ensures Agreeing(base.tree, Heads(slots))
    ensures CombinesTo(e, base, Heads(slots), Serial(e, base, tips, changes).tree)
    ensures OverlayTrees(base.tree, Heads(slots)) == Serial(e, base, tips, changes).tree
    ensures SameReport(Serial(e, base, tips, changes), AllLanded(slots), AllFlagged(slots), AllAuto(slots))
    ensures AllAuto(slots) == OverlapCount(changes, Serial(e, base, tips, changes).outs)
  {
    assert Resolves(tips, changes);
    hide Run, Agreeing, Unites, OverlayTrees, SameReport, SlotsFold, Classes, Combined, Compatible;
    HeadsUniteToSerial(e, base, tips, changes, edges, slots);
    UnitedAgree(base.tree, Heads(slots), Serial(e, base, tips, changes).tree);
    CombinedIsOverlay(e, base, Heads(slots));
    OverlayUnites(base.tree, Heads(slots));
    UnitesUnique(base.tree, Heads(slots), OverlayTrees(base.tree, Heads(slots)), Serial(e, base, tips, changes).tree);
    ReportsMatch(e, base, tips, changes, edges, slots);
  }

  /** The merge reduction meets no conflict and ends in this tree. */
  ghost predicate CombinesTo(e: Engine, base: Commit, heads: seq<Commit>, t: Tree) {
    Combined(e, base, heads).Some? && Combined(e, base, heads).value.tree == t
  }

  // ---- landing ----

  datatype IntegrateError =
    | RefMoved
    | CombineFailed(error: CombineError)
    | AssertMismatch(overlayTree: Tree, mergeTree: Tree)
    | UnresolvedBranch(branch: string)
    | BaseNotContained(branch: string)

  /** The repository's refs, moved only by compare-and-swap. */
  class Repo {
    var refs: map<string, Commit>

    /** Moves ref from old to new only while it still holds old. */
    method UpdateRefCAS(ref: string, new_: Commit, old_: Commit) returns (moved: bool)
      modifies this
      ensures moved <==> ref in old(refs) && old(refs)[ref] == old_
      ensures refs == if moved then old(refs)[ref := new_] else old(refs)
    {
      moved := ref in refs && refs[ref] == old_;
      if moved {
        refs := refs[ref := new_];
      }
    }
  }

  /** Somebody else may move a branch while this process computes. */
  method ForeignLandings(repo: Repo, branch: string)
    requires branch in repo.refs
    modifies repo
    ensures branch in repo.refs && repo.refs == old(repo.refs)[branch := repo.refs[branch]]
  {
    var moved: bool, to: Commit := *, *;
    if moved {
      repo.refs := repo.refs[branch := to];
    }
  }

  /** Publishing `commit` on top of base: skipped with no ref or nothing to
      land, refused when the ref no longer holds base, a plain move otherwise. */
  ghost predicate Publishes(landRef: Option<string>, base: Commit, commit: Commit, before: map<string, Commit>,
                            after: map<string, Commit>, moved: bool) {
    if landRef.None? || commit == base then moved && after == before
    else
      && (moved <==> landRef.value in before && before[landRef.value] == base)
      && after == if moved then before[landRef.value := commit] else before
  }

  method Land(repo: Repo, landRef: Option<string>, base: Commit, commit: Commit) returns (ok: bool)
    modifies repo
    ensures Publishes(landRef, base, commit, old(repo.refs), repo.refs, ok)
  {
    if landRef.None? || commit == base {
      return true;
    }
    ok := repo.UpdateRefCAS(landRef.value, commit, base);
  }

  // ---- the strategies ----

  /** The integrator's knobs. */
  datatype Config = Config(engine: Engine, landRef: Option<string>, assertOverlay: bool, edges: seq<Edge>)

  datatype IntegrationResult = IntegrationResult(
    final: Commit, landed: seq<string>, flagged: seq<BranchResult>, autoMerged: nat,
    groups: nat, largestGroup: nat,
    groupHeads: seq<Commit>, groupBranches: seq<seq<string>>)

  /** What every strategy promises for a compatible batch: the serial fold's tree
      and report, a fast-forward of base, and group heads that overlay to it. */
  ghost predicate Integrates(e: Engine, base: Commit, tips: Tips, changes: seq<BranchChange>, res: IntegrationResult)
    requires Resolves(tips, changes)
  {
    && res.final.tree == Serial(e, base, tips, changes).tree
    && SameReport(Serial(e, base, tips, changes), res.landed, res.flagged, res.autoMerged)
    && res.autoMerged == OverlapCount(changes, Serial(e, base, tips, changes).outs)
    && (BaseContained(base, tips, changes) ==> IsAncestor(base, res.final))
    && (forall b <- res.landed :: b in tips && IsAncestor(tips[b], res.final))
  }

  method IntegrateNaive(cfg: Config, repo: Repo, base: Commit, tips: Tips, changes: seq<BranchChange>)
    returns (r: Result<IntegrationResult, IntegrateError>)
    requires Resolves(tips, changes)
    modifies repo
    ensures r.Ok? || r == Err(RefMoved)
    ensures r.Ok? ==> Integrates(cfg.engine, base, tips, changes, r.value)
    ensures r.Ok? ==> Publishes(cfg.landRef, base, r.value.final, old(repo.refs), repo.refs, true)
    ensures r.Ok? ==> r.value.groupHeads == [] && r.value.groups == 1 && r.value.largestGroup == |changes|
    ensures r == Err(RefMoved) ==> cfg.landRef.Some? && !(cfg.landRef.value in old(repo.refs) && old(repo.refs)[cfg.landRef.value] == base)
    ensures r.Err? ==> repo.refs == old(repo.refs)
  {
    hide Run, LandedOf, FlaggedOf, AutoMergedOf;
    var head, landed, flagged, auto := FoldBranches(cfg.engine, tips, base, base, changes, "sigbound: naive");
    if landed != [] {
      FoldHeadReaches(base, tips, Serial(cfg.engine, base, tips, changes).tree, landed, "sigbound: naive");
    } else {
      NothingLandedYet(cfg.engine, base.tree, base.tree, tips, changes);
    }
    var ok := Land(repo, cfg.landRef, base, head);
    if !ok {
      return Err(RefMoved);
    }
    r := Ok(IntegrationResult(head, landed, flagged, auto, 1, |changes|, [], []));
  }

  ghost predicate IsLargest(groups: seq<seq<BranchChange>>, n: nat) {
    && (forall k :: 0 <= k < |groups| ==> |groups[k]| <= n)
    && (n > 0 ==> exists k :: 0 <= k < |groups| && |groups[k]| == n)
  }

  method LargestOf(groups: seq<seq<BranchChange>>) returns (n: nat)
    ensures IsLargest(groups, n)
  {
    n := 0;
    for k := 0 to |groups|
      invariant forall j :: 0 <= j < k ==> |groups[j]| <= n
      invariant n > 0 ==> exists j :: 0 <= j < k && |groups[j]| == n
    {
      if |groups[k]| > n {
        n := |groups[k]|;
      }
    }
  }

  lemma GroupsNonempty(changes: seq<BranchChange>, edges: seq<Edge>, tips: Tips)
    requires Resolves(tips, changes)
    ensures forall g <- Groups(changes, edges) :: g != [] && Resolves(tips, g)
  {
    var cs := Classes(changes, edges);
    forall g <- Groups(changes, edges)
      ensures g != [] && Resolves(tips, g)
    {
      var k :| 0 <= k < |cs| && g == Select(changes, cs[k]);
      SelectResolves(tips, changes, cs[k]);
      ClassesBelowAscending(changes, edges, |changes|);
      var i :| i in cs[k];
      ClassesBelowShape(changes, edges, |changes|, cs[k]);
      SelectMembers(changes, cs[k], changes[i]);
    }
  }

  /** Partition the batch and fold every group. */
  method FoldPartition(cfg: Config, base: Commit, tips: Tips, changes: seq<BranchChange>, prefix: string)
    returns (slots: seq<GroupResult>, largest: nat)
    requires Resolves(tips, changes)
    ensures SlotsFold(cfg.engine, base, tips, changes, cfg.edges, slots)
    ensures |slots| == |Groups(changes, cfg.edges)| && IsLargest(Groups(changes, cfg.edges), largest)
  {
    hide FoldsTo, Classes, IsLargest;
    var groups := PartitionSemantic(changes, cfg.edges);
    GroupsNonempty(changes, cfg.edges, tips);
    largest := LargestOf(groups);
    slots := FoldGroups(cfg.engine, base, tips, groups, prefix);
    assert forall k :: 0 <= k < |groups| ==> groups[k] == Select(changes, Classes(changes, cfg.edges)[k]);
  }

  ghost predicate Gathers(slots: seq<GroupResult>, landed: seq<string>, flagged: seq<BranchResult>, autoMerged: nat, heads: seq<Commit>) {
    landed == AllLanded(slots) && flagged == AllFlagged(slots) && autoMerged == AllAuto(slots) && heads == Heads(slots)
  }

  lemma GatherStep(slots: seq<GroupResult>, k: nat)
    requires k < |slots|
    ensures AllLanded(slots[..k + 1]) == AllLanded(slots[..k]) + slots[k].landed
    ensures AllFlagged(slots[..k + 1]) == AllFlagged(slots[..k]) + slots[k].flagged
    ensures AllAuto(slots[..k + 1]) == AllAuto(slots[..k]) + slots[k].autoMerged
    ensures Heads(slots[..k + 1]) == Heads(slots[..k]) + [slots[k].head]
  {
    var xs, ys := slots[..k], slots[..k + 1];
    assert ys[..k] == xs;
    assert seq(|ys|, j requires 0 <= j < |ys| => ys[j].landed)[..k] == seq(|xs|, j requires 0 <= j < |xs| => xs[j].landed);
    assert seq(|ys|, j requires 0 <= j < |ys| => ys[j].flagged)[..k] == seq(|xs|, j requires 0 <= j < |xs| => xs[j].flagged);
  }

  function LandedLists(slots: seq<GroupResult>): (lists: seq<seq<string>>)
    ensures |lists| == |slots|
  {
    seq(|slots|, k requires 0 <= k < |slots| => slots[k].landed)
  }

  /** A report gathered from the groups: theirs one after another, each group's
      head beside its own landed branches, the number of groups and the size of
      the largest. */
  ghost predicate Tallies(changes: seq<BranchChange>, edges: seq<Edge>, slots: seq<GroupResult>, res: IntegrationResult) {
    && Gathers(slots, res.landed, res.flagged, res.autoMerged, res.groupHeads) && res.groupBranches == LandedLists(slots)
    && res.groups == |slots| == |Groups(changes, edges)| && IsLargest(Groups(changes, edges), res.largestGroup)
  }

  /** Merges the slots into one report, group order first. Only groups that
      landed something contribute a head; a fold onto base always does. */
  method Gather(slots: seq<GroupResult>)
    returns (landed: seq<string>, flagged: seq<BranchResult>, autoMerged: nat, heads: seq<Commit>, branches: seq<seq<string>>)
    requires forall s <- slots :: s.landed != []
    ensures Gathers(slots, landed, flagged, autoMerged, heads)
    ensures branches == LandedLists(slots)
  {
    hide AllLanded, AllFlagged;
    landed, flagged, autoMerged, heads, branches := [], [], 0, [], [];
    EmptyGather();
    for k := 0 to |slots|
      invariant Gathers(slots[..k], landed, flagged, autoMerged, heads)
      invariant branches == LandedLists(slots)[..k]
    {
      GatherStep(slots, k);
      assert slots[k] in slots;
      landed := landed + slots[k].landed;
      flagged := flagged + slots[k].flagged;
      autoMerged := autoMerged + slots[k].autoMerged;
      if |slots[k].landed| > 0 {
        heads := heads + [slots[k].head];
        branches := branches + [slots[k].landed];
      }
    }
    assert slots[..|slots|] == slots;
  }

  lemma EmptyGather()
    ensures AllLanded([]) == [] && AllFlagged([]) == [] && AllAuto([]) == 0
  {
  }

  lemma SlotsLanded(e: Engine, base: Commit, tips: Tips, changes: seq<BranchChange>, edges: seq<Edge>, slots: seq<GroupResult>)
    requires SlotsFold(e, base, tips, changes, edges, slots)
    ensures forall s <- slots :: s.landed != []
  {
    hide Serial, Classes;
  }

  /** A commit above every group head is above base and every landed tip. */
  lemma AboveHeads(e: Engine, base: Commit, tips: Tips, changes: seq<BranchChange>, edges: seq<Edge>, slots: seq<GroupResult>, final: Commit)
    requires Resolves(tips, changes) && SlotsFold(e, base, tips, changes, edges, slots)
    requires forall h <- Heads(slots) :: IsAncestor(h, final)
    ensures forall b <- AllLanded(slots) :: b in tips && IsAncestor(tips[b], final)
    ensures BaseContained(base, tips, changes) && slots != [] ==> IsAncestor(base, final)
  {
    hide Classes, Serial, Run;
    var landedLists := seq(|slots|, k requires 0 <= k < |slots| => slots[k].landed);
    forall b <- AllLanded(slots)
      ensures b in tips && IsAncestor(tips[b], final)
    {
      ConcatMembers(landedLists, b);
      var k :| 0 <= k < |landedLists| && b in landedLists[k];
      assert Heads(slots)[k] == slots[k].head && slots[k].head in Heads(slots);
      AncestorTransitive(tips[b], slots[k].head, final);
    }
    if BaseContained(base, tips, changes) && slots != [] {
      assert Heads(slots)[0] == slots[0].head && slots[0].head in Heads(slots);
      var g := Select(changes, Classes(changes, edges)[0]);
      forall bc <- g
        ensures IsAncestor(base, tips[bc.branch])
      {
        SelectMembers(changes, Classes(changes, edges)[0], bc);
      }
      AncestorTransitive(base, slots[0].head, final);
    }
  }

  method IntegrateOCC(cfg: Config, repo: Repo, base: Commit, tips: Tips, changes: seq<BranchChange>)
    returns (r: Result<IntegrationResult, IntegrateError>, ghost slots: seq<GroupResult>)
    requires Resolves(tips, changes)
    modifies repo
    ensures Compatible(base, tips, changes, cfg.edges) ==> r.Ok? || r == Err(RefMoved)
    ensures Compatible(base, tips, changes, cfg.edges) && r.Ok? ==> Integrates(cfg.engine, base, tips, changes, r.value)
    ensures Compatible(base, tips, changes, cfg.edges) && r.Ok? ==> OverlayTrees(base.tree, r.value.groupHeads) == r.value.final.tree
    ensures r.Ok? ==> Combined(cfg.engine, base, Heads(slots)) == Some(r.value.final)
    ensures r.Err? && r.error.CombineFailed? <==> Combined(cfg.engine, base, Heads(slots)).None?
    ensures r.Ok? && BaseContained(base, tips, changes) ==> IsAncestor(base, r.value.final)
    ensures SlotsFold(cfg.engine, base, tips, changes, cfg.edges, slots)
    ensures r.Ok? ==> Tallies(changes, cfg.edges, slots, r.value)
    ensures r.Ok? ==> Publishes(cfg.landRef, base, r.value.final, old(repo.refs), repo.refs, true)
    ensures r == Err(RefMoved) ==> cfg.landRef.Some? && !(cfg.landRef.value in old(repo.refs) && old(repo.refs)[cfg.landRef.value] == base)
    ensures r.Err? ==> repo.refs == old(repo.refs)
  {
    hide Serial, SlotsFold, OverlayTrees, AllLanded, AllFlagged, AllAuto, SameReport, Compatible, Agreeing, Combined, IsLargest, Groups;
    var folded, largest := FoldPartition(cfg, base, tips, changes, "sigbound: occ");
    slots := folded;
    SlotsLanded(cfg.engine, base, tips, changes, cfg.edges, slots);
    var landed, flagged, auto, heads, branches := Gather(folded);
    if Compatible(base, tips, changes, cfg.edges) {
      GroupingIsSerial(cfg.engine, base, tips, changes, cfg.edges, slots);
    }
    var combined, _ := CombineDisjoint(cfg.engine, base, heads);
    if combined.Err? {
      return Err(CombineFailed(combined.error)), slots;
    }
    var final := combined.value;
    AboveHeads(cfg.engine, base, tips, changes, cfg.edges, slots, final);
    var ok := Land(repo, cfg.landRef, base, final);
    if !ok {
      return Err(RefMoved), slots;
    }
    r := Ok(IntegrationResult(final, landed, flagged, auto, |folded|, largest, heads, branches));
  }

  /** The -assert comparison: nothing when the two trees agree. */
  function OverlayAssertErr(overlayTree: Tree, mergeTree: Tree): Option<IntegrateError> {
    if overlayTree == mergeTree then None else Some(AssertMismatch(overlayTree, mergeTree))
  }

  method IntegrateOverlay(cfg: Config, repo: Repo, base: Commit, tips: Tips, changes: seq<BranchChange>)
    returns (r: Result<IntegrationResult, IntegrateError>, ghost slots: seq<GroupResult>)
    requires Resolves(tips, changes)
    modifies repo
    ensures Compatible(base, tips, changes, cfg.edges) ==> r.Ok? || r == Err(RefMoved)
    ensures Compatible(base, tips, changes, cfg.edges) && r.Ok? ==> Integrates(cfg.engine, base, tips, changes, r.value)
    ensures r.Ok? ==>
              r.value.final == if changes == [] then base
                               else Commit(OverlayTrees(base.tree, Heads(slots)), [base] + Heads(slots), "sigbound: overlay combine")
    ensures r.Ok? ==> OverlayTrees(base.tree, r.value.groupHeads) == r.value.final.tree
    ensures r.Err? && r.error.CombineFailed? <==> cfg.assertOverlay && Combined(cfg.engine, base, Heads(slots)).None?
    ensures r.Err? && r.error.AssertMismatch? <==>
              cfg.assertOverlay && Combined(cfg.engine, base, Heads(slots)).Some?
              && Combined(cfg.engine, base, Heads(slots)).value.tree != OverlayTrees(base.tree, Heads(slots))
    ensures r.Ok? && BaseContained(base, tips, changes) ==> IsAncestor(base, r.value.final)
    ensures SlotsFold(cfg.engine, base, tips, changes, cfg.edges, slots)
    ensures r.Ok? ==> Tallies(changes, cfg.edges, slots, r.value)
    ensures r.Ok? ==> Publishes(cfg.landRef, base, r.value.final, old(repo.refs), repo.refs, true)
    ensures r == Err(RefMoved) ==> cfg.landRef.Some? && !(cfg.landRef.value in old(repo.refs) && old(repo.refs)[cfg.landRef.value] == base)
    ensures r.Err? ==> repo.refs == old(repo.refs)
  {
    hide Serial, SlotsFold, OverlayTrees, AllLanded, AllFlagged, AllAuto, SameReport, Compatible, Agreeing, Combined, IsLargest, Groups;
    if |changes| == 0 {
      EmptyBatch(cfg.engine, base, tips);
      EmptySlots(cfg.engine, base, tips, cfg.edges);
      EmptyGather();
      return Ok(IntegrationResult(base, [], [], 0, 0, 0, [], [])), [];
    }
    var folded, largest := FoldPartition(cfg, base, tips, changes, "sigbound: overlay");
    slots := folded;
    SlotsLanded(cfg.engine, base, tips, changes, cfg.edges, slots);
    var landed, flagged, auto, heads, branches := Gather(folded);
    if Compatible(base, tips, changes, cfg.edges) {
      GroupingIsSerial(cfg.engine, base, tips, changes, cfg.edges, slots);
    }
    var unionTree := OverlayTrees(base.tree, heads);
    if cfg.assertOverlay {
      var merged, _ := CombineDisjoint(cfg.engine, base, heads);
      if merged.Err? {
        return Err(CombineFailed(merged.error)), slots;
      }
      var mismatch := OverlayAssertErr(unionTree, merged.value.tree);
      if mismatch.Some? {
        return Err(mismatch.value), slots;
      }
    }
    var final := Commit(unionTree, [base] + heads, "sigbound: overlay combine");
    assert IsAncestor(base, final) by {
      assert final.parents[0] == base && IsAncestor(base, final.parents[0]);
    }
    forall h <- heads
      ensures IsAncestor(h, final)
    {
      var i :| 0 <= i < |heads| && heads[i] == h;
      assert final.parents[i + 1] == h;
    }
    AboveHeads(cfg.engine, base, tips, changes, cfg.edges, slots, final);
    var ok := Land(repo, cfg.landRef, base, final);
    if !ok {
      return Err(RefMoved), slots;
    }
    r := Ok(IntegrationResult(final, landed, flagged, auto, |folded|, largest, heads, branches));
  }

  lemma EmptySlots(e: Engine, base: Commit, tips: Tips, edges: seq<Edge>)
    ensures SlotsFold(e, base, tips, [], edges, []) && Heads([]) == [] && LandedLists([]) == []
    ensures Groups([], edges) == [] && IsLargest([], 0)
    ensures Combined(e, base, []) == Some(base)
  {
  }

  lemma EmptyBatch(e: Engine, base: Commit, tips: Tips)
    ensures Serial(e, base, tips, []) == FoldState(base.tree, {}, [])
    ensures SameReport(Serial(e, base, tips, []), [], [], 0)
    ensures OverlayTrees(base.tree, []) == base.tree
  {
  }

  // ---- the guarded entry point ----

  datatype Strategy = Naive | MergeTreeStrategy | Overlay

  /** The branch resolves and contains base. */
  ghost predicate Admits(base: Commit, refs: Tips, bc: BranchChange) {
    bc.branch in refs && IsAncestor(base, refs[bc.branch])
  }

  /** The refusal names the first branch that does not, and why. */
  ghost predicate Refuses(base: Commit, refs: Tips, changes: seq<BranchChange>, err: IntegrateError) {
    exists i: nat :: i < |changes| && (forall j: nat :: j < i ==> Admits(base, refs, changes[j])) && !Admits(base, refs, changes[i])
      && err == if changes[i].branch in refs then BaseNotContained(changes[i].branch) else UnresolvedBranch(changes[i].branch)
  }

  /** Every branch must resolve and contain base, or the whole batch is refused
      naming the first branch that does not. */
  method RequireContainsBase(base: Commit, refs: Tips, changes: seq<BranchChange>) returns (err: Option<IntegrateError>)
    ensures err.None? <==> Resolves(refs, changes) && BaseContained(base, refs, changes)
    ensures err.Some? ==> Refuses(base, refs, changes, err.value)
  {
    for i := 0 to |changes|
      invariant forall j: nat :: j < i ==> Admits(base, refs, changes[j])
    {
      var bc := changes[i];
      assert bc in changes;
      if bc.branch !in refs {
        return Some(UnresolvedBranch(bc.branch));
      }
      var contains := ContainsBase(base, refs[bc.branch]);
      if !contains {
        return Some(BaseNotContained(bc.branch));
      }
    }
    return None;
  }

  /** Ancestry by walking the parents. */
  method ContainsBase(base: Commit, head: Commit) returns (contains: bool)
    ensures contains <==> IsAncestor(base, head)
    decreases head
  {
    if head == base {
      return true;
    }
    for i := 0 to |head.parents|
      invariant forall j :: 0 <= j < i ==> !IsAncestor(base, head.parents[j])
    {
      contains := ContainsBase(base, head.parents[i]);
      if contains {
        return true;
      }
    }
    return false;
  }

  /** The commit a strategy computes from its batch: a tree equal to the serial
      fold's, the reduction of the group heads, or their overlay. */
  ghost predicate Computes(e: Engine, strategy: Strategy, base: Commit, tips: Tips, changes: seq<BranchChange>, slots: seq<GroupResult>, final: Commit)
    requires Resolves(tips, changes)
  {
    match strategy
    case Naive => final.tree == Serial(e, base, tips, changes).tree
    case MergeTreeStrategy => Combined(e, base, Heads(slots)) == Some(final)
    case Overlay =>
      final == if changes == [] then base
               else Commit(OverlayTrees(base.tree, Heads(slots)), [base] + Heads(slots), "sigbound: overlay combine")
  }

  /** Cell.Integrate: refuse a batch with a stale branch before anything runs;
      otherwise the strategy's commit, which is above base, and in a compatible
      batch the serial fold's result. Only the grouping strategies report groups. */
  method CellIntegrate(cfg: Config, repo: Repo, strategy: Strategy, base: Commit, changes: seq<BranchChange>)
    returns (r: Result<IntegrationResult, IntegrateError>, ghost slots: seq<GroupResult>)
    modifies repo
    ensures r == Err(RefMoved) ==> cfg.landRef.Some? && !(cfg.landRef.value in old(repo.refs) && old(repo.refs)[cfg.landRef.value] == base)
    ensures r.Err? ==> repo.refs == old(repo.refs)
    ensures r.Ok? ==> Resolves(old(repo.refs), changes) && BaseContained(base, old(repo.refs), changes)
    ensures !(Resolves(old(repo.refs), changes) && BaseContained(base, old(repo.refs), changes)) ==>
              r.Err? && Refuses(base, old(repo.refs), changes, r.error)
    ensures Compatible(base, old(repo.refs), changes, cfg.edges) && BaseContained(base, old(repo.refs), changes) ==> r.Ok? || r == Err(RefMoved)
    ensures r.Ok? && (Compatible(base, old(repo.refs), changes, cfg.edges) || strategy.Naive?) ==>
              Integrates(cfg.engine, base, old(repo.refs), changes, r.value)
    ensures r.Ok? ==> IsAncestor(base, r.value.final) && Computes(cfg.engine, strategy, base, old(repo.refs), changes, slots, r.value.final)
    ensures r.Ok? && strategy.Naive? ==> slots == [] && r.value.groupHeads == []
    ensures r.Ok? && !strategy.Naive? ==>
              SlotsFold(cfg.engine, base, old(repo.refs), changes, cfg.edges, slots) && Tallies(changes, cfg.edges, slots, r.value)
    ensures r.Ok? && (cfg.landRef.None? || r.value.final == base) ==> repo.refs == old(repo.refs)
    ensures r.Ok? && cfg.landRef.Some? && r.value.final != base ==>
              var ref := cfg.landRef.value;
              ref in old(repo.refs) && old(repo.refs)[ref] == base && repo.refs == old(repo.refs)[ref := r.value.final]
  {
    hide Serial, SameReport;
    hide SlotsFold, Tallies, Combined, OverlayTrees, Refuses;
    slots := [];
    var tips := repo.refs;
    var refused := RequireContainsBase(base, tips, changes);
    if refused.Some? {
      return Err(refused.value), [];
    }
    match strategy {
      case Naive => r := IntegrateNaive(cfg, repo, base, tips, changes);
      case MergeTreeStrategy => r, slots := IntegrateOCC(cfg, repo, base, tips, changes);
      case Overlay => r, slots := IntegrateOverlay(cfg, repo, base, tips, changes);
    }
  }
}
