/** What the ancestry guard and the recorded write-sets give the engine: a branch
    that contains base is recorded without the old names of its renames, and the
    strategies agree exactly when no other group's branch changes such a name and
    still has it. */
module Coverage {
  import opened Git
  import opened Seqs
  import opened Partition
  import opened Fold
  import opened Combine
  import opened Integrate
  import opened Equivalence

  /** A best common ancestor: none better lies above it. */
  ghost predicate IsMergeBase(m: Commit, a: Commit, b: Commit) {
    && IsAncestor(m, a) && IsAncestor(m, b)
    && forall x :: IsAncestor(m, x) && IsAncestor(x, a) && IsAncestor(x, b) ==> x == m
  }

  /** The change `git diff --name-only base...branch` records, with the renames
      git paired up on the way. */
  ghost predicate ThreeDot(base: Commit, tip: Commit, bc: BranchChange, renames: map<Path, Path>) {
    exists m :: IsMergeBase(m, base, tip) && RenamePairs(m.tree, tip.tree, renames)
                && bc.writeSet == NamesChanged(m.tree, tip.tree, renames)
  }

  /** A branch that contains base is recorded as its two-tree diff less the old
      names of its renames: the record covers the diff, and equals it, exactly
      when git paired no rename. */
  lemma ContainedRecord(base: Commit, tip: Commit, bc: BranchChange, renames: map<Path, Path>)
    requires IsAncestor(base, tip) && ThreeDot(base, tip, bc, renames)
    ensures bc.writeSet == DiffPaths(base.tree, tip.tree) - renames.Keys && renames.Keys <= DiffPaths(base.tree, tip.tree)
    ensures RenamePairs(base.tree, tip.tree, renames)
    ensures CoversDiff(base.tree, tip.tree, bc) <==> renames == map[]
    ensures bc.writeSet == DiffPaths(base.tree, tip.tree) <==> renames == map[]
  {
    var m :| IsMergeBase(m, base, tip) && RenamePairs(m.tree, tip.tree, renames)
             && bc.writeSet == NamesChanged(m.tree, tip.tree, renames);
    assert IsAncestor(base, base);
    assert m == base;
    assert renames.Keys <= DiffPaths(base.tree, tip.tree);
    if renames != map[] {
      var s :| s in renames.Keys;
    }
  }

  /** A batch as it is recorded: a change and its renames for each branch. */
  ghost predicate Recorded(base: Commit, tips: Tips, changes: seq<BranchChange>, renames: seq<map<Path, Path>>) {
    && Resolves(tips, changes) && |renames| == |changes|
    && forall i: nat :: i < |changes| ==> RecordedAt(base, tips, changes, renames, i)
  }

  ghost predicate RecordedAt(base: Commit, tips: Tips, changes: seq<BranchChange>, renames: seq<map<Path, Path>>, i: nat)
    requires Resolves(tips, changes) && |renames| == |changes| && i < |changes|
  {
    assert changes[i] in changes;
    ThreeDot(base, tips[changes[i].branch], changes[i], renames[i])
  }

  lemma RecordedFoot(base: Commit, tips: Tips, changes: seq<BranchChange>, renames: seq<map<Path, Path>>, i: nat)
    requires Recorded(base, tips, changes, renames) && BaseContained(base, tips, changes) && i < |changes|
    ensures changes[i].branch in tips
    ensures FootAt(base.tree, tips, changes, i) == changes[i].writeSet + renames[i].Keys
    ensures CoversDiff(base.tree, tips[changes[i].branch].tree, changes[i]) <==> renames[i] == map[]
  {
    assert changes[i] in changes;
    assert RecordedAt(base, tips, changes, renames, i);
    ContainedRecord(base, tips[changes[i].branch], changes[i], renames[i]);
  }

  /** What the guard admits is covered exactly when no branch renamed a file. */
  lemma GuardGivesCoverage(base: Commit, tips: Tips, changes: seq<BranchChange>, renames: seq<map<Path, Path>>)
    requires Recorded(base, tips, changes, renames) && BaseContained(base, tips, changes)
    ensures Covered(base, tips, changes) <==> forall i: nat :: i < |changes| ==> renames[i] == map[]
  {
    hide ThreeDot, RecordedAt, DiffPaths;
    forall i: nat | i < |changes|
      ensures changes[i].branch in tips
      ensures CoversDiff(base.tree, tips[changes[i].branch].tree, changes[i]) <==> renames[i] == map[]
    {
      RecordedFoot(base, tips, changes, renames, i);
    }
  }

  /** No old name of one branch's renames is recorded or renamed by a branch of
      another group. */
  ghost predicate OldNamesLeftAlone(changes: seq<BranchChange>, edges: seq<Edge>, renames: seq<map<Path, Path>>)
    requires |renames| == |changes|
  {
    forall i: nat, j: nat :: i < |changes| && j < |changes| && !Connected(changes, edges, i, j) ==>
      renames[i].Keys !! changes[j].writeSet + renames[j].Keys
  }

  /** What the guard admits keeps its groups' paths apart exactly then. */
  lemma GuardGivesSeparable(base: Commit, tips: Tips, changes: seq<BranchChange>, edges: seq<Edge>, renames: seq<map<Path, Path>>)
    requires Recorded(base, tips, changes, renames) && BaseContained(base, tips, changes)
    ensures Separable(base, tips, changes, edges) <==> OldNamesLeftAlone(changes, edges, renames)
  {
    hide FootAt, Connected, RecordedAt;
    forall i: nat | i < |changes|
      ensures FootAt(base.tree, tips, changes, i) == changes[i].writeSet + renames[i].Keys
    {
      RecordedFoot(base, tips, changes, renames, i);
    }
    forall i: nat, j: nat | i < |changes| && j < |changes| && !Connected(changes, edges, i, j)
      ensures changes[i].writeSet !! changes[j].writeSet && !Connected(changes, edges, j, i)
    {
      if SharePath(changes, i, j) {
        LinkedConnected(changes, edges, i, j);
      }
      if Connected(changes, edges, j, i) {
        ConnectedSymmetric(changes, edges, j, i);
      }
    }
  }

  /** Where branch i's renames left a path behind, branch j, if its record has
      that path, no longer has it either. */
  ghost predicate LeftGone(tips: Tips, changes: seq<BranchChange>, renames: seq<map<Path, Path>>, i: nat, j: nat)
    requires Resolves(tips, changes) && |renames| == |changes| && i < |changes| && j < |changes|
  {
    forall p <- renames[i] :: p in changes[j].writeSet ==> p !in Theirs(tips, changes, j)
  }

  /** So it is for branches of different groups. */
  ghost predicate OldNamesStayGone(tips: Tips, changes: seq<BranchChange>, edges: seq<Edge>, renames: seq<map<Path, Path>>)
    requires Resolves(tips, changes) && |renames| == |changes|
  {
    forall i: nat, j: nat :: i < |changes| && j < |changes| && !Connected(changes, edges, i, j) ==>
      LeftGone(tips, changes, renames, i, j)
  }

  /** What a recorded branch changed, and what it left of it. */
  lemma RecordedChanges(base: Commit, tips: Tips, changes: seq<BranchChange>, renames: seq<map<Path, Path>>, i: nat, p: Path)
    requires Recorded(base, tips, changes, renames) && BaseContained(base, tips, changes) && i < |changes|
    ensures ChangesAt(base.tree, tips, changes, i, p) <==> p in changes[i].writeSet || p in renames[i]
    ensures p in renames[i] ==> p !in changes[i].writeSet && p !in Theirs(tips, changes, i) && p in base.tree
  {
    hide DiffPaths, ThreeDot, IsAncestor;
    assert changes[i] in changes;
    assert RecordedAt(base, tips, changes, renames, i);
    ContainedRecord(base, tips[changes[i].branch], changes[i], renames[i]);
    DiffersAt(base.tree, Theirs(tips, changes, i), p);
  }

  /** What the guard admits meets the engine's hypothesis exactly then. */
  lemma GuardGivesCompatible(base: Commit, tips: Tips, changes: seq<BranchChange>, edges: seq<Edge>, renames: seq<map<Path, Path>>)
    requires Recorded(base, tips, changes, renames) && BaseContained(base, tips, changes)
    ensures Compatible(base, tips, changes, edges) <==> OldNamesStayGone(tips, changes, edges, renames)
  {
    hide Connected, RecordedAt, IsAncestor;
    forall i: nat, p | i < |changes|
      ensures ChangesAt(base.tree, tips, changes, i, p) <==> p in changes[i].writeSet || p in renames[i]
      ensures p in renames[i] ==> p !in changes[i].writeSet && p !in Theirs(tips, changes, i) && p in base.tree
    {
      RecordedChanges(base, tips, changes, renames, i, p);
    }
    forall i: nat, j: nat | i < |changes| && j < |changes| && !Connected(changes, edges, i, j)
      ensures changes[i].writeSet !! changes[j].writeSet && !Connected(changes, edges, j, i)
    {
      if SharePath(changes, i, j) {
        LinkedConnected(changes, edges, i, j);
      }
      if Connected(changes, edges, j, i) {
        ConnectedSymmetric(changes, edges, j, i);
      }
    }
    forall i: nat, j: nat | i < |changes| && j < |changes| && !Connected(changes, edges, i, j)
      ensures Alike(base.tree, Theirs(tips, changes, i), Theirs(tips, changes, j)) <==>
              LeftGone(tips, changes, renames, i, j) && LeftGone(tips, changes, renames, j, i)
    {
      AlikeIffGone(base, tips, changes, renames, i, j);
    }
  }

  /** Two branches that share no recorded path leave alike what both change
      exactly when neither still has, among its changes, an old name of the other's. */
  lemma AlikeIffGone(base: Commit, tips: Tips, changes: seq<BranchChange>, renames: seq<map<Path, Path>>, i: nat, j: nat)
    requires Resolves(tips, changes) && |renames| == |changes| && i < |changes| && j < |changes|
    requires changes[i].writeSet !! changes[j].writeSet
    requires forall k: nat, p :: k in {i, j} ==>
               (ChangesAt(base.tree, tips, changes, k, p) <==> p in changes[k].writeSet || p in renames[k])
    requires forall k: nat, p :: k in {i, j} && p in renames[k] ==>
               p !in changes[k].writeSet && p !in Theirs(tips, changes, k) && p in base.tree
    ensures Alike(base.tree, Theirs(tips, changes, i), Theirs(tips, changes, j)) <==>
            LeftGone(tips, changes, renames, i, j) && LeftGone(tips, changes, renames, j, i)
  {
    forall p
      ensures ChangesAt(base.tree, tips, changes, i, p) <==> p in changes[i].writeSet || p in renames[i]
      ensures ChangesAt(base.tree, tips, changes, j, p) <==> p in changes[j].writeSet || p in renames[j]
    {
    }
  }

  /** So on batches the guard admits, that is exactly when the strategies agree. */
  lemma GuardGivesEquivalence(base: Commit, tips: Tips, changes: seq<BranchChange>, edges: seq<Edge>, renames: seq<map<Path, Path>>)
    requires Recorded(base, tips, changes, renames) && BaseContained(base, tips, changes)
    ensures StrategiesAgree(base, tips, changes, edges) <==> OldNamesStayGone(tips, changes, edges, renames)
  {
    hide Recorded, BaseContained, StrategiesAgree, MergeTreeAgrees, Compatible, OldNamesStayGone;
    GuardGivesCompatible(base, tips, changes, edges, renames);
    assert Resolves(tips, changes) by {
      RecordedResolves(base, tips, changes, renames);
    }
    CompatibleIffStrategiesAgree(base, tips, changes, edges);
  }

  lemma RecordedResolves(base: Commit, tips: Tips, changes: seq<BranchChange>, renames: seq<map<Path, Path>>)
    requires Recorded(base, tips, changes, renames)
    ensures Resolves(tips, changes)
  {
  }

  // ---- records that leave nothing out ----

  /** The batched diff pairs no renames, so what it records always covers. */
  lemma BatchRecordCovers(base: Commit, tips: Tips, changes: seq<BranchChange>)
    requires Resolves(tips, changes)
    requires forall i: nat :: i < |changes| ==>
               changes[i].branch in tips && changes[i].writeSet == DiffPaths(base.tree, tips[changes[i].branch].tree)
    ensures Covered(base, tips, changes)
  {
  }

  /** A content merge that always conflicts, and no resolver. */
  function Strict(): Engine {
    Engine((p: Path, b: Option<Entry>, o: Option<Entry>, t: Option<Entry>) => Conflict(t), None)
  }

  // A branch forked before base gained "f" and never moved, and one that edits "f".

  const FORK := Commit(map[], [], "fork")
  const BASE := Commit(map["f" := Entry("100644", "old")], [FORK], "base")
  const EDIT := Commit(map["f" := Entry("100644", "new")], [BASE], "edit")
  const TIPS: Tips := map["stale" := FORK, "edit" := EDIT]
  const CHANGES := [BranchChange("stale", {}), BranchChange("edit", {"f"})]

  lemma StaleIsNotContained()
    ensures Resolves(TIPS, CHANGES) && !BaseContained(BASE, TIPS, CHANGES)
    ensures forall bc <- CHANGES :: ThreeDot(BASE, TIPS[bc.branch], bc, map[])
  {
    assert IsAncestor(FORK, BASE.parents[0]) && IsAncestor(BASE, EDIT.parents[0]);
    assert IsAncestor(FORK, BASE) && IsAncestor(BASE, EDIT) && !IsAncestor(BASE, FORK);
    assert forall x :: IsAncestor(x, FORK) ==> x == FORK;
    assert IsMergeBase(FORK, BASE, FORK);
    MoveDiffs();
    assert DiffPaths(FORK.tree, FORK.tree) == {};
    hide DiffPaths, IsMergeBase, IsAncestor, RenamePairs;
    ContainedIsMergeBase(BASE, EDIT);
    NoRenames(FORK.tree, FORK.tree);
    NoRenames(BASE.tree, EDIT.tree);
    assert ThreeDot(BASE, FORK, CHANGES[0], map[]) && ThreeDot(BASE, EDIT, CHANGES[1], map[]);
    assert CHANGES[0] in CHANGES;
  }

  lemma StaleLandsFirst(e: Engine)
    requires Resolves(TIPS, CHANGES)
    ensures Run(e, BASE.tree, BASE.tree, TIPS, CHANGES[..1]) == FoldState(FORK.tree, {}, [Landed("stale", false)])
  {
    FirstLands(e, BASE, TIPS, CHANGES[..1]);
  }

  lemma StaleSerial()
    requires Resolves(TIPS, CHANGES)
    ensures Serial(Strict(), BASE, TIPS, CHANGES).tree == map[]
    ensures LandedOf(Serial(Strict(), BASE, TIPS, CHANGES).outs) == ["stale"]
  {
    hide Merge, Conflicts, LandedOf, IsAncestor, Run, Strict;
    var e := Strict();
    StaleLandsFirst(e);
    ReportsGrow(e, BASE.tree, BASE.tree, TIPS, CHANGES, 1);
    assert CHANGES[..1 + 1] == CHANGES;
    EditIsFlagged(e, FORK.tree);
    OneLanded("stale");
  }

  lemma EditIsFlagged(e: Engine, ours: Tree)
    requires e == Strict() && "f" !in ours
    ensures Merge(e, BASE.tree, ours, EDIT.tree).None?
  {
    MergeTreeAt(e, BASE.tree, ours, EDIT.tree, "f");
    assert BASE.tree["f"].content != EDIT.tree["f"].content;
    assert "f" in Conflicts(e, BASE.tree, ours, EDIT.tree);
    MergeDecides(e, BASE.tree, ours, EDIT.tree);
  }

  /** Their recorded write-sets are disjoint, so they form two groups; yet the
      serial fold deletes "f" and flags the edit, while overlaying the two tips
      lands both. The guard is what rules this out. */
  lemma StaleBranchSplitsStrategies()
    ensures Resolves(TIPS, CHANGES) && !BaseContained(BASE, TIPS, CHANGES)
    ensures forall bc <- CHANGES :: ThreeDot(BASE, TIPS[bc.branch], bc, map[])
    ensures CHANGES[0].writeSet !! CHANGES[1].writeSet
    ensures LandedOf(Serial(Strict(), BASE, TIPS, CHANGES).outs) == ["stale"]
    ensures OverlayTrees(BASE.tree, [FORK, EDIT]) != Serial(Strict(), BASE, TIPS, CHANGES).tree
  {
    hide Serial, LandedOf, ThreeDot, IsAncestor, OverlayTrees;
    StaleIsNotContained();
    StaleSerial();
    OverlayKeepsEdit();
  }

  lemma OverlayKeepsEdit()
    ensures "f" in OverlayTrees(BASE.tree, [FORK, EDIT])
  {
    hide ApplyDiff, IsAncestor;
    assert [FORK, EDIT][..1] == [FORK];
    assert BASE.tree["f"].content != EDIT.tree["f"].content;
    ApplyDiffAt(OverlayTrees(BASE.tree, [FORK]), BASE.tree, EDIT.tree, "f");
  }

  // A branch that renames "f" to "g", recorded by "g" alone, beside one that edits "f".

  const MOVED := Commit(map["g" := Entry("100644", "old")], [BASE], "rename")
  const MOVE_TIPS: Tips := map["move" := MOVED, "edit" := EDIT]
  const MOVE_CHANGES := [BranchChange("move", {"g"}), BranchChange("edit", {"f"})]
  const MOVE_RENAMES: seq<map<Path, Path>> := [map["f" := "g"], map[]]

  lemma MoveDiffs()
    ensures DiffPaths(BASE.tree, MOVED.tree) == {"f", "g"} && DiffPaths(BASE.tree, EDIT.tree) == {"f"}
    ensures RenamePairs(BASE.tree, MOVED.tree, map["f" := "g"]) && {"f", "g"} - {"f"} == {"g"}
  {
    assert "f" != "g";
    assert BASE.tree["f"].content != EDIT.tree["f"].content;
  }

  lemma ContainedIsMergeBase(base: Commit, tip: Commit)
    requires IsAncestor(base, tip)
    ensures IsMergeBase(base, base, tip)
  {
    forall x | IsAncestor(base, x) && IsAncestor(x, base)
      ensures x == base
    {
      AncestorAntisymmetric(base, x);
    }
  }

  lemma MoveIsRecorded()
    ensures Recorded(BASE, MOVE_TIPS, MOVE_CHANGES, MOVE_RENAMES) && BaseContained(BASE, MOVE_TIPS, MOVE_CHANGES)
  {
    assert IsAncestor(BASE, MOVED.parents[0]) && IsAncestor(BASE, EDIT.parents[0]);
    assert IsAncestor(BASE, MOVED) && IsAncestor(BASE, EDIT);
    hide DiffPaths, IsMergeBase, IsAncestor, RenamePairs;
    ContainedIsMergeBase(BASE, MOVED);
    ContainedIsMergeBase(BASE, EDIT);
    MoveDiffs();
    NoRenames(BASE.tree, EDIT.tree);
    assert ThreeDot(BASE, MOVED, MOVE_CHANGES[0], MOVE_RENAMES[0]);
    assert ThreeDot(BASE, EDIT, MOVE_CHANGES[1], MOVE_RENAMES[1]);
  }

  lemma NoRenames(from: Tree, to: Tree)
    ensures RenamePairs(from, to, map[]) && NamesChanged(from, to, map[]) == DiffPaths(from, to)
  {
  }

  lemma MoveLandsFirst(e: Engine)
    requires Resolves(MOVE_TIPS, MOVE_CHANGES)
    ensures Run(e, BASE.tree, BASE.tree, MOVE_TIPS, MOVE_CHANGES[..1]) == FoldState(MOVED.tree, {"g"}, [Landed("move", false)])
  {
    FirstLands(e, BASE, MOVE_TIPS, MOVE_CHANGES[..1]);
  }

  lemma MoveSerial()
    requires Resolves(MOVE_TIPS, MOVE_CHANGES)
    ensures Serial(Strict(), BASE, MOVE_TIPS, MOVE_CHANGES).tree == MOVED.tree
    ensures LandedOf(Serial(Strict(), BASE, MOVE_TIPS, MOVE_CHANGES).outs) == ["move"]
  {
    hide Merge, Conflicts, LandedOf, IsAncestor, Run, Strict;
    var e := Strict();
    MoveLandsFirst(e);
    ReportsGrow(e, BASE.tree, BASE.tree, MOVE_TIPS, MOVE_CHANGES, 1);
    assert MOVE_CHANGES[..1 + 1] == MOVE_CHANGES;
    assert "f" != "g";
    EditIsFlagged(e, MOVED.tree);
    OneLanded("move");
  }

  lemma OneLanded(branch: string)
    ensures LandedOf([Landed(branch, false)]) == [branch]
  {
    FlatMapSnoc(LandedIn, [], Landed(branch, false));
    assert [] + [Landed(branch, false)] == [Landed(branch, false)];
  }

  /** Both branches contain base and their records are disjoint, so they form two
      groups; yet the serial fold moves "f" and flags the edit, while overlaying
      the two tips lands both and brings "f" back. */
  lemma RenamedSourceSplitsStrategies()
    ensures Recorded(BASE, MOVE_TIPS, MOVE_CHANGES, MOVE_RENAMES) && BaseContained(BASE, MOVE_TIPS, MOVE_CHANGES)
    ensures Groups(MOVE_CHANGES, []) == [[MOVE_CHANGES[0]], [MOVE_CHANGES[1]]]
    ensures !Compatible(BASE, MOVE_TIPS, MOVE_CHANGES, []) && !Separable(BASE, MOVE_TIPS, MOVE_CHANGES, [])
    ensures LandedOf(Serial(Strict(), BASE, MOVE_TIPS, MOVE_CHANGES).outs) == ["move"]
    ensures OverlayTrees(BASE.tree, [MOVED, EDIT]) != Serial(Strict(), BASE, MOVE_TIPS, MOVE_CHANGES).tree
  {
    hide Serial, LandedOf, ThreeDot, IsAncestor, OverlayTrees, Connected, Recorded;
    MoveIsRecorded();
    assert Resolves(MOVE_TIPS, MOVE_CHANGES);
    MoveSerial();
    OverlayBringsBack();
    assert "f" != "g";
    assert PathDisjoint(MOVE_CHANGES);
    DisjointGroupsAreSingletons(MOVE_CHANGES);
    GuardGivesCompatible(BASE, MOVE_TIPS, MOVE_CHANGES, [], MOVE_RENAMES);
    if Separable(BASE, MOVE_TIPS, MOVE_CHANGES, []) {
      SeparableCompatible(BASE, MOVE_TIPS, MOVE_CHANGES, []);
    }
    if Connected(MOVE_CHANGES, [], 0, 1) {
      ConnectedToSelfOnly(MOVE_CHANGES, 0, 1);
    }
    assert "f" in MOVE_RENAMES[0] && "f" in MOVE_CHANGES[1].writeSet && "f" in Theirs(MOVE_TIPS, MOVE_CHANGES, 1);
  }

  lemma OverlayBringsBack()
    ensures "f" in OverlayTrees(BASE.tree, [MOVED, EDIT]) && "f" !in MOVED.tree
  {
    hide ApplyDiff, IsAncestor;
    assert "f" != "g";
    assert [MOVED, EDIT][..1] == [MOVED];
    assert BASE.tree["f"].content != EDIT.tree["f"].content;
    ApplyDiffAt(OverlayTrees(BASE.tree, [MOVED]), BASE.tree, EDIT.tree, "f");
  }
}
