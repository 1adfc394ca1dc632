/** When the strategies agree: exactly when branches of different groups leave
    alike every path they both change. When group heads are disjoint: exactly when
    no path is touched from two groups. */
module Equivalence {
  import opened Git
  import opened Seqs
  import opened Partition
  import opened Fold
  import opened Pilings
  import opened Combine
  import opened Integrate

  // ---- the slots of a batch, under any engine ----

  /** One group's fold, as a slot. */
  function SlotOf(e: Engine, base: Commit, tips: Tips, g: seq<BranchChange>): GroupResult
    requires Resolves(tips, g) && forall b <- LandedOf(Serial(e, base, tips, g).outs) :: b in tips
  {
    var s := Serial(e, base, tips, g);
    GroupResult(HeadOf(base, tips, s.tree, LandedOf(s.outs), "slot"), LandedOf(s.outs), FlaggedOf(s.outs), AutoMergedOf(s.outs))
  }

  lemma SlotFolds(e: Engine, base: Commit, tips: Tips, g: seq<BranchChange>)
    requires Resolves(tips, g) && g != []
    ensures forall b <- LandedOf(Serial(e, base, tips, g).outs) :: b in tips
    ensures FoldsTo(e, base, tips, g, SlotOf(e, base, tips, g))
  {
    hide Run, LandedOf, FlaggedOf, AutoMergedOf;
    LandedResolve(e, base.tree, base.tree, tips, g);
    FirstLands(e, base, tips, g);
    FoldHeadReaches(base, tips, Serial(e, base, tips, g).tree, LandedOf(Serial(e, base, tips, g).outs), "slot");
  }

  ghost predicate FoldsGroup(e: Engine, base: Commit, tips: Tips, g: seq<BranchChange>, slot: GroupResult) {
    Resolves(tips, g) && FoldsTo(e, base, tips, g, slot)
  }

  /** Every group has a slot. */
  lemma {:induction false} SlotsExist(e: Engine, base: Commit, tips: Tips, groups: seq<seq<BranchChange>>) returns (slots: seq<GroupResult>)
    requires forall g <- groups :: g != [] && Resolves(tips, g)
    ensures |slots| == |groups| && forall k :: 0 <= k < |groups| ==> FoldsGroup(e, base, tips, groups[k], slots[k])
  {
    hide FoldsTo;
    slots := [];
    if groups != [] {
      var n := |groups| - 1;
      forall g <- groups[..n]
        ensures g != [] && Resolves(tips, g)
      {
        assert g in groups;
      }
      slots := SlotsExist(e, base, tips, groups[..n]);
      assert groups[n] in groups;
      SlotFolds(e, base, tips, groups[n]);
      slots := slots + [SlotOf(e, base, tips, groups[n])];
      assert forall k :: 0 <= k < n ==> groups[..n][k] == groups[k];
    }
  }

  /** Every batch has slots. */
  lemma BatchSlots(e: Engine, base: Commit, tips: Tips, changes: seq<BranchChange>, edges: seq<Edge>) returns (slots: seq<GroupResult>)
    requires Resolves(tips, changes)
    ensures SlotsFold(e, base, tips, changes, edges, slots)
  {
    hide FoldsTo, Classes;
    GroupsNonempty(changes, edges, tips);
    slots := SlotsExist(e, base, tips, Groups(changes, edges));
    SlotsAreFolds(e, base, tips, changes, edges, slots);
  }

  lemma SlotsAreFolds(e: Engine, base: Commit, tips: Tips, changes: seq<BranchChange>, edges: seq<Edge>, slots: seq<GroupResult>)
    requires |slots| == |Groups(changes, edges)|
    requires forall k :: 0 <= k < |slots| ==> FoldsGroup(e, base, tips, Groups(changes, edges)[k], slots[k])
    ensures SlotsFold(e, base, tips, changes, edges, slots)
  {
    hide Classes, FoldsTo;
    forall k | 0 <= k < |slots|
      ensures FoldsGroup(e, base, tips, Select(changes, Classes(changes, edges)[k]), slots[k])
    {
      assert Groups(changes, edges)[k] == Select(changes, Classes(changes, edges)[k]);
    }
  }

  lemma SlotTree(e: Engine, base: Commit, tips: Tips, changes: seq<BranchChange>, edges: seq<Edge>, slots: seq<GroupResult>, k: nat)
    requires SlotsFold(e, base, tips, changes, edges, slots) && k < |slots|
    ensures k < |Classes(changes, edges)| && Resolves(tips, Select(changes, Classes(changes, edges)[k]))
    ensures slots[k].head.tree == Serial(e, base, tips, Select(changes, Classes(changes, edges)[k])).tree
  {
    hide Run, Classes;
  }

  /** A group's head moves only what a branch of the group changes. */
  lemma HeadMovedBy(e: Engine, base: Commit, tips: Tips, changes: seq<BranchChange>, edges: seq<Edge>, slots: seq<GroupResult>, k: nat, p: Path)
    returns (i: nat)
    requires Resolves(tips, changes) && SlotsFold(e, base, tips, changes, edges, slots) && k < |slots|
    requires Changed(base.tree, slots[k].head, p)
    ensures k < |Classes(changes, edges)| && i < |changes| && i in Classes(changes, edges)[k] && ChangesAt(base.tree, tips, changes, i, p)
  {
    hide Run, Classes, SlotsFold;
    SlotTree(e, base, tips, changes, edges, slots, k);
    var at := Classes(changes, edges)[k];
    var some, part := Select(changes, at), Serial(e, base, tips, Select(changes, at));
    if !LandsOn(base.tree, tips, some, part.outs, p) {
      FoldStaysInDiffs(e, base.tree, base.tree, tips, some, p);
    }
    var m: nat :| m < |some| && part.outs[m].Landed? && ChangesAt(base.tree, tips, some, m, p);
    SelectMembers(changes, at, some[m]);
    i :| 0 <= i < |changes| && i in at && changes[i] == some[m];
    assert Theirs(tips, changes, i) == Theirs(tips, some, m);
  }

  /** Under an engine that moves all it is given, a group's head moves whatever a
      branch of the group changes. */
  lemma HeadMoves(pad: string, base: Commit, tips: Tips, changes: seq<BranchChange>, edges: seq<Edge>, slots: seq<GroupResult>,
                  k: nat, i: nat, p: Path)
    requires Resolves(tips, changes) && SlotsFold(Piling(pad), base, tips, changes, edges, slots) && pad != ""
    requires k < |slots| && k < |Classes(changes, edges)| && i < |changes| && i in Classes(changes, edges)[k]
    requires ChangesAt(base.tree, tips, changes, i, p)
    ensures Changed(base.tree, slots[k].head, p)
  {
    hide Run, Classes, SlotsFold, Piling;
    SlotTree(Piling(pad), base, tips, changes, edges, slots, k);
    var at := Classes(changes, edges)[k];
    var some := Select(changes, at);
    SelectMembers(changes, at, changes[i]);
    var m :| 0 <= m < |some| && some[m] == changes[i];
    assert Theirs(tips, changes, i) == Theirs(tips, some, m);
    assert ChangesAt(base.tree, tips, some, m, p);
    PilingMovesAll(pad, base.tree, tips, some, p);
  }

  // ---- when the strategies agree ----

  /** Whatever the content merge and the resolver, the naive, merge-tree and
      overlay strategies give one tree and one report, and no combine fails. */
  ghost predicate StrategiesAgree(base: Commit, tips: Tips, changes: seq<BranchChange>, edges: seq<Edge>)
    requires Resolves(tips, changes)
  {
    forall e: Engine, slots :: SlotsFold(e, base, tips, changes, edges, slots) ==>
      && CombinesTo(e, base, Heads(slots), Serial(e, base, tips, changes).tree)
      && OverlayTrees(base.tree, Heads(slots)) == Serial(e, base, tips, changes).tree
      && SameReport(Serial(e, base, tips, changes), AllLanded(slots), AllFlagged(slots), AllAuto(slots))
  }

  /** The part of it that says the merge-tree strategy gives the naive one's tree. */
  ghost predicate MergeTreeAgrees(base: Commit, tips: Tips, changes: seq<BranchChange>, edges: seq<Edge>)
    requires Resolves(tips, changes)
  {
    forall e: Engine, slots :: SlotsFold(e, base, tips, changes, edges, slots) ==>
      CombinesTo(e, base, Heads(slots), Serial(e, base, tips, changes).tree)
  }

  /** The strategies agree under every engine exactly when branches of different
      groups leave alike every path they both change; and that the merge-tree
      strategy gives the naive tree is already enough. */
  lemma CompatibleIffStrategiesAgree(base: Commit, tips: Tips, changes: seq<BranchChange>, edges: seq<Edge>)
    requires Resolves(tips, changes)
    ensures Compatible(base, tips, changes, edges) <==> StrategiesAgree(base, tips, changes, edges)
    ensures Compatible(base, tips, changes, edges) <==> MergeTreeAgrees(base, tips, changes, edges)
  {
    hide Connected, SlotsFold, SameReport, CombinesTo, OverlayTrees, Serial;
    if Compatible(base, tips, changes, edges) {
      forall e: Engine, slots | SlotsFold(e, base, tips, changes, edges, slots)
        ensures CombinesTo(e, base, Heads(slots), Serial(e, base, tips, changes).tree)
        ensures OverlayTrees(base.tree, Heads(slots)) == Serial(e, base, tips, changes).tree
        ensures SameReport(Serial(e, base, tips, changes), AllLanded(slots), AllFlagged(slots), AllAuto(slots))
      {
        GroupingIsSerial(e, base, tips, changes, edges, slots);
      }
    } else {
      var i: nat, j: nat :| i < |changes| && j < |changes| && !Connected(changes, edges, i, j)
                            && !Alike(base.tree, Theirs(tips, changes, i), Theirs(tips, changes, j));
      var p :| ChangesAt(base.tree, tips, changes, i, p) && ChangesAt(base.tree, tips, changes, j, p)
               && At(Theirs(tips, changes, i), p) != At(Theirs(tips, changes, j), p);
      var e, slots := DisagreementShows(base, tips, changes, edges, i, j, p);
    }
  }

  lemma FirstToChange(base: Tree, tips: Tips, changes: seq<BranchChange>, i: nat, p: Path) returns (first: nat)
    requires Resolves(tips, changes) && i < |changes| && ChangesAt(base, tips, changes, i, p)
    ensures first <= i && ChangesAt(base, tips, changes, first, p)
    ensures forall k: nat :: k < first ==> !ChangesAt(base, tips, changes, k, p)
  {
    if k: nat :| k < i && ChangesAt(base, tips, changes, k, p) {
      first := FirstToChange(base, tips, changes, k, p);
    } else {
      first := i;
    }
  }

  /** Branches of different groups that leave a path differently: an engine that
      marks every merge shows it, for one of the two groups misses a change that
      the serial fold has. */
  lemma DisagreementShows(base: Commit, tips: Tips, changes: seq<BranchChange>, edges: seq<Edge>, i: nat, j: nat, p: Path)
    returns (e: Engine, slots: seq<GroupResult>)
    requires Resolves(tips, changes) && i < |changes| && j < |changes| && !Connected(changes, edges, i, j)
    requires ChangesAt(base.tree, tips, changes, i, p) && ChangesAt(base.tree, tips, changes, j, p)
    requires At(Theirs(tips, changes, i), p) != At(Theirs(tips, changes, j), p)
    ensures SlotsFold(e, base, tips, changes, edges, slots)
    ensures !CombinesTo(e, base, Heads(slots), Serial(e, base, tips, changes).tree)
  {
    hide Connected, Classes, SlotsFold, Run, Piling;
    var pad := SomePadOutgrows(base.tree, tips, changes, p);
    e := Piling(pad);
    slots := BatchSlots(e, base, tips, changes, edges);
    var first := FirstToChange(base.tree, tips, changes, i, p);
    var missed, kept := if At(Theirs(tips, changes, i), p) != At(Theirs(tips, changes, first), p) then i else j,
                        if At(Theirs(tips, changes, i), p) != At(Theirs(tips, changes, first), p) then j else i;
    var cs := Classes(changes, edges);
    ClassesSplit(changes, edges);
    assert Covers(cs, kept);
    var k :| 0 <= k < |cs| && kept in cs[k];
    if missed in cs[k] {
      ClassesTogether(changes, edges, k, i, j);
    }
    SlotCount(e, base, tips, changes, edges, slots);
    LeavingOutShows(pad, base.tree, tips, changes, cs[k], first, missed, p);
    SlotTree(e, base, tips, changes, edges, slots, k);
    HeadMoves(pad, base, tips, changes, edges, slots, k, kept, p);
    if CombinesTo(e, base, Heads(slots), Serial(e, base, tips, changes).tree) {
      CombinedReads(pad, base, Heads(slots), k, p);
    }
  }

  /** Under an engine that marks every merge, what combines reads as each head
      that moved. */
  lemma CombinedReads(pad: string, base: Commit, heads: seq<Commit>, k: nat, p: Path)
    requires Combined(Piling(pad), base, heads).Some? && k < |heads| && Changed(base.tree, heads[k], p)
    ensures At(Combined(Piling(pad), base, heads).value.tree, p) == At(heads[k].tree, p)
  {
    hide Combined, OverlayTrees, Agreeing;
    OnlyAgreeingCombine(Piling(pad), base, heads);
    CombinedIsOverlay(Piling(pad), base, heads);
  }

  // ---- when group heads are disjoint ----

  /** No path is touched, by the record or by the diff, from two groups. */
  ghost predicate Separable(base: Commit, tips: Tips, changes: seq<BranchChange>, edges: seq<Edge>) {
    && Resolves(tips, changes)
    && forall i: nat, j: nat :: i < |changes| && j < |changes| && !Connected(changes, edges, i, j) ==>
         FootAt(base.tree, tips, changes, i) !! FootAt(base.tree, tips, changes, j)
  }

  /** With nothing left out of the record it holds, whatever the edges. */
  lemma CoveredSeparable(base: Commit, tips: Tips, changes: seq<BranchChange>, edges: seq<Edge>)
    requires Covered(base, tips, changes)
    ensures Separable(base, tips, changes, edges)
  {
    hide Foot;
    forall i: nat, j: nat | i < |changes| && j < |changes| && !Connected(changes, edges, i, j)
      ensures FootAt(base.tree, tips, changes, i) !! FootAt(base.tree, tips, changes, j)
    {
      CoveredFoot(base.tree, tips, changes, i);
      CoveredFoot(base.tree, tips, changes, j);
      if SharePath(changes, i, j) {
        LinkedConnected(changes, edges, i, j);
      }
    }
  }

  lemma SeparableCompatible(base: Commit, tips: Tips, changes: seq<BranchChange>, edges: seq<Edge>)
    requires Separable(base, tips, changes, edges)
    ensures Compatible(base, tips, changes, edges)
  {
    hide DiffPaths, Connected;
    forall i: nat, j: nat | i < |changes| && j < |changes| && !Connected(changes, edges, i, j)
      ensures Alike(base.tree, Theirs(tips, changes, i), Theirs(tips, changes, j))
    {
      assert FootAt(base.tree, tips, changes, i) !! FootAt(base.tree, tips, changes, j);
      forall p | At(Theirs(tips, changes, i), p) != At(base.tree, p)
        ensures At(Theirs(tips, changes, j), p) == At(base.tree, p)
      {
        DiffersAt(base.tree, Theirs(tips, changes, i), p);
        DiffersAt(base.tree, Theirs(tips, changes, j), p);
      }
    }
  }

  /** Then group heads change disjoint paths. */
  lemma HeadsDisjoint(e: Engine, base: Commit, tips: Tips, changes: seq<BranchChange>, edges: seq<Edge>, slots: seq<GroupResult>)
    requires Separable(base, tips, changes, edges) && SlotsFold(e, base, tips, changes, edges, slots)
    ensures Disjoint(base.tree, Heads(slots))
  {
    hide Classes, SlotsFold, DiffPaths, Connected;
    var heads := Heads(slots);
    forall a, b, p | 0 <= a < b < |heads| && Changed(base.tree, heads[a], p)
      ensures !Changed(base.tree, heads[b], p)
    {
      if Changed(base.tree, heads[b], p) {
        var i := HeadMovedBy(e, base, tips, changes, edges, slots, a, p);
        var j := HeadMovedBy(e, base, tips, changes, edges, slots, b, p);
        ClassesSplit(changes, edges);
        ClassesApart(changes, edges, a, i, j);
        DiffersAt(base.tree, Theirs(tips, changes, i), p);
        DiffersAt(base.tree, Theirs(tips, changes, j), p);
        assert false;
      }
    }
    DisjointAt(base.tree, heads);
  }

  /** Group heads change disjoint paths, whatever the content merge and resolver. */
  ghost predicate AlwaysDisjoint(base: Commit, tips: Tips, changes: seq<BranchChange>, edges: seq<Edge>) {
    forall e: Engine, slots :: SlotsFold(e, base, tips, changes, edges, slots) ==> Disjoint(base.tree, Heads(slots))
  }

  /** Two branches of different groups that both changed a path: some engine
      makes both their group heads change it. */
  lemma SharedPathSplitsHeads(base: Commit, tips: Tips, changes: seq<BranchChange>, edges: seq<Edge>, i: nat, j: nat, p: Path)
    requires Resolves(tips, changes) && i < |changes| && j < |changes| && !Connected(changes, edges, i, j)
    requires ChangesAt(base.tree, tips, changes, i, p) && ChangesAt(base.tree, tips, changes, j, p)
    ensures !AlwaysDisjoint(base, tips, changes, edges)
  {
    hide Connected, Classes, SlotsFold, Disjoint, Changed, Piling;
    var cs := Classes(changes, edges);
    ClassesSplit(changes, edges);
    assert Covers(cs, i) && Covers(cs, j);
    var a :| 0 <= a < |cs| && i in cs[a];
    var b :| 0 <= b < |cs| && j in cs[b];
    var slots := BatchSlots(Piling("x"), base, tips, changes, edges);
    SlotCount(Piling("x"), base, tips, changes, edges, slots);
    HeadMoves("x", base, tips, changes, edges, slots, a, i, p);
    HeadMoves("x", base, tips, changes, edges, slots, b, j, p);
    if a == b {
      ClassesTogether(changes, edges, a, i, j);
    }
    DisjointAt(base.tree, Heads(slots));
    assert !Disjoint(base.tree, Heads(slots)) by {
      var first, last := if a < b then a else b, if a < b then b else a;
      assert Changed(base.tree, Heads(slots)[first], p) && Changed(base.tree, Heads(slots)[last], p);
    }
  }

  /** For branches recorded within their diffs, as the guard's branches are: no
      path is touched from two groups exactly when group heads are disjoint
      whatever the content merge and the resolver. */
  lemma SeparableIffAlwaysDisjoint(base: Commit, tips: Tips, changes: seq<BranchChange>, edges: seq<Edge>)
    requires Resolves(tips, changes)
    requires forall i: nat :: i < |changes| ==> changes[i].writeSet <= DiffPaths(base.tree, Theirs(tips, changes, i))
    ensures Separable(base, tips, changes, edges) <==> AlwaysDisjoint(base, tips, changes, edges)
  {
    hide Connected, SlotsFold, Disjoint;
    if Separable(base, tips, changes, edges) {
      forall e: Engine, slots | SlotsFold(e, base, tips, changes, edges, slots)
        ensures Disjoint(base.tree, Heads(slots))
      {
        HeadsDisjoint(e, base, tips, changes, edges, slots);
      }
    } else {
      var i: nat, j: nat :| i < |changes| && j < |changes| && !Connected(changes, edges, i, j)
                            && !(FootAt(base.tree, tips, changes, i) !! FootAt(base.tree, tips, changes, j));
      var p :| p in FootAt(base.tree, tips, changes, i) && p in FootAt(base.tree, tips, changes, j);
      DiffersAt(base.tree, Theirs(tips, changes, i), p);
      DiffersAt(base.tree, Theirs(tips, changes, j), p);
      SharedPathSplitsHeads(base, tips, changes, edges, i, j, p);
    }
  }
}
