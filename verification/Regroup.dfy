/** Folding only some of a batch's groups, one group after another: each group
    does there what it does in the whole batch. */
module Regroup {
  import opened Git
  import opened Seqs
  import opened Partition
  import opened Fold
  import opened Integrate

  /** Sets of positions that share no branch, each set apart from all others. */
  ghost predicate Separate(base: Commit, tips: Tips, changes: seq<BranchChange>, classes: seq<set<nat>>)
    requires Resolves(tips, changes)
  {
    && (forall k :: 0 <= k < |classes| ==> Apart(base.tree, tips, changes, classes[k]))
    && (forall j, k :: 0 <= j < k < |classes| ==> classes[j] !! classes[k])
  }

  /** The groups of a compatible batch are. */
  lemma ClassesSeparate(base: Commit, tips: Tips, changes: seq<BranchChange>, edges: seq<Edge>)
    requires Compatible(base, tips, changes, edges)
    ensures Separate(base, tips, changes, Classes(changes, edges))
  {
    hide Classes, Apart;
    var cs := Classes(changes, edges);
    ClassesSplit(changes, edges);
    forall k | 0 <= k < |cs|
      ensures Apart(base.tree, tips, changes, cs[k])
    {
      ClassApart(base, tips, changes, edges, k);
    }
    forall j, k | 0 <= j < k < |cs|
      ensures cs[j] !! cs[k]
    {
      forall i | i in cs[j]
        ensures i !in cs[k]
      {
      }
    }
  }

  /** The classes' branches, one class after another. */
  function Regrouped(changes: seq<BranchChange>, classes: seq<set<nat>>): seq<BranchChange> {
    Concat(SelectAll(changes, classes))
  }

  lemma RegroupedMembers(changes: seq<BranchChange>, classes: seq<set<nat>>, bc: BranchChange)
    ensures bc in Regrouped(changes, classes) <==>
            exists k, i :: 0 <= k < |classes| && 0 <= i < |changes| && i in classes[k] && changes[i] == bc
  {
    ConcatMembers(SelectAll(changes, classes), bc);
    forall k | 0 <= k < |classes|
      ensures bc in SelectAll(changes, classes)[k] <==> exists i :: 0 <= i < |changes| && i in classes[k] && changes[i] == bc
    {
      SelectMembers(changes, classes[k], bc);
    }
  }

  lemma RegroupedResolves(tips: Tips, changes: seq<BranchChange>, classes: seq<set<nat>>)
    requires Resolves(tips, changes)
    ensures Resolves(tips, Regrouped(changes, classes))
  {
    forall bc <- Regrouped(changes, classes)
      ensures bc.branch in tips
    {
      RegroupedMembers(changes, classes, bc);
    }
  }

  // ---- two batches in turn ----

  /** A fold's tree reads as t wherever one of its branches landed a change, and
      as base elsewhere. */
  ghost predicate ShowsIn(base: Commit, tips: Tips, changes: seq<BranchChange>, s: FoldState, t: Tree)
    requires Resolves(tips, changes) && |s.outs| == |changes|
  {
    forall p :: At(s.tree, p) == if LandsOn(base.tree, tips, changes, s.outs, p) then At(t, p) else At(base.tree, p)
  }

  /** Every branch of the one shares no recorded path with any of the other, and
      leaves alike what both change. */
  ghost predicate ApartBatches(base: Commit, tips: Tips, xs: seq<BranchChange>, ys: seq<BranchChange>)
    requires Resolves(tips, xs) && Resolves(tips, ys)
  {
    forall i: nat, j: nat :: i < |xs| && j < |ys| ==>
      xs[i].writeSet !! ys[j].writeSet && Alike(base.tree, Theirs(tips, xs, i), Theirs(tips, ys, j))
  }

  lemma ApartHalves(base: Commit, tips: Tips, xs: seq<BranchChange>, ys: seq<BranchChange>)
    requires Resolves(tips, xs) && Resolves(tips, ys) && ApartBatches(base, tips, xs, ys)
    ensures Resolves(tips, xs + ys)
    ensures Apart(base.tree, tips, xs + ys, Range(|xs|))
    ensures Apart(base.tree, tips, xs + ys, Range(|xs + ys|) - Range(|xs|))
  {
    var all, m := xs + ys, |xs|;
    forall i: nat | i < |all|
      ensures all[i].branch in tips
      ensures i < m ==> all[i] == xs[i] && Theirs(tips, all, i) == Theirs(tips, xs, i)
      ensures i >= m ==> all[i] == ys[i - m] && Theirs(tips, all, i) == Theirs(tips, ys, i - m)
    {
    }
    hide Theirs, Alike;
    forall i: nat, j: nat | i < m && m <= j < |all|
      ensures all[i].writeSet !! all[j].writeSet
      ensures Alike(base.tree, Theirs(tips, all, i), Theirs(tips, all, j)) && Alike(base.tree, Theirs(tips, all, j), Theirs(tips, all, i))
    {
      assert xs[i].writeSet !! ys[j - m].writeSet && Alike(base.tree, Theirs(tips, xs, i), Theirs(tips, ys, j - m));
      AlikeSymmetric(base.tree, Theirs(tips, xs, i), Theirs(tips, ys, j - m));
    }
  }

  lemma AlikeSymmetric(base: Tree, a: Tree, b: Tree)
    requires Alike(base, a, b)
    ensures Alike(base, b, a)
  {
  }

  lemma Shows(e: Engine, base: Commit, tips: Tips, changes: seq<BranchChange>, t: Tree)
    requires Resolves(tips, changes)
    requires forall p :: LandsOn(base.tree, tips, changes, Serial(e, base, tips, changes).outs, p) ==> At(Serial(e, base, tips, changes).tree, p) == At(t, p)
    ensures ShowsIn(base, tips, changes, Serial(e, base, tips, changes), t)
  {
    hide Run, LandsOn;
    forall p | !LandsOn(base.tree, tips, changes, Serial(e, base, tips, changes).outs, p)
      ensures At(Serial(e, base, tips, changes).tree, p) == At(base.tree, p)
    {
      FoldStaysInDiffs(e, base.tree, base.tree, tips, changes, p);
    }
  }

  /** Two batches set apart, folded one after the other: each has the outcomes it
      has alone, and its own tree shows wherever it landed a change. */
  lemma FoldConcat(e: Engine, base: Commit, tips: Tips, xs: seq<BranchChange>, ys: seq<BranchChange>)
    requires Resolves(tips, xs) && Resolves(tips, ys) && ApartBatches(base, tips, xs, ys)
    ensures Resolves(tips, xs + ys)
    ensures Serial(e, base, tips, xs + ys).outs == Serial(e, base, tips, xs).outs + Serial(e, base, tips, ys).outs
    ensures ShowsIn(base, tips, xs, Serial(e, base, tips, xs), Serial(e, base, tips, xs + ys).tree)
    ensures ShowsIn(base, tips, ys, Serial(e, base, tips, ys), Serial(e, base, tips, xs + ys).tree)
  {
    hide Run, Select, Apart, LandsOn, ApartBatches, ShowsIn;
    var all, m := xs + ys, |xs|;
    var front, back := Range(m), Range(|all|) - Range(m);
    ApartHalves(base, tips, xs, ys);
    SelectPrefix(xs, ys, front);
    SelectSuffix(xs, ys, back);
    var full := Serial(e, base, tips, all);
    ApartAgrees(e, base, tips, all, front);
    ApartAgrees(e, base, tips, all, back);
    assert full.outs == full.outs[..m] + full.outs[m..];
    SelectPrefix(full.outs[..m], full.outs[m..], front);
    SelectSuffix(full.outs[..m], full.outs[m..], back);
    Shows(e, base, tips, xs, full.tree);
    Shows(e, base, tips, ys, full.tree);
  }

  lemma LandsConcat(base: Commit, tips: Tips, xs: seq<BranchChange>, os: seq<Outcome>, ys: seq<BranchChange>, qs: seq<Outcome>, p: Path)
    requires Resolves(tips, xs) && Resolves(tips, ys) && |os| == |xs| && |qs| == |ys|
    ensures Resolves(tips, xs + ys)
    ensures LandsOn(base.tree, tips, xs + ys, os + qs, p) <==> LandsOn(base.tree, tips, xs, os, p) || LandsOn(base.tree, tips, ys, qs, p)
  {
    var all, outs, m := xs + ys, os + qs, |xs|;
    assert forall i: nat :: i < m ==> outs[i] == os[i] && (ChangesAt(base.tree, tips, all, i, p) <==> ChangesAt(base.tree, tips, xs, i, p));
    forall j: nat | j < |ys|
      ensures outs[m + j] == qs[j] && (ChangesAt(base.tree, tips, all, m + j, p) <==> ChangesAt(base.tree, tips, ys, j, p))
    {
    }
    if i: nat :| i < |all| && outs[i].Landed? && ChangesAt(base.tree, tips, all, i, p) {
      if i >= m {
        assert ChangesAt(base.tree, tips, ys, i - m, p) && qs[i - m].Landed?;
      }
    }
  }

  // ---- some of the groups ----

  /** The regrouped fold against the whole batch's: the same outcome for every
      branch in it, the whole batch's tree wherever one of them landed a change,
      base elsewhere. */
  ghost predicate DoesItsPart(e: Engine, base: Commit, tips: Tips, changes: seq<BranchChange>, classes: seq<set<nat>>)
    requires Resolves(tips, changes)
  {
    var some, full := Regrouped(changes, classes), Serial(e, base, tips, changes);
    && Resolves(tips, some)
    && Serial(e, base, tips, some).outs == Concat(SelectAll(full.outs, classes))
    && ShowsIn(base, tips, some, Serial(e, base, tips, some), full.tree)
  }

  lemma LastApart(base: Commit, tips: Tips, changes: seq<BranchChange>, classes: seq<set<nat>>)
    requires Resolves(tips, changes) && Separate(base, tips, changes, classes) && classes != []
    ensures Separate(base, tips, changes, classes[..|classes| - 1])
    ensures Resolves(tips, Regrouped(changes, classes[..|classes| - 1])) && Resolves(tips, Select(changes, classes[|classes| - 1]))
    ensures ApartBatches(base, tips, Regrouped(changes, classes[..|classes| - 1]), Select(changes, classes[|classes| - 1]))
  {
    var n := |classes| - 1;
    var front, last := classes[..n], classes[n];
    var xs, ys := Regrouped(changes, front), Select(changes, last);
    RegroupedResolves(tips, changes, front);
    SelectResolves(tips, changes, last);
    assert Apart(base.tree, tips, changes, last);
    hide Regrouped, Select, Alike;
    forall a: nat, b: nat | a < |xs| && b < |ys|
      ensures xs[a].writeSet !! ys[b].writeSet && Alike(base.tree, Theirs(tips, xs, a), Theirs(tips, ys, b))
    {
      RegroupedMembers(changes, front, xs[a]);
      var k, i :| 0 <= k < |front| && 0 <= i < |changes| && i in front[k] && changes[i] == xs[a];
      SelectMembers(changes, last, ys[b]);
      var j :| 0 <= j < |changes| && j in last && changes[j] == ys[b];
      assert classes[k] !! classes[n];
      AlikeSymmetric(base.tree, Theirs(tips, changes, j), Theirs(tips, changes, i));
    }
  }

  lemma {:induction false} RegroupedDoesItsPart(e: Engine, base: Commit, tips: Tips, changes: seq<BranchChange>, classes: seq<set<nat>>)
    requires Resolves(tips, changes) && Separate(base, tips, changes, classes)
    ensures DoesItsPart(e, base, tips, changes, classes)
  {
    hide Run, Select, Apart, LandsOn;
    var full, some := Serial(e, base, tips, changes), Regrouped(changes, classes);
    RegroupedResolves(tips, changes, classes);
    if classes == [] {
      EmptyBatch(e, base, tips);
      Shows(e, base, tips, some, full.tree) by {
        NothingLandsOn(base, tips);
      }
    } else {
      var n := |classes| - 1;
      var front, last := classes[..n], classes[n];
      var xs, ys := Regrouped(changes, front), Select(changes, last);
      LastApart(base, tips, changes, classes);
      RegroupedDoesItsPart(e, base, tips, changes, front);
      assert SelectAll(changes, classes)[..n] == SelectAll(changes, front);
      assert SelectAll(full.outs, classes)[..n] == SelectAll(full.outs, front);
      assert some == xs + ys;
      ApartAgrees(e, base, tips, changes, last) by {
        assert Separate(base, tips, changes, classes);
      }
      Shows(e, base, tips, ys, full.tree);
      FoldConcat(e, base, tips, xs, ys);
      BothShow(e, base, tips, xs, ys, full.tree);
    }
  }

  lemma NothingLandsOn(base: Commit, tips: Tips)
    ensures forall p :: !LandsOn(base.tree, tips, [], [], p)
  {
  }

  lemma BothShow(e: Engine, base: Commit, tips: Tips, xs: seq<BranchChange>, ys: seq<BranchChange>, t: Tree)
    requires Resolves(tips, xs) && Resolves(tips, ys) && Resolves(tips, xs + ys)
    requires Serial(e, base, tips, xs + ys).outs == Serial(e, base, tips, xs).outs + Serial(e, base, tips, ys).outs
    requires ShowsIn(base, tips, xs, Serial(e, base, tips, xs), Serial(e, base, tips, xs + ys).tree)
    requires ShowsIn(base, tips, ys, Serial(e, base, tips, ys), Serial(e, base, tips, xs + ys).tree)
    requires ShowsIn(base, tips, xs, Serial(e, base, tips, xs), t) && ShowsIn(base, tips, ys, Serial(e, base, tips, ys), t)
    ensures ShowsIn(base, tips, xs + ys, Serial(e, base, tips, xs + ys), t)
  {
    hide Run, LandsOn;
    forall p | LandsOn(base.tree, tips, xs + ys, Serial(e, base, tips, xs + ys).outs, p)
      ensures At(Serial(e, base, tips, xs + ys).tree, p) == At(t, p)
    {
      LandsConcat(base, tips, xs, Serial(e, base, tips, xs).outs, ys, Serial(e, base, tips, ys).outs, p);
    }
    Shows(e, base, tips, xs + ys, t);
  }

  /** Where the regrouped batch landed a change, one of its classes did. */
  lemma {:induction false} LandsRegrouped(base: Commit, tips: Tips, changes: seq<BranchChange>, outs: seq<Outcome>, classes: seq<set<nat>>, p: Path)
    requires Resolves(tips, changes) && |outs| == |changes|
    ensures Resolves(tips, Regrouped(changes, classes)) && |Concat(SelectAll(outs, classes))| == |Regrouped(changes, classes)|
    ensures LandsOn(base.tree, tips, Regrouped(changes, classes), Concat(SelectAll(outs, classes)), p) <==>
            exists k :: 0 <= k < |classes| && LandsIn(base, tips, changes, outs, classes[k], p)
  {
    hide LandsOn, Select;
    RegroupedResolves(tips, changes, classes);
    if classes == [] {
      NothingLandsOn(base, tips);
    } else {
      var n := |classes| - 1;
      var front, last := classes[..n], classes[n];
      assert SelectAll(changes, classes)[..n] == SelectAll(changes, front);
      assert SelectAll(outs, classes)[..n] == SelectAll(outs, front);
      LandsRegrouped(base, tips, changes, outs, front, p);
      SelectResolves(tips, changes, last);
      SelectTogether(changes, outs, last);
      LandsConcat(base, tips, Regrouped(changes, front), Concat(SelectAll(outs, front)), Select(changes, last), Select(outs, last), p);
      assert forall k :: 0 <= k < n ==> front[k] == classes[k];
    }
  }

  /** A branch of the class landed a change of the path. */
  ghost predicate LandsIn(base: Commit, tips: Tips, changes: seq<BranchChange>, outs: seq<Outcome>, at: set<nat>, p: Path)
    requires Resolves(tips, changes) && |outs| == |changes|
  {
    && Resolves(tips, Select(changes, at)) && |Select(outs, at)| == |Select(changes, at)|
    && LandsOn(base.tree, tips, Select(changes, at), Select(outs, at), p)
  }
}
