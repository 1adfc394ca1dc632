/** Combining group heads that leave alike what two of them change, as disjoint
    ones do: a pairwise merge reduction, level by level, and its equality with the
    overlay of every head's diff. */
module Combine {
  import opened Git
  import opened Seqs
  import opened UnionFinds

  ghost predicate Disjoint(base: Tree, heads: seq<Commit>) {
    forall i, j :: 0 <= i < j < |heads| ==> DiffPaths(base, heads[i].tree) !! DiffPaths(base, heads[j].tree)
  }

  ghost predicate Changed(base: Tree, c: Commit, p: Path) {
    At(base, p) != At(c.tree, p)
  }

  lemma DisjointAt(base: Tree, heads: seq<Commit>)
    ensures Disjoint(base, heads) <==>
            forall i, j, p :: 0 <= i < j < |heads| && Changed(base, heads[i], p) ==> !Changed(base, heads[j], p)
  {
    forall i | 0 <= i < |heads|
      ensures forall p :: p in DiffPaths(base, heads[i].tree) <==> Changed(base, heads[i], p)
    {
    }
  }

  /** Heads that leave alike every path two of them change. */
  ghost predicate Agreeing(base: Tree, heads: seq<Commit>) {
    forall i, j, p :: 0 <= i < j < |heads| && Changed(base, heads[i], p) && Changed(base, heads[j], p) ==>
      At(heads[i].tree, p) == At(heads[j].tree, p)
  }

  lemma DisjointAgree(base: Tree, heads: seq<Commit>)
    requires Disjoint(base, heads)
    ensures Agreeing(base, heads)
  {
    DisjointAt(base, heads);
  }

  /** t is base with every head's changes, and nothing else. */
  ghost predicate Unites(base: Tree, heads: seq<Commit>, t: Tree) {
    && (forall i, p :: 0 <= i < |heads| && Changed(base, heads[i], p) ==> At(t, p) == At(heads[i].tree, p))
    && (forall p :: At(t, p) != At(base, p) ==> exists i :: 0 <= i < |heads| && Changed(base, heads[i], p))
  }

  lemma UnitesUnique(base: Tree, heads: seq<Commit>, s: Tree, t: Tree)
    requires Unites(base, heads, s) && Unites(base, heads, t)
    ensures s == t
  {
    forall p: Path
      ensures At(s, p) == At(t, p)
    {
      if i :| 0 <= i < |heads| && Changed(base, heads[i], p) {
        assert At(s, p) == At(heads[i].tree, p) == At(t, p);
      }
    }
    TreeExtensionality(s, t);
  }

  lemma UnitedAgree(base: Tree, heads: seq<Commit>, t: Tree)
    requires Unites(base, heads, t)
    ensures Agreeing(base, heads)
  {
  }

  /** Overlaying heads that agree unites them. */
  lemma {:induction false} OverlayUnites(base: Tree, heads: seq<Commit>)
    requires Agreeing(base, heads)
    ensures Unites(base, heads, OverlayTrees(base, heads))
  {
    hide ApplyDiff, DiffPaths;
    if heads != [] {
      var n := |heads| - 1;
      var front, t := heads[..n], OverlayTrees(base, heads[..n]);
      assert Agreeing(base, front);
      OverlayUnites(base, front);
      forall p
        ensures At(OverlayTrees(base, heads), p) == if Changed(base, heads[n], p) then At(heads[n].tree, p) else At(t, p)
      {
        ApplyDiffAt(t, base, heads[n].tree, p);
      }
      forall i, p | 0 <= i < |heads| && Changed(base, heads[i], p)
        ensures At(OverlayTrees(base, heads), p) == At(heads[i].tree, p)
      {
        if i < n {
          assert front[i] == heads[i];
        }
      }
      forall p | At(OverlayTrees(base, heads), p) != At(base, p)
        ensures exists i :: 0 <= i < |heads| && Changed(base, heads[i], p)
      {
        if !Changed(base, heads[n], p) {
          var i :| 0 <= i < n && Changed(base, front[i], p);
          assert Changed(base, heads[i], p);
        }
      }
    }
  }

  function MergeCommit(e: Engine, base: Tree, a: Commit, b: Commit): Commit {
    Commit(MergeTree(e, base, a.tree, b.tree).tree, [a, b], "sigbound: occ combine")
  }

  /** Two heads that agree merge cleanly into both their changes. */
  lemma AgreeingMerge(e: Engine, base: Tree, a: Commit, b: Commit)
    requires forall p :: Changed(base, a, p) && Changed(base, b, p) ==> At(a.tree, p) == At(b.tree, p)
    ensures MergeTree(e, base, a.tree, b.tree).conflicts == {}
    ensures Unites(base, [a, b], MergeCommit(e, base, a, b).tree)
  {
    hide MergeTree;
    forall p: Path
      ensures p !in MergeTree(e, base, a.tree, b.tree).conflicts
      ensures At(MergeCommit(e, base, a, b).tree, p) == if Changed(base, a, p) then At(a.tree, p) else At(b.tree, p)
    {
      MergeTreeAt(e, base, a.tree, b.tree, p);
      assert MergeAt(e, p, base, a.tree, b.tree).Clean?;
    }
    assert MergeTree(e, base, a.tree, b.tree).conflicts == {};
    assert [a, b][0] == a && [a, b][1] == b;
    forall p | At(MergeCommit(e, base, a, b).tree, p) != At(base, p)
      ensures exists i :: 0 <= i < |[a, b]| && Changed(base, [a, b][i], p)
    {
      assert Changed(base, [a, b][0], p) || Changed(base, [a, b][1], p);
    }
  }

  // ---- one level of the reduction ----

  function Paired(e: Engine, base: Tree, cur: seq<Commit>, k: nat): Commit
    requires 2 * k < |cur|
  {
    if 2 * k + 1 == |cur| then cur[2 * k] else MergeCommit(e, base, cur[2 * k], cur[2 * k + 1])
  }

  function Level(e: Engine, base: Tree, cur: seq<Commit>): seq<Commit> {
    seq((|cur| + 1) / 2, k requires 0 <= k < (|cur| + 1) / 2 => Paired(e, base, cur, k))
  }

  /** A slot of the next level holds the changes of its one or two heads. */
  lemma PairedUnites(e: Engine, base: Tree, cur: seq<Commit>, k: nat, p: Path)
    requires Agreeing(base, cur) && 2 * k < |cur|
    ensures 2 * k + 1 < |cur| ==> MergeTree(e, base, cur[2 * k].tree, cur[2 * k + 1].tree).conflicts == {}
    ensures Changed(base, cur[2 * k], p) ==> At(Paired(e, base, cur, k).tree, p) == At(cur[2 * k].tree, p)
    ensures 2 * k + 1 < |cur| && Changed(base, cur[2 * k + 1], p) ==>
              At(Paired(e, base, cur, k).tree, p) == At(cur[2 * k + 1].tree, p)
    ensures Changed(base, Paired(e, base, cur, k), p) <==>
            Changed(base, cur[2 * k], p) || (2 * k + 1 < |cur| && Changed(base, cur[2 * k + 1], p))
  {
    hide MergeTree;
    if 2 * k + 1 < |cur| {
      var a, b := cur[2 * k], cur[2 * k + 1];
      AgreeingMerge(e, base, a, b);
      assert [a, b][0] == a && [a, b][1] == b;
      if Changed(base, Paired(e, base, cur, k), p) {
        var i :| 0 <= i < |[a, b]| && Changed(base, [a, b][i], p);
      }
    }
  }

  /** A slot that changed a path reads there as one of its heads that did. */
  lemma PairedReads(e: Engine, base: Tree, cur: seq<Commit>, k: nat, p: Path) returns (i: nat)
    requires Agreeing(base, cur) && 2 * k < |cur| && Changed(base, Paired(e, base, cur, k), p)
    ensures i < |cur| && i / 2 == k && Changed(base, cur[i], p) && At(Paired(e, base, cur, k).tree, p) == At(cur[i].tree, p)
  {
    hide Paired;
    PairedUnites(e, base, cur, k, p);
    i := if Changed(base, cur[2 * k], p) then 2 * k else 2 * k + 1;
  }

  lemma LevelAgrees(e: Engine, base: Tree, cur: seq<Commit>)
    requires Agreeing(base, cur)
    ensures Agreeing(base, Level(e, base, cur))
  {
    hide Paired;
    var next := Level(e, base, cur);
    forall i, j, p | 0 <= i < j < |next| && Changed(base, next[i], p) && Changed(base, next[j], p)
      ensures At(next[i].tree, p) == At(next[j].tree, p)
    {
      var a := PairedReads(e, base, cur, i, p);
      var b := PairedReads(e, base, cur, j, p);
    }
  }

  /** A level neither loses nor adds a change. */
  lemma LevelUnites(e: Engine, base: Tree, cur: seq<Commit>, t: Tree)
    requires Agreeing(base, cur) && Unites(base, Level(e, base, cur), t)
    ensures Unites(base, cur, t)
  {
    hide Paired;
    var next := Level(e, base, cur);
    forall i, p | 0 <= i < |cur| && Changed(base, cur[i], p)
      ensures At(t, p) == At(cur[i].tree, p)
    {
      PairedUnites(e, base, cur, i / 2, p);
      assert next[i / 2] == Paired(e, base, cur, i / 2);
      assert i == 2 * (i / 2) || i == 2 * (i / 2) + 1;
      assert Changed(base, next[i / 2], p);
    }
    forall p | At(t, p) != At(base, p)
      ensures exists i :: 0 <= i < |cur| && Changed(base, cur[i], p)
    {
      var k :| 0 <= k < |next| && Changed(base, next[k], p);
      PairedUnites(e, base, cur, k, p);
    }
  }

  /** No pair of the level conflicts. */
  predicate LevelClean(e: Engine, base: Tree, cur: seq<Commit>) {
    forall k :: 0 <= k < |cur| / 2 ==> PairClean(e, base, cur, k)
  }

  predicate PairClean(e: Engine, base: Tree, cur: seq<Commit>, k: int)
    requires 0 <= k < |cur| / 2
  {
    MergeTree(e, base, cur[2 * k].tree, cur[2 * k + 1].tree).conflicts == {}
  }

  /** The conflicts of some pair of the level. */
  ghost predicate ClashIn(e: Engine, base: Tree, cur: seq<Commit>, conflicts: set<Path>) {
    conflicts != {} && exists k: nat :: k < |cur| / 2 && ClashAt(e, base, cur, k, conflicts)
  }

  ghost predicate ClashAt(e: Engine, base: Tree, cur: seq<Commit>, k: nat, conflicts: set<Path>)
    requires k < |cur| / 2
  {
    conflicts == MergeTree(e, base, cur[2 * k].tree, cur[2 * k + 1].tree).conflicts
  }

  lemma ClashDirties(e: Engine, base: Tree, cur: seq<Commit>, conflicts: set<Path>)
    requires ClashIn(e, base, cur, conflicts)
    ensures !LevelClean(e, base, cur)
  {
    hide MergeTree;
    var k: nat :| k < |cur| / 2 && ClashAt(e, base, cur, k, conflicts);
    assert !PairClean(e, base, cur, k);
  }

  /** The reduction, level by level; None when a pair conflicts on the way. */
  function Combined(e: Engine, base: Commit, cur: seq<Commit>): Option<Commit>
    decreases |cur|
  {
    if cur == [] then Some(base)
    else if |cur| == 1 then Some(cur[0])
    else if LevelClean(e, base.tree, cur) then Combined(e, base, Level(e, base.tree, cur))
    else None
  }

  /** Heads that agree reduce to the overlay, whatever the content merge. */
  lemma {:induction false} CombinedIsOverlay(e: Engine, base: Commit, cur: seq<Commit>)
    requires Agreeing(base.tree, cur)
    ensures Combined(e, base, cur).Some? && Combined(e, base, cur).value.tree == OverlayTrees(base.tree, cur)
    ensures Unites(base.tree, cur, Combined(e, base, cur).value.tree)
    decreases |cur|
  {
    hide Level, Agreeing, OverlayTrees, Unites, MergeTree;
    if cur == [] {
      EmptyOverlay(base.tree);
    } else if |cur| == 1 {
      OneHeadUnites(base.tree, cur);
    } else {
      AgreeingClean(e, base.tree, cur);
      LevelSize(e, base.tree, cur);
      LevelAgrees(e, base.tree, cur);
      CombinedIsOverlay(e, base, Level(e, base.tree, cur));
      LevelUnites(e, base.tree, cur, Combined(e, base, cur).value.tree);
    }
    OverlayUnites(base.tree, cur);
    UnitesUnique(base.tree, cur, Combined(e, base, cur).value.tree, OverlayTrees(base.tree, cur));
  }

  lemma AgreeingClean(e: Engine, base: Tree, cur: seq<Commit>)
    requires Agreeing(base, cur)
    ensures LevelClean(e, base, cur)
  {
    hide MergeTree;
    forall k | 0 <= k < |cur| / 2
      ensures PairClean(e, base, cur, k)
    {
      PairedUnites(e, base, cur, k, "");
    }
  }

  /** Where the content merge always conflicts, only heads that agree reduce. */
  lemma {:induction false} OnlyAgreeingCombine(e: Engine, base: Commit, cur: seq<Commit>)
    requires forall p, b, o, t :: e.content(p, b, o, t).Conflict?
    requires Combined(e, base, cur).Some?
    ensures Agreeing(base.tree, cur)
    decreases |cur|
  {
    hide MergeTree;
    if |cur| > 1 {
      var next := Level(e, base.tree, cur);
      OnlyAgreeingCombine(e, base, next);
      forall i, j, p | 0 <= i < j < |cur| && Changed(base.tree, cur[i], p) && Changed(base.tree, cur[j], p)
        ensures At(cur[i].tree, p) == At(cur[j].tree, p)
      {
        CleanPairShows(e, base.tree, cur, i, p);
        CleanPairShows(e, base.tree, cur, j, p);
      }
    }
  }

  lemma CleanPairShows(e: Engine, base: Tree, cur: seq<Commit>, i: nat, p: Path)
    requires forall p, b, o, t :: e.content(p, b, o, t).Conflict?
    requires LevelClean(e, base, cur) && i < |cur| && Changed(base, cur[i], p)
    ensures Changed(base, Level(e, base, cur)[i / 2], p) && At(Level(e, base, cur)[i / 2].tree, p) == At(cur[i].tree, p)
  {
    hide MergeTree;
    var k := i / 2;
    assert i == 2 * k || i == 2 * k + 1;
    if 2 * k + 1 < |cur| {
      assert PairClean(e, base, cur, k);
      MergeTreeAt(e, base, cur[2 * k].tree, cur[2 * k + 1].tree, p);
    }
  }

  /** Levels needed to reduce n heads to one. */
  function Levels(n: nat): nat {
    if n <= 1 then 0 else 1 + Levels((n + 1) / 2)
  }

  /** ...which is the ceiling of log2(n). */
  lemma {:induction false} LevelsIsCeilLog2(n: nat)
    requires n >= 1
    ensures n <= Pow2(Levels(n))
    ensures n > 1 ==> Pow2(Levels(n) - 1) < n
  {
    if n > 2 {
      LevelsIsCeilLog2((n + 1) / 2);
    }
  }

  lemma LevelAncestry(e: Engine, base: Tree, cur: seq<Commit>, c: Commit, i: nat)
    requires i < |cur| && IsAncestor(c, cur[i])
    ensures IsAncestor(c, Level(e, base, cur)[i / 2])
  {
    var m := Level(e, base, cur)[i / 2];
    assert i == 2 * (i / 2) || i == 2 * (i / 2) + 1;
    if 2 * (i / 2) + 1 < |cur| {
      assert m.parents[i % 2] == cur[i];
    }
  }

  ghost predicate AllReach(heads: seq<Commit>, cur: seq<Commit>) {
    forall h <- heads :: Reaches(h, cur)
  }

  ghost predicate Reaches(h: Commit, cur: seq<Commit>) {
    exists i :: 0 <= i < |cur| && IsAncestor(h, cur[i])
  }

  datatype CombineError = PartitionInvariantViolated(conflicts: set<Path>)

  /** One level, its pairs merged in any order, each into its own slot. The
      first conflict met is reported instead. */
  method MergeLevel(e: Engine, base: Commit, cur: seq<Commit>) returns (r: Result<seq<Commit>, CombineError>)
    requires |cur| > 1
    ensures r.Ok? <==> LevelClean(e, base.tree, cur)
    ensures r.Ok? ==> r.value == Level(e, base.tree, cur)
    ensures r.Err? ==> ClashIn(e, base.tree, cur, r.error.conflicts)
  {
    hide MergeTree;
    var n := (|cur| + 1) / 2;
    var next := seq(n, k => base);
    var pending := Range(n);
    var firstErr: Option<CombineError> := None;
    while pending != {}
      invariant |next| == n && forall k <- pending :: k < n
      invariant firstErr.Some? ==> ClashIn(e, base.tree, cur, firstErr.value.conflicts)
      invariant firstErr.None? ==> forall k: nat :: k < n && k !in pending ==> next[k] == Paired(e, base.tree, cur, k)
      invariant firstErr.None? ==> forall k: nat :: k < |cur| / 2 && k !in pending ==> PairClean(e, base.tree, cur, k)
      decreases pending
    {
      var k :| k in pending;
      pending := pending - {k};
      if 2 * k + 1 == |cur| {
        next := next[k := cur[2 * k]];
      } else {
        var a, b := cur[2 * k], cur[2 * k + 1];
        var mt := MergeTree(e, base.tree, a.tree, b.tree);
        if mt.conflicts != {} {
          assert !PairClean(e, base.tree, cur, k) && ClashAt(e, base.tree, cur, k, mt.conflicts);
          if firstErr.None? {
            firstErr := Some(PartitionInvariantViolated(mt.conflicts));
          }
        } else {
          next := next[k := Commit(mt.tree, [a, b], "sigbound: occ combine")];
        }
      }
    }
    if firstErr.Some? {
      ClashDirties(e, base.tree, cur, firstErr.value.conflicts);
      return Err(firstErr.value);
    }
    assert next == Level(e, base.tree, cur);
    return Ok(next);
  }

  /** Fold heads into one commit, or fail at the first conflicting level. Heads
      that agree never conflict and give exactly the overlay's tree, in
      ceil(log2 n) levels, with every head an ancestor. */
  method CombineDisjoint(e: Engine, base: Commit, heads: seq<Commit>) returns (r: Result<Commit, CombineError>, levels: nat)
    ensures r.Ok? <==> Combined(e, base, heads).Some?
    ensures r.Ok? ==> r.value == Combined(e, base, heads).value
    ensures r.Err? ==> r.error.conflicts != {}
    ensures Agreeing(base.tree, heads) ==> r.Ok? && r.value.tree == OverlayTrees(base.tree, heads)
    ensures r.Ok? ==> levels == Levels(|heads|)
    ensures r.Ok? && heads == [] ==> r.value == base
    ensures r.Ok? && |heads| == 1 ==> r.value == heads[0]
    ensures r.Ok? ==> forall h <- heads :: IsAncestor(h, r.value)
  {
    if Agreeing(base.tree, heads) {
      CombinedIsOverlay(e, base, heads);
    }
    hide OverlayTrees, Level, LevelClean, Agreeing;
    var cur := heads;
    levels := 0;
    HeadsReachThemselves(heads);
    while |cur| > 1
      invariant heads == [] ==> cur == []
      invariant |heads| >= 1 ==> |cur| >= 1
      invariant |heads| == 1 ==> cur == heads
      invariant Combined(e, base, cur) == Combined(e, base, heads)
      invariant AllReach(heads, cur)
      invariant levels + Levels(|cur|) == Levels(|heads|)
      decreases |cur|
    {
      var next := MergeLevel(e, base, cur);
      if next.Err? {
        return Err(next.error), levels;
      }
      LevelReaches(e, base.tree, heads, cur);
      assert |next.value| == (|cur| + 1) / 2 by {
        LevelSize(e, base.tree, cur);
      }
      cur := next.value;
      levels := levels + 1;
    }
    if |cur| == 0 {
      return Ok(base), levels;
    }
    forall h <- heads
      ensures IsAncestor(h, cur[0])
    {
      assert Reaches(h, cur);
    }
    r := Ok(cur[0]);
  }

  lemma LevelSize(e: Engine, base: Tree, cur: seq<Commit>)
    ensures |Level(e, base, cur)| == (|cur| + 1) / 2
  {
  }

  lemma EmptyOverlay(base: Tree)
    ensures OverlayTrees(base, []) == base
  {
  }

  lemma OneHeadUnites(base: Tree, cur: seq<Commit>)
    requires |cur| == 1
    ensures Unites(base, cur, cur[0].tree)
  {
    forall p | At(cur[0].tree, p) != At(base, p)
      ensures exists i :: 0 <= i < |cur| && Changed(base, cur[i], p)
    {
      assert Changed(base, cur[0], p);
    }
  }

  lemma HeadsReachThemselves(heads: seq<Commit>)
    ensures AllReach(heads, heads)
  {
    forall h <- heads
      ensures Reaches(h, heads)
    {
      var i :| 0 <= i < |heads| && heads[i] == h;
      assert IsAncestor(h, heads[i]);
    }
  }

  lemma LevelReaches(e: Engine, base: Tree, heads: seq<Commit>, cur: seq<Commit>)
    requires AllReach(heads, cur)
    ensures AllReach(heads, Level(e, base, cur))
  {
    forall h <- heads
      ensures Reaches(h, Level(e, base, cur))
    {
      assert Reaches(h, cur);
      var i :| 0 <= i < |cur| && IsAncestor(h, cur[i]);
      LevelAncestry(e, base, cur, h, i);
    }
  }

  // ---- any bracketing ----

  /** A way to merge heads two at a time. */
  datatype Bracketing = One(head: Commit) | Two(left: Bracketing, right: Bracketing)

  function HeadsOf(b: Bracketing): seq<Commit> {
    match b
    case One(h) => [h]
    case Two(l, r) => HeadsOf(l) + HeadsOf(r)
  }

  function MergeAll(e: Engine, base: Tree, b: Bracketing): Commit {
    match b
    case One(h) => h
    case Two(l, r) => MergeCommit(e, base, MergeAll(e, base, l), MergeAll(e, base, r))
  }

  ghost predicate NeverConflicts(e: Engine, base: Tree, b: Bracketing) {
    b.Two? ==>
      && MergeTree(e, base, MergeAll(e, base, b.left).tree, MergeAll(e, base, b.right).tree).conflicts == {}
      && NeverConflicts(e, base, b.left) && NeverConflicts(e, base, b.right)
  }

  lemma {:induction false} BracketingUnites(e: Engine, base: Tree, b: Bracketing)
    requires Agreeing(base, HeadsOf(b))
    ensures NeverConflicts(e, base, b) && Unites(base, HeadsOf(b), MergeAll(e, base, b).tree)
  {
    hide MergeTree, OverlayTrees;
    match b
    case One(h) => OneHeadUnites(base, HeadsOf(b));
    case Two(l, r) =>
      var ls, rs := HeadsOf(l), HeadsOf(r);
      assert forall i :: 0 <= i < |ls| ==> ls[i] == HeadsOf(b)[i];
      assert forall i :: 0 <= i < |rs| ==> rs[i] == HeadsOf(b)[|ls| + i];
      BracketingUnites(e, base, l);
      BracketingUnites(e, base, r);
      UniteTwo(e, base, ls, rs, MergeAll(e, base, l), MergeAll(e, base, r));
  }

  lemma UniteTwo(e: Engine, base: Tree, ls: seq<Commit>, rs: seq<Commit>, a: Commit, b: Commit)
    requires Unites(base, ls, a.tree) && Unites(base, rs, b.tree)
    requires Agreeing(base, ls + rs)
    ensures MergeTree(e, base, a.tree, b.tree).conflicts == {}
    ensures Unites(base, ls + rs, MergeCommit(e, base, a, b).tree)
  {
    hide MergeTree;
    var heads, t := ls + rs, MergeCommit(e, base, a, b).tree;
    forall p | Changed(base, a, p) && Changed(base, b, p)
      ensures At(a.tree, p) == At(b.tree, p)
    {
      var i :| 0 <= i < |ls| && Changed(base, ls[i], p);
      var j :| 0 <= j < |rs| && Changed(base, rs[j], p);
      assert heads[i] == ls[i] && heads[|ls| + j] == rs[j];
    }
    AgreeingMerge(e, base, a, b);
    assert [a, b][0] == a && [a, b][1] == b;
    forall i, p | 0 <= i < |heads| && Changed(base, heads[i], p)
      ensures At(t, p) == At(heads[i].tree, p)
    {
      if i < |ls| {
        assert heads[i] == ls[i] && Changed(base, [a, b][0], p);
      } else {
        assert heads[i] == rs[i - |ls|] && Changed(base, [a, b][1], p);
      }
    }
    forall p | At(t, p) != At(base, p)
      ensures exists i :: 0 <= i < |heads| && Changed(base, heads[i], p)
    {
      var k :| 0 <= k < 2 && Changed(base, [a, b][k], p);
      if k == 0 {
        var i :| 0 <= i < |ls| && Changed(base, ls[i], p);
        assert heads[i] == ls[i];
      } else {
        var j :| 0 <= j < |rs| && Changed(base, rs[j], p);
        assert heads[|ls| + j] == rs[j];
      }
    }
  }

  /** However heads that agree are paired up, no merge conflicts and the tree is
      the overlay of all of them. */
  lemma EveryBracketingIsTheOverlay(e: Engine, base: Tree, b: Bracketing)
    requires Agreeing(base, HeadsOf(b))
    ensures NeverConflicts(e, base, b)
    ensures MergeAll(e, base, b).tree == OverlayTrees(base, HeadsOf(b))
  {
    BracketingUnites(e, base, b);
    OverlayUnites(base, HeadsOf(b));
    UnitesUnique(base, HeadsOf(b), MergeAll(e, base, b).tree, OverlayTrees(base, HeadsOf(b)));
  }
}
