/** The serial fold every strategy is built from: merge each branch onto a tree
    accumulator, resolve or flag what conflicts, commit once at the end. */
module Fold {
  import opened Git
  import opened Seqs
  import opened WriteSets
  import opened Partition

  /** What became of one branch. `overlapped`: a path of its write-set had
      already been landed by an earlier branch. */
  datatype Outcome =
    | Landed(branch: string, overlapped: bool)
    | Flagged(branch: string, conflicts: set<Path>)

  datatype BranchResult = BranchResult(branch: string, conflicts: set<Path>)

  /** Branch name to the commit it points at. */
  type Tips = map<string, Commit>

  predicate Resolves(tips: Tips, changes: seq<BranchChange>) {
    forall bc <- changes :: bc.branch in tips
  }

  // ---- specification: one outcome per branch, in order ----

  datatype FoldState = FoldState(tree: Tree, paths: set<Path>, outs: seq<Outcome>)

  /** The resolver's answer for one conflicted path. */
  function Answer(e: Engine, p: Path, base: Tree, ours: Tree, theirs: Tree): Option<string> {
    if e.resolver.None? then None
    else e.resolver.value(p, ContentOf(At(base, p)), ContentOf(At(ours, p)), ContentOf(At(theirs, p)))
  }

  /** A resolution counts only when every conflicted path is answered. */
  predicate Resolvable(e: Engine, base: Tree, ours: Tree, theirs: Tree, conflicts: set<Path>) {
    forall p <- conflicts :: Answer(e, p, base, ours, theirs).Some?
  }

  function Bodies(e: Engine, base: Tree, ours: Tree, theirs: Tree, conflicts: set<Path>): map<Path, string>
    requires Resolvable(e, base, ours, theirs, conflicts)
  {
    map p | p in conflicts :: Answer(e, p, base, ours, theirs).value
  }

  /** The tree after merging `theirs`, or None when the branch is flagged. */
  function Merge(e: Engine, base: Tree, ours: Tree, theirs: Tree): Option<Tree> {
    var mt := MergeTree(e, base, ours, theirs);
    if !Resolvable(e, base, ours, theirs, mt.conflicts) then None
    else Some(SpliceBlobs(mt.tree, Bodies(e, base, ours, theirs, mt.conflicts)))
  }

  function Conflicts(e: Engine, base: Tree, ours: Tree, theirs: Tree): set<Path> {
    MergeTree(e, base, ours, theirs).conflicts
  }

  function Step(e: Engine, base: Tree, s: FoldState, bc: BranchChange, theirs: Tree): FoldState {
    match Merge(e, base, s.tree, theirs)
    case None => s.(outs := s.outs + [Flagged(bc.branch, Conflicts(e, base, s.tree, theirs))])
    case Some(t) =>
      FoldState(t, s.paths + bc.writeSet, s.outs + [Landed(bc.branch, bc.writeSet * s.paths != {})])
  }

  function Run(e: Engine, base: Tree, acc: Tree, tips: Tips, changes: seq<BranchChange>): (s: FoldState)
    requires Resolves(tips, changes)
    ensures |s.outs| == |changes|
  {
    if changes == [] then FoldState(acc, {}, [])
    else
      var n := |changes| - 1;
      assert changes[n] in changes;
      Step(e, base, Run(e, base, acc, tips, changes[..n]), changes[n], tips[changes[n].branch].tree)
  }

  // ---- what the outcomes amount to ----

  function LandedIn(o: Outcome): seq<string> {
    if o.Landed? then [o.branch] else []
  }

  function FlaggedIn(o: Outcome): seq<BranchResult> {
    if o.Flagged? then [BranchResult(o.branch, o.conflicts)] else []
  }

  function OverlappedIn(o: Outcome): seq<string> {
    if o.Landed? && o.overlapped then [o.branch] else []
  }

  function LandedOf(outs: seq<Outcome>): seq<string> {
    FlatMap(LandedIn, outs)
  }

  function FlaggedOf(outs: seq<Outcome>): seq<BranchResult> {
    FlatMap(FlaggedIn, outs)
  }

  function AutoMergedOf(outs: seq<Outcome>): nat {
    |FlatMap(OverlappedIn, outs)|
  }

  /** The reports go outcome by outcome, in order: a landed branch under its
      name, a flagged one with its conflicts, each in one report and once. */
  lemma ReportsRead(a: seq<Outcome>, o: Outcome, b: seq<Outcome>)
    ensures LandedOf(a + [o] + b) == LandedOf(a) + (if o.Landed? then [o.branch] else []) + LandedOf(b)
    ensures FlaggedOf(a + [o] + b) == FlaggedOf(a) + (if o.Flagged? then [BranchResult(o.branch, o.conflicts)] else []) + FlaggedOf(b)
    ensures LandedOf([]) == [] && FlaggedOf([]) == []
  {
    FlatMapConcat(LandedIn, a + [o], b);
    FlatMapSnoc(LandedIn, a, o);
    FlatMapConcat(FlaggedIn, a + [o], b);
    FlatMapSnoc(FlaggedIn, a, o);
  }

  /** Every landed branch resolves, so the commit can name its tip as parent. */
  lemma {:induction false} LandedResolve(e: Engine, base: Tree, acc: Tree, tips: Tips, changes: seq<BranchChange>)
    requires Resolves(tips, changes)
    ensures forall b <- LandedOf(Run(e, base, acc, tips, changes).outs) :: b in tips
  {
    hide Merge, Conflicts;
    if changes != [] {
      var n := |changes| - 1;
      LandedResolve(e, base, acc, tips, changes[..n]);
      var s := Run(e, base, acc, tips, changes[..n]);
      FlatMapSnoc(LandedIn, s.outs, Run(e, base, acc, tips, changes).outs[n]);
      assert changes[n] in changes;
    }
  }

  // ---- what the outcomes say ----

  /** A landed branch with a recorded path that an earlier landed branch has too. */
  ghost predicate Overlaps(changes: seq<BranchChange>, outs: seq<Outcome>, i: nat)
    requires |outs| == |changes|
  {
    i < |changes| && outs[i].Landed? &&
    exists j: nat :: j < i && outs[j].Landed? && changes[j].writeSet * changes[i].writeSet != {}
  }

  ghost predicate InLanded(changes: seq<BranchChange>, outs: seq<Outcome>, n: nat, p: Path)
    requires |outs| == |changes| && n <= |changes|
  {
    exists j: nat :: j < n && outs[j].Landed? && p in changes[j].writeSet
  }

  lemma {:induction false} PathsAreLanded(e: Engine, base: Tree, acc: Tree, tips: Tips, changes: seq<BranchChange>, p: Path)
    requires Resolves(tips, changes)
    ensures p in Run(e, base, acc, tips, changes).paths <==> InLanded(changes, Run(e, base, acc, tips, changes).outs, |changes|, p)
  {
    if changes != [] {
      var n := |changes| - 1;
      var front := changes[..n];
      assert changes == front + [changes[n]];
      RunSnoc(e, base, acc, tips, front, changes[n]);
      hide Run, Merge, Conflicts;
      PathsAreLanded(e, base, acc, tips, front, p);
      var s, s' := Run(e, base, acc, tips, front), Run(e, base, acc, tips, changes);
      assert s'.outs == s.outs + [s'.outs[n]];
      assert InLanded(changes, s'.outs, n, p) <==> InLanded(front, s.outs, n, p) by {
        assert forall j: nat :: j < n ==> s'.outs[j] == s.outs[j] && changes[j] == front[j];
      }
      assert InLanded(changes, s'.outs, n + 1, p) <==> InLanded(changes, s'.outs, n, p) || (s'.outs[n].Landed? && p in changes[n].writeSet);
    }
  }

  /** One branch in its turn, on the tree the branches before it left: it lands
      when every conflicted path is answered, and then each path reads as its
      merge, answers spliced in; otherwise it is flagged with exactly the
      conflicted paths, and the tree stays. It overlaps when it lands and an
      earlier landed branch has recorded one of its paths. */
  lemma OutcomeAt(e: Engine, base: Tree, acc: Tree, tips: Tips, changes: seq<BranchChange>, i: nat)
    requires Resolves(tips, changes) && i < |changes|
    ensures Resolves(tips, changes[..i]) && Resolves(tips, changes[..i + 1]) && changes[i].branch in tips
    ensures var o, ours, theirs := Run(e, base, acc, tips, changes).outs[i], Run(e, base, acc, tips, changes[..i]).tree, tips[changes[i].branch].tree;
            var after := Run(e, base, acc, tips, changes[..i + 1]).tree;
            && o.branch == changes[i].branch
            && (o.Landed? <==> forall p :: MergeAt(e, p, base, ours, theirs).Conflict? ==> Answer(e, p, base, ours, theirs).Some?)
            && (o.Landed? ==> forall p :: At(after, p) == MergedAt(e, p, base, ours, theirs))
            && (o.Landed? ==> (o.overlapped <==> Overlaps(changes, Run(e, base, acc, tips, changes).outs, i)))
            && (o.Flagged? ==> after == ours && forall p :: p in o.conflicts <==> MergeAt(e, p, base, ours, theirs).Conflict?)
  {
    var full := Run(e, base, acc, tips, changes);
    ReportsGrow(e, base, acc, tips, changes, i);
    OutsStay(e, base, acc, tips, changes, i);
    OutsStay(e, base, acc, tips, changes, i + 1);
    var s, s' := Run(e, base, acc, tips, changes[..i]), Run(e, base, acc, tips, changes[..i + 1]);
    var theirs := tips[changes[i].branch].tree;
    hide Run;
    assert full.outs[i] == s'.outs[i];
    forall p
      ensures p in Conflicts(e, base, s.tree, theirs) <==> MergeAt(e, p, base, s.tree, theirs).Conflict?
    {
      MergeTreeAt(e, base, s.tree, theirs, p);
    }
    MergeDecides(e, base, s.tree, theirs);
    hide Conflicts, Merge, MergedAt, Answer;
    if full.outs[i].Landed? {
      forall p
        ensures At(s'.tree, p) == MergedAt(e, p, base, s.tree, theirs)
      {
        MergeReadsAt(e, base, s.tree, theirs, p);
      }
      OverlappedIff(e, base, acc, tips, changes, i);
    }
  }

  lemma {:induction false} OutsStay(e: Engine, base: Tree, acc: Tree, tips: Tips, changes: seq<BranchChange>, i: nat)
    requires Resolves(tips, changes) && i <= |changes|
    ensures Resolves(tips, changes[..i]) && Run(e, base, acc, tips, changes[..i]).outs == Run(e, base, acc, tips, changes).outs[..i]
  {
    if i < |changes| {
      var n := |changes| - 1;
      var front := changes[..n];
      assert changes == front + [changes[n]] && front[..i] == changes[..i];
      RunSnoc(e, base, acc, tips, front, changes[n]);
      hide Run, Merge, Conflicts;
      OutsStay(e, base, acc, tips, front, i);
    } else {
      assert changes[..i] == changes;
    }
  }

  lemma OverlappedIff(e: Engine, base: Tree, acc: Tree, tips: Tips, changes: seq<BranchChange>, i: nat)
    requires Resolves(tips, changes) && i < |changes| && Run(e, base, acc, tips, changes).outs[i].Landed?
    ensures Run(e, base, acc, tips, changes).outs[i].overlapped <==> Overlaps(changes, Run(e, base, acc, tips, changes).outs, i)
  {
    hide Run, Merge, Conflicts, Overlaps;
    var full := Run(e, base, acc, tips, changes);
    ReportsGrow(e, base, acc, tips, changes, i);
    OutsStay(e, base, acc, tips, changes, i + 1);
    var s := Run(e, base, acc, tips, changes[..i]);
    assert full.outs[i].overlapped <==> changes[i].writeSet * s.paths != {};
    forall p
      ensures p in s.paths <==> exists j: nat :: j < i && full.outs[j].Landed? && p in changes[j].writeSet
    {
      PathsLandedBefore(e, base, acc, tips, changes, i, p);
    }
    MeetsSome(changes, full.outs, i, s.paths);
  }

  lemma PathsLandedBefore(e: Engine, base: Tree, acc: Tree, tips: Tips, changes: seq<BranchChange>, i: nat, p: Path)
    requires Resolves(tips, changes) && i <= |changes|
    ensures Resolves(tips, changes[..i])
    ensures p in Run(e, base, acc, tips, changes[..i]).paths <==> InLanded(changes, Run(e, base, acc, tips, changes).outs, i, p)
  {
    hide Run;
    OutsStay(e, base, acc, tips, changes, i);
    PathsAreLanded(e, base, acc, tips, changes[..i], p);
    var outs := Run(e, base, acc, tips, changes).outs;
    assert forall j: nat :: j < i ==> outs[..i][j] == outs[j] && changes[..i][j] == changes[j];
  }

  lemma MeetsSome(changes: seq<BranchChange>, outs: seq<Outcome>, i: nat, paths: set<Path>)
    requires |outs| == |changes| && i < |changes| && outs[i].Landed?
    requires forall p :: p in paths <==> exists j: nat :: j < i && outs[j].Landed? && p in changes[j].writeSet
    ensures changes[i].writeSet * paths != {} <==> Overlaps(changes, outs, i)
  {
    if p :| p in changes[i].writeSet * paths {
      var j: nat :| j < i && outs[j].Landed? && p in changes[j].writeSet;
      assert p in changes[j].writeSet * changes[i].writeSet;
    }
    if j: nat :| j < i && outs[j].Landed? && changes[j].writeSet * changes[i].writeSet != {} {
      var p :| p in changes[j].writeSet * changes[i].writeSet;
      assert p in changes[i].writeSet * paths;
    }
  }

  /** How many branches overlap. */
  ghost function OverlapCount(changes: seq<BranchChange>, outs: seq<Outcome>): nat
    requires |outs| == |changes|
  {
    |set i: nat | i < |changes| && Overlaps(changes, outs, i)|
  }

  /** The auto-merge count is the number of branches that overlap. */
  lemma AutoMergesAreOverlaps(e: Engine, base: Tree, acc: Tree, tips: Tips, changes: seq<BranchChange>)
    requires Resolves(tips, changes)
    ensures AutoMergedOf(Run(e, base, acc, tips, changes).outs) == OverlapCount(changes, Run(e, base, acc, tips, changes).outs)
  {
    var outs := Run(e, base, acc, tips, changes).outs;
    forall i: nat | i < |changes|
      ensures Overlaps(changes, outs, i) <==> outs[i].Landed? && outs[i].overlapped
    {
      if outs[i].Landed? {
        OverlappedIff(e, base, acc, tips, changes, i);
      }
    }
    hide Run, Overlaps;
    CountOverlapped(outs);
    assert (set i: nat | i < |changes| && Overlaps(changes, outs, i)) == set i: nat | i < |outs| && outs[i].Landed? && outs[i].overlapped;
  }

  lemma {:induction false} CountOverlapped(outs: seq<Outcome>)
    ensures AutoMergedOf(outs) == |set i: nat | i < |outs| && outs[i].Landed? && outs[i].overlapped|
  {
    if outs != [] {
      var n := |outs| - 1;
      CountOverlapped(outs[..n]);
      var before, all := (set i: nat | i < n && outs[..n][i].Landed? && outs[..n][i].overlapped),
                         (set i: nat | i < |outs| && outs[i].Landed? && outs[i].overlapped);
      assert all == before + if outs[n].Landed? && outs[n].overlapped then {n} else {};
    }
  }

  // ---- path-locality ----

  ghost predicate Agree(s: Tree, t: Tree, w: set<Path>) {
    forall p :: p in w ==> At(s, p) == At(t, p)
  }

  /** The change recorded for a branch covers its two-tree diff from base. */
  ghost predicate CoversDiff(base: Tree, theirs: Tree, bc: BranchChange) {
    DiffPaths(base, theirs) <= bc.writeSet
  }

  ghost predicate AllCover(base: Tree, tips: Tips, changes: seq<BranchChange>)
    requires Resolves(tips, changes)
  {
    forall i :: 0 <= i < |changes| ==> CoversDiff(base, tips[changes[i].branch].tree, changes[i])
  }

  function MergedAt(e: Engine, p: Path, base: Tree, ours: Tree, theirs: Tree): Option<Entry> {
    match MergeAt(e, p, base, ours, theirs)
    case Clean(x) => x
    case Conflict(x) =>
      var body := Answer(e, p, base, ours, theirs);
      if body.None? then x
      else Some(Entry(if x.Some? then x.value.mode else DEFAULT_MODE, body.value))
  }

  lemma MergeReadsAt(e: Engine, base: Tree, ours: Tree, theirs: Tree, p: Path)
    requires Merge(e, base, ours, theirs).Some?
    ensures At(Merge(e, base, ours, theirs).value, p) == MergedAt(e, p, base, ours, theirs)
  {
    MergeTreeAt(e, base, ours, theirs, p);
  }

  /** A merge moves only paths the branch changed, and conflicts only there. */
  lemma MergeStaysInDiff(e: Engine, base: Tree, ours: Tree, theirs: Tree)
    ensures Conflicts(e, base, ours, theirs) <= DiffPaths(base, theirs)
    ensures Merge(e, base, ours, theirs).Some? ==>
              forall p :: p !in DiffPaths(base, theirs) ==> At(Merge(e, base, ours, theirs).value, p) == At(ours, p)
  {
    forall p | p !in DiffPaths(base, theirs)
      ensures p !in Conflicts(e, base, ours, theirs)
      ensures Merge(e, base, ours, theirs).Some? ==> At(Merge(e, base, ours, theirs).value, p) == At(ours, p)
    {
      assert At(base, p) == At(theirs, p);
      MergeTreeAt(e, base, ours, theirs, p);
      if Merge(e, base, ours, theirs).Some? {
        MergeReadsAt(e, base, ours, theirs, p);
      }
    }
  }

  lemma MergeDecides(e: Engine, base: Tree, ours: Tree, theirs: Tree)
    ensures Merge(e, base, ours, theirs).Some? <==>
            forall p <- Conflicts(e, base, ours, theirs) :: Answer(e, p, base, ours, theirs).Some?
  {
  }

  /** Inside w the two sides read the same, outside neither branch changed. */
  lemma ConflictsAreLocal(e: Engine, base: Tree, ours: Tree, theirs: Tree, base': Tree, ours': Tree, theirs': Tree, w: set<Path>)
    requires Agree(base, base', w) && Agree(ours, ours', w) && Agree(theirs, theirs', w)
    requires DiffPaths(base, theirs) <= w && DiffPaths(base', theirs') <= w
    ensures Conflicts(e, base, ours, theirs) == Conflicts(e, base', ours', theirs') <= w
  {
    MergeStaysInDiff(e, base, ours, theirs);
    MergeStaysInDiff(e, base', ours', theirs');
    forall p
      ensures p in Conflicts(e, base, ours, theirs) <==> p in Conflicts(e, base', ours', theirs')
    {
      MergeTreeAt(e, base, ours, theirs, p);
      MergeTreeAt(e, base', ours', theirs', p);
      if p in w {
        assert MergeAt(e, p, base, ours, theirs) == MergeAt(e, p, base', ours', theirs');
      }
    }
  }

  lemma AnswersAreLocal(e: Engine, p: Path, base: Tree, ours: Tree, theirs: Tree, base': Tree, ours': Tree, theirs': Tree)
    requires At(base, p) == At(base', p) && At(ours, p) == At(ours', p) && At(theirs, p) == At(theirs', p)
    ensures Answer(e, p, base, ours, theirs) == Answer(e, p, base', ours', theirs')
    ensures MergedAt(e, p, base, ours, theirs) == MergedAt(e, p, base', ours', theirs')
  {
  }

  /** Merging a branch whose changes lie inside w reads and writes only w. */
  lemma MergeIsLocal(e: Engine, base: Tree, ours: Tree, theirs: Tree, base': Tree, ours': Tree, theirs': Tree, w: set<Path>)
    requires Agree(base, base', w) && Agree(ours, ours', w) && Agree(theirs, theirs', w)
    requires DiffPaths(base, theirs) <= w && DiffPaths(base', theirs') <= w
    ensures Conflicts(e, base, ours, theirs) == Conflicts(e, base', ours', theirs')
    ensures Merge(e, base, ours, theirs).Some? <==> Merge(e, base', ours', theirs').Some?
    ensures Merge(e, base, ours, theirs).Some? ==> Agree(Merge(e, base, ours, theirs).value, Merge(e, base', ours', theirs').value, w)
  {
    hide Merge, Conflicts, MergeTree, DiffPaths, Answer, MergedAt, At;
    ConflictsAreLocal(e, base, ours, theirs, base', ours', theirs', w);
    MergeDecides(e, base, ours, theirs);
    MergeDecides(e, base', ours', theirs');
    forall p | p in w
      ensures Answer(e, p, base, ours, theirs) == Answer(e, p, base', ours', theirs')
      ensures MergedAt(e, p, base, ours, theirs) == MergedAt(e, p, base', ours', theirs')
    {
      AnswersAreLocal(e, p, base, ours, theirs, base', ours', theirs');
    }
    if Merge(e, base, ours, theirs).Some? {
      forall p | p in w
        ensures At(Merge(e, base, ours, theirs).value, p) == At(Merge(e, base', ours', theirs').value, p)
      {
        MergeReadsAt(e, base, ours, theirs, p);
        MergeReadsAt(e, base', ours', theirs', p);
      }
    }
  }

  /** What a branch can touch: the paths recorded for it, and those it differs
      from base on. The record may be short of the second. */
  ghost function Foot(base: Tree, theirs: Tree, bc: BranchChange): set<Path> {
    bc.writeSet + DiffPaths(base, theirs)
  }

  ghost function FootAt(base: Tree, tips: Tips, changes: seq<BranchChange>, i: nat): set<Path>
    requires Resolves(tips, changes) && i < |changes|
  {
    assert changes[i] in changes;
    Foot(base, tips[changes[i].branch].tree, changes[i])
  }

  /** What the branches at the selected positions can touch lies inside w, what
      the others can outside. */
  ghost predicate Isolated(base: Tree, tips: Tips, changes: seq<BranchChange>, at: set<nat>, w: set<Path>)
    requires Resolves(tips, changes)
  {
    forall i: nat :: i < |changes| ==>
      if i in at then FootAt(base, tips, changes, i) <= w else FootAt(base, tips, changes, i) !! w
  }

  lemma CoveredFoot(base: Tree, tips: Tips, changes: seq<BranchChange>, i: nat)
    requires Resolves(tips, changes) && AllCover(base, tips, changes) && i < |changes|
    ensures FootAt(base, tips, changes, i) == changes[i].writeSet
  {
  }

  /** A prefix stays isolated. */
  lemma IsolatedFront(base: Tree, tips: Tips, changes: seq<BranchChange>, at: set<nat>, w: set<Path>)
    requires Resolves(tips, changes) && changes != [] && Isolated(base, tips, changes, at, w)
    ensures Isolated(base, tips, changes[..|changes| - 1], at, w)
  {
    hide Foot;
    var front := changes[..|changes| - 1];
    forall i: nat | i < |front|
      ensures FootAt(base, tips, front, i) == FootAt(base, tips, changes, i)
    {
    }
  }

  ghost predicate TipsAgree(tips: Tips, tips': Tips, changes: seq<BranchChange>, at: set<nat>, w: set<Path>)
    requires Resolves(tips, changes) && Resolves(tips', changes)
  {
    forall i :: 0 <= i < |changes| && i in at ==> Agree(tips[changes[i].branch].tree, tips'[changes[i].branch].tree, w)
  }

  lemma {:induction false} SelectResolves(tips: Tips, changes: seq<BranchChange>, at: set<nat>)
    requires Resolves(tips, changes)
    ensures Resolves(tips, Select(changes, at))
  {
    forall bc | bc in Select(changes, at)
      ensures bc.branch in tips
    {
      SelectMembers(changes, at, bc);
    }
  }

  /** Two fold states that look the same from inside w. */
  ghost predicate SameInside(part: FoldState, full: FoldState, acc: Tree, at: set<nat>, w: set<Path>) {
    && part.outs == Select(full.outs, at)
    && part.paths == full.paths * w
    && Agree(part.tree, full.tree, w)
    && forall p :: p !in w ==> At(part.tree, p) == At(acc, p)
  }

  /** The serial fold, restricted to a group's paths, is the group's own fold:
      same verdicts, same tree there, and the group's fold moves nothing else.
      The two folds may even run in worlds that agree only inside w. */
  lemma {:induction false} FoldIsLocal(e: Engine, base: Tree, acc: Tree, tips: Tips,
                                       base': Tree, acc': Tree, tips': Tips,
                                       changes: seq<BranchChange>, at: set<nat>, w: set<Path>)
    requires Resolves(tips, changes) && Resolves(tips', changes)
    requires Isolated(base, tips, changes, at, w) && Isolated(base', tips', changes, at, w)
    requires Agree(base, base', w) && Agree(acc, acc', w) && TipsAgree(tips, tips', changes, at, w)
    ensures Resolves(tips, Select(changes, at))
    ensures SameInside(Run(e, base, acc, tips, Select(changes, at)), Run(e, base', acc', tips', changes), acc, at, w)
  {
    hide Step, DiffPaths, SameInside, Foot;
    SelectResolves(tips, changes, at);
    if changes == [] {
      assert SameInside(Run(e, base, acc, tips, []), Run(e, base', acc', tips', []), acc, at, w) by {
        EmptyFoldInside(acc, acc', at, w);
      }
    } else {
      var n := |changes| - 1;
      var front, bc := changes[..n], changes[n];
      SelectResolves(tips, front, at);
      IsolatedFront(base, tips, changes, at, w);
      IsolatedFront(base', tips', changes, at, w);
      FoldIsLocal(e, base, acc, tips, base', acc', tips', front, at, w);
      var part := Run(e, base, acc, tips, Select(front, at));
      var full := Run(e, base', acc', tips', front);
      assert bc in changes;
      var foot, foot' := FootAt(base, tips, changes, n), FootAt(base', tips', changes, n);
      assert if n in at then foot <= w && foot' <= w else foot !! w && foot' !! w;
      if n in at {
        assert Select(changes, at) == Select(front, at) + [bc];
        assert Select(changes, at)[..|Select(front, at)|] == Select(front, at);
        StepInside(e, base, base', part, full, bc, tips[bc.branch].tree, tips'[bc.branch].tree, acc, at, w);
      } else {
        assert Select(changes, at) == Select(front, at);
        StepOutside(e, base', part, full, bc, tips'[bc.branch].tree, acc, at, w);
      }
    }
  }

  lemma EmptyFoldInside(acc: Tree, acc': Tree, at: set<nat>, w: set<Path>)
    requires Agree(acc, acc', w)
    ensures SameInside(FoldState(acc, {}, []), FoldState(acc', {}, []), acc, at, w)
  {
  }

  lemma StepOutside(e: Engine, base': Tree, part: FoldState, full: FoldState, bc: BranchChange,
                    theirs': Tree, acc: Tree, at: set<nat>, w: set<Path>)
    requires SameInside(part, full, acc, at, w) && |full.outs| !in at
    requires Foot(base', theirs', bc) !! w
    ensures SameInside(part, Step(e, base', full, bc, theirs'), acc, at, w)
  {
    hide Merge, Conflicts, DiffPaths;
    MergeStaysInDiff(e, base', full.tree, theirs');
    SelectSnoc(full.outs, Step(e, base', full, bc, theirs').outs[|full.outs|], at);
    assert (full.paths + bc.writeSet) * w == full.paths * w;
  }

  lemma StepInside(e: Engine, base: Tree, base': Tree, part: FoldState, full: FoldState, bc: BranchChange,
                   theirs: Tree, theirs': Tree, acc: Tree, at: set<nat>, w: set<Path>)
    requires SameInside(part, full, acc, at, w) && |full.outs| in at
    requires Foot(base, theirs, bc) <= w && Foot(base', theirs', bc) <= w
    requires Agree(base, base', w) && Agree(theirs, theirs', w)
    ensures SameInside(Step(e, base, part, bc, theirs), Step(e, base', full, bc, theirs'), acc, at, w)
  {
    hide Merge, Conflicts, DiffPaths, At;
    MergeIsLocal(e, base, part.tree, theirs, base', full.tree, theirs', w);
    MergeStaysInDiff(e, base, part.tree, theirs);
    var part', full' := Step(e, base, part, bc, theirs), Step(e, base', full, bc, theirs');
    SelectSnoc(full.outs, full'.outs[|full.outs|], at);
    assert full'.outs == full.outs + [full'.outs[|full.outs|]];
    if Merge(e, base, part.tree, theirs).Some? {
      assert bc.writeSet * part.paths == bc.writeSet * full.paths;
      assert part.paths + bc.writeSet == (full.paths + bc.writeSet) * w;
      forall p | p !in w
        ensures At(part'.tree, p) == At(acc, p)
      {
        assert p !in DiffPaths(base, theirs);
      }
    }
  }

  /** The tree a branch of the batch points at. */
  function Theirs(tips: Tips, changes: seq<BranchChange>, i: nat): Tree
    requires Resolves(tips, changes) && i < |changes|
  {
    assert changes[i] in changes;
    tips[changes[i].branch].tree
  }

  ghost predicate ChangesAt(base: Tree, tips: Tips, changes: seq<BranchChange>, i: nat, p: Path)
    requires Resolves(tips, changes) && i < |changes|
  {
    At(Theirs(tips, changes, i), p) != At(base, p)
  }

  /** Some branch that differs from base on the path landed. */
  ghost predicate LandsOn(base: Tree, tips: Tips, changes: seq<BranchChange>, outs: seq<Outcome>, p: Path)
    requires Resolves(tips, changes) && |outs| == |changes|
  {
    exists i: nat :: i < |changes| && outs[i].Landed? && ChangesAt(base, tips, changes, i, p)
  }

  lemma LandsSnoc(base: Tree, tips: Tips, front: seq<BranchChange>, outs: seq<Outcome>, bc: BranchChange, o: Outcome, p: Path)
    requires Resolves(tips, front + [bc]) && |outs| == |front|
    ensures Resolves(tips, front) && bc.branch in tips
    ensures LandsOn(base, tips, front + [bc], outs + [o], p) <==>
            LandsOn(base, tips, front, outs, p) || (o.Landed? && At(tips[bc.branch].tree, p) != At(base, p))
  {
    var all, os := front + [bc], outs + [o];
    assert all[|front|] == bc && bc in all;
    forall x <- front
      ensures x.branch in tips
    {
      assert x in all;
    }
    assert forall i: nat :: i < |front| ==>
             os[i] == outs[i] && (ChangesAt(base, tips, all, i, p) <==> ChangesAt(base, tips, front, i, p));
    assert os[|front|] == o && (ChangesAt(base, tips, all, |front|, p) <==> At(tips[bc.branch].tree, p) != At(base, p));
  }

  /** A fold moves only paths a landed branch differs from base on. */
  lemma {:induction false} FoldStaysInDiffs(e: Engine, base: Tree, acc: Tree, tips: Tips, changes: seq<BranchChange>, p: Path)
    requires Resolves(tips, changes)
    requires !LandsOn(base, tips, changes, Run(e, base, acc, tips, changes).outs, p)
    ensures At(Run(e, base, acc, tips, changes).tree, p) == At(acc, p)
  {
    hide LandsOn, DiffPaths, Merge, Conflicts;
    if changes != [] {
      var n := |changes| - 1;
      var front, bc := changes[..n], changes[n];
      assert changes == front + [bc];
      RunSnoc(e, base, acc, tips, front, bc);
      hide Run;
      var s, theirs := Run(e, base, acc, tips, front), tips[bc.branch].tree;
      var s' := Step(e, base, s, bc, theirs);
      assert s'.outs == s.outs + [s'.outs[n]];
      LandsSnoc(base, tips, front, s.outs, bc, s'.outs[n], p);
      FoldStaysInDiffs(e, base, acc, tips, front, p);
      MergeStaysInDiff(e, base, s.tree, theirs);
      DiffersAt(base, theirs, p);
    }
  }

  // ---- paths that several branches leave alike ----

  ghost predicate Uniform(base: Tree, tips: Tips, changes: seq<BranchChange>, p: Path, v: Option<Entry>)
    requires Resolves(tips, changes)
  {
    forall i: nat :: i < |changes| && ChangesAt(base, tips, changes, i, p) ==> At(Theirs(tips, changes, i), p) == v
  }

  /** A path every branch that changes it leaves alike never conflicts: it reads
      so once one of them has landed. */
  lemma {:induction false} UniformPath(e: Engine, base: Tree, tips: Tips, changes: seq<BranchChange>, p: Path, v: Option<Entry>)
    requires Resolves(tips, changes) && Uniform(base, tips, changes, p, v)
    ensures var s := Run(e, base, base, tips, changes);
            At(s.tree, p) == if LandsOn(base, tips, changes, s.outs, p) then v else At(base, p)
  {
    if changes != [] {
      var n := |changes| - 1;
      var front, bc := changes[..n], changes[n];
      assert changes == front + [bc];
      RunSnoc(e, base, base, tips, front, bc);
      UniformFront(base, tips, changes, p, v);
      UniformLast(base, tips, changes, p, v);
      hide Merge, Conflicts, LandsOn, Uniform, Run;
      var s, theirs := Run(e, base, base, tips, front), tips[bc.branch].tree;
      var s' := Step(e, base, s, bc, theirs);
      assert s'.outs == s.outs + [s'.outs[n]];
      LandsSnoc(base, tips, front, s.outs, bc, s'.outs[n], p);
      UniformPath(e, base, tips, front, p, v);
      hide At;
      UniformMerge(e, base, s.tree, theirs, p, v);
    }
  }

  lemma UniformLast(base: Tree, tips: Tips, changes: seq<BranchChange>, p: Path, v: Option<Entry>)
    requires Resolves(tips, changes) && changes != [] && Uniform(base, tips, changes, p, v)
    ensures changes[|changes| - 1].branch in tips
    ensures At(tips[changes[|changes| - 1].branch].tree, p) in {At(base, p), v}
  {
    var n := |changes| - 1;
    assert changes[n] in changes;
    assert ChangesAt(base, tips, changes, n, p) ==> At(Theirs(tips, changes, n), p) == v;
  }

  lemma UniformMerge(e: Engine, base: Tree, ours: Tree, theirs: Tree, p: Path, v: Option<Entry>)
    requires At(ours, p) in {At(base, p), v} && At(theirs, p) in {At(base, p), v}
    ensures Merge(e, base, ours, theirs).Some? ==>
              At(Merge(e, base, ours, theirs).value, p) == if At(theirs, p) != At(base, p) then v else At(ours, p)
  {
    hide Merge;
    if Merge(e, base, ours, theirs).Some? {
      MergeReadsAt(e, base, ours, theirs, p);
    }
  }

  /** Two trees that left alike every path both changed. */
  ghost predicate Alike(base: Tree, a: Tree, b: Tree) {
    forall p :: At(a, p) != At(base, p) && At(b, p) != At(base, p) ==> At(a, p) == At(b, p)
  }

  /** The branches at the selected positions share no recorded path with the
      others, and leave alike whatever both change. */
  ghost predicate Apart(base: Tree, tips: Tips, changes: seq<BranchChange>, at: set<nat>)
    requires Resolves(tips, changes)
  {
    forall i: nat, j: nat :: i < |changes| && j < |changes| && i in at && j !in at ==>
      changes[i].writeSet !! changes[j].writeSet && Alike(base, Theirs(tips, changes, i), Theirs(tips, changes, j))
  }

  lemma ApartFront(base: Tree, tips: Tips, changes: seq<BranchChange>, at: set<nat>)
    requires Resolves(tips, changes) && changes != [] && Apart(base, tips, changes, at)
    ensures Apart(base, tips, changes[..|changes| - 1], at)
  {
    hide Alike;
    var front := changes[..|changes| - 1];
    forall i: nat | i < |front|
      ensures Theirs(tips, front, i) == Theirs(tips, changes, i)
    {
    }
  }

  /** A path changed from both sides is left alike by everyone who changed it. */
  lemma ContestedUniform(base: Tree, tips: Tips, changes: seq<BranchChange>, at: set<nat>, i: nat, j: nat, p: Path)
    requires Resolves(tips, changes) && Apart(base, tips, changes, at)
    requires i < |changes| && j < |changes| && i in at && j !in at
    requires ChangesAt(base, tips, changes, i, p) && ChangesAt(base, tips, changes, j, p)
    ensures Uniform(base, tips, changes, p, At(Theirs(tips, changes, i), p))
  {
    forall k: nat | k < |changes| && ChangesAt(base, tips, changes, k, p)
      ensures At(Theirs(tips, changes, k), p) == At(Theirs(tips, changes, i), p)
    {
      assert Alike(base, Theirs(tips, changes, i), Theirs(tips, changes, j));
      if k in at {
        assert Alike(base, Theirs(tips, changes, k), Theirs(tips, changes, j));
      } else {
        assert Alike(base, Theirs(tips, changes, i), Theirs(tips, changes, k));
      }
    }
  }

  lemma UniformFront(base: Tree, tips: Tips, changes: seq<BranchChange>, p: Path, v: Option<Entry>)
    requires Resolves(tips, changes) && changes != [] && Uniform(base, tips, changes, p, v)
    ensures Uniform(base, tips, changes[..|changes| - 1], p, v)
  {
    var front := changes[..|changes| - 1];
    assert forall i: nat :: i < |front| ==> Theirs(tips, front, i) == Theirs(tips, changes, i);
  }

  lemma UniformSelect(base: Tree, tips: Tips, changes: seq<BranchChange>, at: set<nat>, p: Path, v: Option<Entry>)
    requires Resolves(tips, changes) && Uniform(base, tips, changes, p, v)
    ensures Resolves(tips, Select(changes, at)) && Uniform(base, tips, Select(changes, at), p, v)
  {
    SelectResolves(tips, changes, at);
    var some := Select(changes, at);
    forall k: nat | k < |some| && ChangesAt(base, tips, some, k, p)
      ensures At(Theirs(tips, some, k), p) == v
    {
      SelectMembers(changes, at, some[k]);
      var i :| 0 <= i < |changes| && i in at && changes[i] == some[k];
      assert Theirs(tips, changes, i) == Theirs(tips, some, k);
    }
  }

  /** A merge has the same outcome on two accumulators that read the same where
      the branch changed, or read there as base or as the branch does. */
  ghost predicate Meets(base: Tree, ours: Tree, ours': Tree, theirs: Tree, p: Path) {
    || At(ours, p) == At(ours', p)
    || (At(ours, p) in {At(base, p), At(theirs, p)} && At(ours', p) in {At(base, p), At(theirs, p)})
  }

  lemma MergeMeets(e: Engine, base: Tree, ours: Tree, ours': Tree, theirs: Tree)
    requires forall p :: At(theirs, p) != At(base, p) ==> Meets(base, ours, ours', theirs, p)
    ensures Conflicts(e, base, ours, theirs) == Conflicts(e, base, ours', theirs)
    ensures Merge(e, base, ours, theirs).Some? <==> Merge(e, base, ours', theirs).Some?
    ensures Merge(e, base, ours, theirs).Some? ==>
              forall p :: At(theirs, p) != At(base, p) ==>
                At(Merge(e, base, ours, theirs).value, p) == At(Merge(e, base, ours', theirs).value, p)
  {
    hide Merge, MergeTree, At;
    forall p
      ensures p in Conflicts(e, base, ours, theirs) <==> p in Conflicts(e, base, ours', theirs)
      ensures p in Conflicts(e, base, ours, theirs) ==> Answer(e, p, base, ours, theirs) == Answer(e, p, base, ours', theirs)
      ensures At(theirs, p) != At(base, p) ==> MergedAt(e, p, base, ours, theirs) == MergedAt(e, p, base, ours', theirs)
    {
      MergeTreeAt(e, base, ours, theirs, p);
      MergeTreeAt(e, base, ours', theirs, p);
      if At(theirs, p) != At(base, p) {
        assert Meets(base, ours, ours', theirs, p);
      }
    }
    hide Conflicts, Answer, MergedAt;
    MergeDecides(e, base, ours, theirs);
    MergeDecides(e, base, ours', theirs);
    if Merge(e, base, ours, theirs).Some? {
      forall p | At(theirs, p) != At(base, p)
        ensures At(Merge(e, base, ours, theirs).value, p) == At(Merge(e, base, ours', theirs).value, p)
      {
        MergeReadsAt(e, base, ours, theirs, p);
        MergeReadsAt(e, base, ours', theirs, p);
      }
    }
  }

  /** The group's fold against the whole batch's: the same outcomes, and the same
      tree wherever one of its branches landed a change. */
  ghost predicate SharedIn(base: Tree, tips: Tips, changes: seq<BranchChange>, at: set<nat>, part: FoldState, full: FoldState)
    requires Resolves(tips, changes)
  {
    && |full.outs| == |changes| && part.outs == Select(full.outs, at)
    && Resolves(tips, Select(changes, at)) && |part.outs| == |Select(changes, at)|
    && forall p :: LandsOn(base, tips, Select(changes, at), part.outs, p) ==> At(part.tree, p) == At(full.tree, p)
  }

  ghost predicate PathsInside(changes: seq<BranchChange>, at: set<nat>, w: set<Path>) {
    forall i: nat :: i < |changes| ==> if i in at then changes[i].writeSet <= w else changes[i].writeSet !! w
  }

  lemma SharedOutside(e: Engine, base: Tree, tips: Tips, changes: seq<BranchChange>, at: set<nat>)
    requires Resolves(tips, changes) && changes != [] && |changes| - 1 !in at && Apart(base, tips, changes, at)
    requires var front := changes[..|changes| - 1];
             Resolves(tips, Select(front, at)) &&
             SharedIn(base, tips, front, at, Run(e, base, base, tips, Select(front, at)), Run(e, base, base, tips, front))
    ensures Resolves(tips, Select(changes, at))
    ensures SharedIn(base, tips, changes, at, Run(e, base, base, tips, Select(changes, at)), Run(e, base, base, tips, changes))
  {
    hide Merge, Conflicts, DiffPaths, LandsOn, Apart, Uniform;
    var n := |changes| - 1;
    var front, bc := changes[..n], changes[n];
    assert bc in changes;
    var some := Select(front, at);
    assert Select(changes, at) == some;
    var part, full, full' := Run(e, base, base, tips, some), Run(e, base, base, tips, front), Run(e, base, base, tips, changes);
    var theirs := tips[bc.branch].tree;
    assert full' == Step(e, base, full, bc, theirs);
    SelectSnoc(full.outs, full'.outs[n], at);
    forall p | LandsOn(base, tips, some, part.outs, p)
      ensures At(part.tree, p) == At(full'.tree, p)
    {
      if At(theirs, p) != At(base, p) {
        LandedIsContested(e, base, tips, changes, at, p);
        if Merge(e, base, full.tree, theirs).Some? {
          MergeReadsAt(e, base, full.tree, theirs, p);
        }
      } else {
        DiffersAt(base, theirs, p);
        MergeStaysInDiff(e, base, full.tree, theirs);
      }
    }
  }

  /** Where the group landed a change and the last branch, outside it, made one
      too, the group's fold reads as that branch does. */
  lemma LandedIsContested(e: Engine, base: Tree, tips: Tips, changes: seq<BranchChange>, at: set<nat>, p: Path)
    requires Resolves(tips, changes) && changes != [] && |changes| - 1 !in at && Apart(base, tips, changes, at)
    requires ChangesAt(base, tips, changes, |changes| - 1, p)
    requires Resolves(tips, Select(changes[..|changes| - 1], at))
    requires var some := Select(changes[..|changes| - 1], at);
             LandsOn(base, tips, some, Run(e, base, base, tips, some).outs, p)
    ensures At(Run(e, base, base, tips, Select(changes[..|changes| - 1], at)).tree, p) == At(Theirs(tips, changes, |changes| - 1), p)
  {
    hide Run, Apart, Uniform, Alike;
    var n := |changes| - 1;
    var front := changes[..n];
    var some := Select(front, at);
    var k: nat :| k < |some| && Run(e, base, base, tips, some).outs[k].Landed? && ChangesAt(base, tips, some, k, p);
    SelectMembers(front, at, some[k]);
    var i :| 0 <= i < |front| && i in at && front[i] == some[k];
    assert Theirs(tips, changes, i) == Theirs(tips, some, k);
    ContestedUniform(base, tips, changes, at, i, n, p);
    var v := At(Theirs(tips, changes, i), p);
    assert v == At(Theirs(tips, changes, n), p) by {
      assert Uniform(base, tips, changes, p, v);
      UniformReads(base, tips, changes, p, v, n);
    }
    UniformFront(base, tips, changes, p, v);
    UniformSelect(base, tips, front, at, p, v);
    UniformPath(e, base, tips, some, p, v);
  }

  lemma UniformReads(base: Tree, tips: Tips, changes: seq<BranchChange>, p: Path, v: Option<Entry>, i: nat)
    requires Resolves(tips, changes) && Uniform(base, tips, changes, p, v)
    requires i < |changes| && ChangesAt(base, tips, changes, i, p)
    ensures At(Theirs(tips, changes, i), p) == v
  {
  }

  /** The two accumulators meet on the last branch's paths when it is the group's. */
  lemma GroupMeets(e: Engine, base: Tree, tips: Tips, changes: seq<BranchChange>, at: set<nat>, p: Path)
    requires Resolves(tips, changes) && changes != [] && |changes| - 1 in at && Apart(base, tips, changes, at)
    requires ChangesAt(base, tips, changes, |changes| - 1, p)
    requires var front := changes[..|changes| - 1];
             Resolves(tips, Select(front, at)) &&
             SharedIn(base, tips, front, at, Run(e, base, base, tips, Select(front, at)), Run(e, base, base, tips, front))
    ensures var front := changes[..|changes| - 1];
            Meets(base, Run(e, base, base, tips, Select(front, at)).tree, Run(e, base, base, tips, front).tree,
                  Theirs(tips, changes, |changes| - 1), p)
  {
    hide Run, Apart, Uniform, Alike, LandsOn;
    var n := |changes| - 1;
    var front := changes[..n];
    var part, full := Run(e, base, base, tips, Select(front, at)), Run(e, base, base, tips, front);
    if j: nat :| j < n && j !in at && ChangesAt(base, tips, changes, j, p) {
      var v := At(Theirs(tips, changes, n), p);
      ContestedUniform(base, tips, changes, at, n, j, p);
      UniformFront(base, tips, changes, p, v);
      UniformPath(e, base, tips, front, p, v);
      UniformSelect(base, tips, front, at, p, v);
      UniformPath(e, base, tips, Select(front, at), p, v);
    } else if !LandsOn(base, tips, Select(front, at), part.outs, p) {
      FoldStaysInDiffs(e, base, base, tips, Select(front, at), p);
      if LandsOn(base, tips, front, full.outs, p) {
        LandedInGroup(base, tips, changes, at, full.outs, p);
        assert false;
      }
      FoldStaysInDiffs(e, base, base, tips, front, p);
    }
  }

  /** A landed change that none but the group's branches make is landed by the group. */
  lemma LandedInGroup(base: Tree, tips: Tips, changes: seq<BranchChange>, at: set<nat>, outs: seq<Outcome>, p: Path)
    requires Resolves(tips, changes) && changes != [] && |outs| == |changes| - 1
    requires LandsOn(base, tips, changes[..|changes| - 1], outs, p)
    requires forall j: nat :: j < |changes| - 1 && j !in at ==> !ChangesAt(base, tips, changes, j, p)
    ensures Resolves(tips, Select(changes[..|changes| - 1], at))
    ensures |Select(outs, at)| == |Select(changes[..|changes| - 1], at)|
    ensures LandsOn(base, tips, Select(changes[..|changes| - 1], at), Select(outs, at), p)
  {
    hide Select;
    var front := changes[..|changes| - 1];
    var i: nat :| i < |front| && outs[i].Landed? && ChangesAt(base, tips, front, i, p);
    assert Theirs(tips, front, i) == Theirs(tips, changes, i);
    assert ChangesAt(base, tips, changes, i, p);
    SelectLands(base, tips, front, at, outs, i, p);
  }

  lemma {:induction false} SelectLands(base: Tree, tips: Tips, changes: seq<BranchChange>, at: set<nat>, outs: seq<Outcome>, i: nat, p: Path)
    requires Resolves(tips, changes) && |outs| == |changes|
    requires i < |changes| && i in at && outs[i].Landed? && ChangesAt(base, tips, changes, i, p)
    ensures Resolves(tips, Select(changes, at)) && |Select(outs, at)| == |Select(changes, at)|
    ensures LandsOn(base, tips, Select(changes, at), Select(outs, at), p)
  {
    hide LandsOn;
    SelectResolves(tips, changes, at);
    SelectTogether(changes, outs, at);
    var n := |changes| - 1;
    var front, bc, o := changes[..n], changes[n], outs[n];
    SelectResolves(tips, front, at);
    SelectTogether(front, outs[..n], at);
    if n in at {
      assert Select(changes, at) == Select(front, at) + [bc] && Select(outs, at) == Select(outs[..n], at) + [o];
      LandsSnoc(base, tips, Select(front, at), Select(outs[..n], at), bc, o, p);
    } else {
      assert Select(changes, at) == Select(front, at) && Select(outs, at) == Select(outs[..n], at);
    }
    if i < n {
      assert Theirs(tips, front, i) == Theirs(tips, changes, i);
      SelectLands(base, tips, front, at, outs[..n], i, p);
    }
  }

  lemma SharedInside(e: Engine, base: Tree, tips: Tips, changes: seq<BranchChange>, at: set<nat>, w: set<Path>)
    requires Resolves(tips, changes) && changes != [] && |changes| - 1 in at && Apart(base, tips, changes, at)
    requires PathsInside(changes, at, w)
    requires var front := changes[..|changes| - 1];
             Resolves(tips, Select(front, at)) &&
             var part, full := Run(e, base, base, tips, Select(front, at)), Run(e, base, base, tips, front);
             SharedIn(base, tips, front, at, part, full) && part.paths == full.paths * w
    ensures Resolves(tips, Select(changes, at))
    ensures var part, full := Run(e, base, base, tips, Select(changes, at)), Run(e, base, base, tips, changes);
            SharedIn(base, tips, changes, at, part, full) && part.paths == full.paths * w
  {
    hide Run, Step, Select, SharedIn, Apart, Meets, PathsInside;
    var n := |changes| - 1;
    var front, bc := changes[..n], changes[n];
    var some := Select(front, at);
    GroupGrows(changes, at);
    InsideFront(changes, at, w);
    SelectResolves(tips, changes, at);
    RunSnoc(e, base, base, tips, front, bc);
    RunSnoc(e, base, base, tips, some, bc);
    GroupMeetsAll(e, base, tips, changes, at);
    StepShared(e, base, tips, front, at, Run(e, base, base, tips, some), Run(e, base, base, tips, front), bc, w);
  }

  lemma GroupMeetsAll(e: Engine, base: Tree, tips: Tips, changes: seq<BranchChange>, at: set<nat>)
    requires Resolves(tips, changes) && changes != [] && |changes| - 1 in at && Apart(base, tips, changes, at)
    requires var front := changes[..|changes| - 1];
             Resolves(tips, Select(front, at)) &&
             SharedIn(base, tips, front, at, Run(e, base, base, tips, Select(front, at)), Run(e, base, base, tips, front))
    ensures changes[|changes| - 1].branch in tips
    ensures var front, theirs := changes[..|changes| - 1], tips[changes[|changes| - 1].branch].tree;
            forall p :: At(theirs, p) != At(base, p) ==>
              Meets(base, Run(e, base, base, tips, Select(front, at)).tree, Run(e, base, base, tips, front).tree, theirs, p)
  {
    hide Run, Select, SharedIn, Apart, Meets;
    var n := |changes| - 1;
    var front := changes[..n];
    assert changes[n] in changes;
    var theirs := Theirs(tips, changes, n);
    forall p | At(theirs, p) != At(base, p)
      ensures Meets(base, Run(e, base, base, tips, Select(front, at)).tree, Run(e, base, base, tips, front).tree, theirs, p)
    {
      GroupMeets(e, base, tips, changes, at, p);
    }
  }

  lemma RunSnoc(e: Engine, base: Tree, acc: Tree, tips: Tips, front: seq<BranchChange>, bc: BranchChange)
    requires Resolves(tips, front + [bc])
    ensures Resolves(tips, front) && bc.branch in tips
    ensures Run(e, base, acc, tips, front + [bc]) == Step(e, base, Run(e, base, acc, tips, front), bc, tips[bc.branch].tree)
  {
    hide Step;
    var all := front + [bc];
    assert all[|front|] == bc && all[..|front|] == front && bc in all;
    assert forall x <- front :: x in all;
  }

  /** One more of the group's own branches, on accumulators that meet on its paths. */
  lemma StepShared(e: Engine, base: Tree, tips: Tips, front: seq<BranchChange>, at: set<nat>, part: FoldState, full: FoldState, bc: BranchChange, w: set<Path>)
    requires Resolves(tips, front + [bc]) && Resolves(tips, front) && |front| in at && bc.branch in tips
    requires SharedIn(base, tips, front, at, part, full) && part.paths == full.paths * w && bc.writeSet <= w
    requires forall p :: At(tips[bc.branch].tree, p) != At(base, p) ==> Meets(base, part.tree, full.tree, tips[bc.branch].tree, p)
    ensures var part', full' := Step(e, base, part, bc, tips[bc.branch].tree), Step(e, base, full, bc, tips[bc.branch].tree);
            SharedIn(base, tips, front + [bc], at, part', full') && part'.paths == full'.paths * w
  {
    hide Merge, Conflicts, DiffPaths, LandsOn, Meets, Select;
    var theirs, some := tips[bc.branch].tree, Select(front, at);
    MergeMeets(e, base, part.tree, full.tree, theirs);
    var part', full' := Step(e, base, part, bc, theirs), Step(e, base, full, bc, theirs);
    var o := full'.outs[|full.outs|];
    assert full'.outs == full.outs + [o] && part'.outs == part.outs + [o];
    SelectSnoc(front, bc, at);
    SelectSnoc(full.outs, o, at);
    SelectResolves(tips, front + [bc], at);
    if Merge(e, base, part.tree, theirs).Some? {
      assert bc.writeSet * part.paths == bc.writeSet * full.paths;
      assert part.paths + bc.writeSet == (full.paths + bc.writeSet) * w;
    }
    forall p | LandsOn(base, tips, some + [bc], part.outs + [o], p)
      ensures At(part'.tree, p) == At(full'.tree, p)
    {
      LandsSnoc(base, tips, some, part.outs, bc, o, p);
      StepReads(e, base, part, full, bc, theirs, p);
    }
  }

  /** Where the branch changed nothing, a step leaves both trees as they are. */
  lemma StepReads(e: Engine, base: Tree, part: FoldState, full: FoldState, bc: BranchChange, theirs: Tree, p: Path)
    requires Merge(e, base, part.tree, theirs).Some? <==> Merge(e, base, full.tree, theirs).Some?
    ensures At(theirs, p) == At(base, p) && At(part.tree, p) == At(full.tree, p) ==>
              At(Step(e, base, part, bc, theirs).tree, p) == At(Step(e, base, full, bc, theirs).tree, p)
  {
    hide Merge, Conflicts, DiffPaths;
    MergeStaysInDiff(e, base, part.tree, theirs);
    MergeStaysInDiff(e, base, full.tree, theirs);
    DiffersAt(base, theirs, p);
  }

  /** A group's own fold is the whole batch's, as far as the group landed: it is
      enough that groups share no recorded path and leave alike any path two of
      them change. */
  lemma {:induction false} FoldIsShared(e: Engine, base: Tree, tips: Tips, changes: seq<BranchChange>, at: set<nat>, w: set<Path>)
    requires Resolves(tips, changes) && Apart(base, tips, changes, at) && PathsInside(changes, at, w)
    ensures Resolves(tips, Select(changes, at))
    ensures var part, full := Run(e, base, base, tips, Select(changes, at)), Run(e, base, base, tips, changes);
            SharedIn(base, tips, changes, at, part, full) && part.paths == full.paths * w
  {
    hide Step, DiffPaths, LandsOn, Apart, SharedIn, PathsInside;
    if changes == [] {
      EmptyShared(base, tips, at);
    } else {
      var n := |changes| - 1;
      var front := changes[..n];
      SelectResolves(tips, front, at);
      ApartFront(base, tips, changes, at);
      InsideFront(changes, at, w);
      hide Run, Select;
      FoldIsShared(e, base, tips, front, at, w);
      if n in at {
        SharedInside(e, base, tips, changes, at, w);
      } else {
        SharedOutside(e, base, tips, changes, at);
        OutsidePaths(e, base, tips, changes, w);
        GroupUnmoved(changes, at);
      }
    }
  }

  lemma GroupGrows(changes: seq<BranchChange>, at: set<nat>)
    requires changes != [] && |changes| - 1 in at
    ensures changes == changes[..|changes| - 1] + [changes[|changes| - 1]]
    ensures Select(changes, at) == Select(changes[..|changes| - 1], at) + [changes[|changes| - 1]]
  {
  }

  lemma GroupUnmoved(changes: seq<BranchChange>, at: set<nat>)
    requires changes != [] && |changes| - 1 !in at
    ensures Select(changes, at) == Select(changes[..|changes| - 1], at)
  {
  }

  lemma InsideFront(changes: seq<BranchChange>, at: set<nat>, w: set<Path>)
    requires changes != [] && PathsInside(changes, at, w)
    ensures PathsInside(changes[..|changes| - 1], at, w)
    ensures var last := changes[|changes| - 1].writeSet;
            if |changes| - 1 in at then last <= w else last !! w
  {
  }

  lemma EmptyShared(base: Tree, tips: Tips, at: set<nat>)
    ensures SharedIn(base, tips, [], at, FoldState(base, {}, []), FoldState(base, {}, []))
  {
  }

  lemma OutsidePaths(e: Engine, base: Tree, tips: Tips, changes: seq<BranchChange>, w: set<Path>)
    requires Resolves(tips, changes) && changes != [] && changes[|changes| - 1].writeSet !! w
    ensures Run(e, base, base, tips, changes).paths * w == Run(e, base, base, tips, changes[..|changes| - 1]).paths * w
  {
    hide Merge, Conflicts;
    assert changes[|changes| - 1] in changes;
  }

  /** A fold moves only paths of its branches' write-sets. */
  lemma {:induction false} FoldStaysInPaths(e: Engine, base: Tree, acc: Tree, tips: Tips, changes: seq<BranchChange>, p: Path)
    requires Resolves(tips, changes) && AllCover(base, tips, changes)
    requires p !in Run(e, base, acc, tips, changes).paths
    ensures At(Run(e, base, acc, tips, changes).tree, p) == At(acc, p)
  {
    if changes != [] {
      var n := |changes| - 1;
      assert changes[n] in changes;
      var s := Run(e, base, acc, tips, changes[..n]);
      MergeStaysInDiff(e, base, s.tree, tips[changes[n].branch].tree);
      assert CoversDiff(base, tips[changes[n].branch].tree, changes[n]);
      FoldStaysInPaths(e, base, acc, tips, changes[..n], p);
    }
  }

  // ---- the algorithm ----

  function Join(parts: seq<string>): string {
    if parts == [] then ""
    else if |parts| == 1 then parts[0]
    else parts[0] + ", " + Join(parts[1..])
  }

  function TipsOf(tips: Tips, branches: seq<string>): seq<Commit>
    requires forall b <- branches :: b in tips
  {
    seq(|branches|, i requires 0 <= i < |branches| => assert branches[i] in branches; tips[branches[i]])
  }

  /** The group head: exactly one commit over the accumulator and the landed
      tips, or the accumulator itself when nothing landed. */
  function HeadOf(acc: Commit, tips: Tips, tree: Tree, landed: seq<string>, prefix: string): Commit
    requires forall b <- landed :: b in tips
  {
    if landed == [] then acc
    else Commit(tree, [acc] + TipsOf(tips, landed), prefix + ": " + Join(landed))
  }

  /** Asks the resolver for every conflicted path, stopping at the first decline. */
  method AttemptResolve(e: Engine, base: Tree, ours: Tree, theirs: Tree, mt: MergeTreeResult) returns (tree: Tree, resolved: bool)
    requires mt == MergeTree(e, base, ours, theirs) && mt.conflicts != {}
    ensures resolved <==> Merge(e, base, ours, theirs).Some?
    ensures resolved ==> tree == Merge(e, base, ours, theirs).value
  {
    hide MergeTree, SpliceBlobs, Answer;
    MergeDecides(e, base, ours, theirs);
    if e.resolver.None? {
      NoResolverNoAnswer(e, base, ours, theirs);
      assert exists p :: p in mt.conflicts;
      return mt.tree, false;
    }
    var blobs: map<Path, string> := map[];
    var rest := mt.conflicts;
    while rest != {}
      invariant rest <= mt.conflicts
      invariant Resolvable(e, base, ours, theirs, mt.conflicts - rest)
      invariant blobs == Bodies(e, base, ours, theirs, mt.conflicts - rest)
      decreases rest
    {
      var p :| p in rest;
      var out := e.resolver.value(p, ContentOf(At(base, p)), ContentOf(At(ours, p)), ContentOf(At(theirs, p)));
      assert out == Answer(e, p, base, ours, theirs) by {
        AskedIsAnswer(e, p, base, ours, theirs);
      }
      if out.None? {
        return mt.tree, false;
      }
      blobs := blobs[p := out.value];
      rest := rest - {p};
    }
    assert mt.conflicts - rest == mt.conflicts;
    return SpliceBlobs(mt.tree, blobs), true;
  }

  lemma NoResolverNoAnswer(e: Engine, base: Tree, ours: Tree, theirs: Tree)
    requires e.resolver.None?
    ensures forall p :: Answer(e, p, base, ours, theirs).None?
  {
  }

  lemma AskedIsAnswer(e: Engine, p: Path, base: Tree, ours: Tree, theirs: Tree)
    requires e.resolver.Some?
    ensures e.resolver.value(p, ContentOf(At(base, p)), ContentOf(At(ours, p)), ContentOf(At(theirs, p))) ==
            Answer(e, p, base, ours, theirs)
  {
  }

  /** The resolver is shown the path and its content in the merge base, on our
      side and on theirs, empty where there is none. */
  lemma AnswerIs(e: Engine, p: Path, base: Tree, ours: Tree, theirs: Tree, b: string, o: string, t: string)
    requires b == if p in base then base[p].content else ""
    requires o == if p in ours then ours[p].content else ""
    requires t == if p in theirs then theirs[p].content else ""
    ensures Answer(e, p, base, ours, theirs) == if e.resolver.None? then None else e.resolver.value(p, b, o, t)
  {
  }

  /** A resolved merge holds the answers where git conflicted, in the mode git
      left there or a regular file's, and is git's elsewhere. */
  lemma ResolvedReads(e: Engine, base: Tree, ours: Tree, theirs: Tree, p: Path)
    requires Merge(e, base, ours, theirs).Some?
    ensures var m, mt := Merge(e, base, ours, theirs).value, MergeTree(e, base, ours, theirs).tree;
            if p !in Conflicts(e, base, ours, theirs) then At(m, p) == At(mt, p)
            else At(m, p).Some? && Answer(e, p, base, ours, theirs) == Some(At(m, p).value.content)
                 && At(m, p).value.mode == if p in mt then mt[p].mode else "100644"
  {
    hide MergeTree, Answer;
  }

  /** Without one, exactly when nothing conflicts. */
  lemma NoResolverDecides(e: Engine, base: Tree, ours: Tree, theirs: Tree)
    requires e.resolver.None?
    ensures Merge(e, base, ours, theirs) ==
            if Conflicts(e, base, ours, theirs) == {} then Some(MergeTree(e, base, ours, theirs).tree) else None
  {
    MergeDecides(e, base, ours, theirs);
    NoResolverNoAnswer(e, base, ours, theirs);
    if Conflicts(e, base, ours, theirs) == {} {
      CleanMerge(e, base, ours, theirs);
    }
  }

  lemma CleanMerge(e: Engine, base: Tree, ours: Tree, theirs: Tree)
    requires Conflicts(e, base, ours, theirs) == {}
    ensures Merge(e, base, ours, theirs) == Some(MergeTree(e, base, ours, theirs).tree)
  {
    var mt := MergeTree(e, base, ours, theirs);
    assert SpliceBlobs(mt.tree, map[]) == mt.tree;
  }

  /** With nothing on our side the merge is theirs and cannot conflict. */
  lemma FirstMergeIsTheirs(e: Engine, base: Tree, theirs: Tree)
    ensures Conflicts(e, base, base, theirs) == {}
    ensures MergeTree(e, base, base, theirs).tree == theirs
  {
    forall p: Path
      ensures p !in Conflicts(e, base, base, theirs)
      ensures At(MergeTree(e, base, base, theirs).tree, p) == At(theirs, p)
    {
      MergeTreeAt(e, base, base, theirs, p);
    }
    TreeExtensionality(MergeTree(e, base, base, theirs).tree, theirs);
  }

  /** Until a branch lands, the accumulator is untouched. */
  lemma {:induction false} NothingLandedYet(e: Engine, base: Tree, acc: Tree, tips: Tips, changes: seq<BranchChange>)
    requires Resolves(tips, changes)
    requires LandedOf(Run(e, base, acc, tips, changes).outs) == []
    ensures Run(e, base, acc, tips, changes).tree == acc
  {
    if changes != [] {
      var n := |changes| - 1;
      var s := Run(e, base, acc, tips, changes[..n]);
      var o := Run(e, base, acc, tips, changes).outs[n];
      FlatMapSnoc(LandedIn, s.outs, o);
      assert LandedOf(Run(e, base, acc, tips, changes).outs) == LandedOf(s.outs) + LandedIn(o);
      NothingLandedYet(e, base, acc, tips, changes[..n]);
    }
  }

  /** How one more branch extends the three reports. */
  lemma ReportsGrow(e: Engine, base: Tree, acc: Tree, tips: Tips, changes: seq<BranchChange>, i: nat)
    requires i < |changes| && Resolves(tips, changes)
    ensures Resolves(tips, changes[..i]) && Resolves(tips, changes[..i + 1])
    ensures changes[i].branch in tips
    ensures var s, s' := Run(e, base, acc, tips, changes[..i]), Run(e, base, acc, tips, changes[..i + 1]);
            && s' == Step(e, base, s, changes[i], tips[changes[i].branch].tree)
            && s'.outs == s.outs + [s'.outs[i]]
            && LandedOf(s'.outs) == LandedOf(s.outs) + LandedIn(s'.outs[i])
            && FlaggedOf(s'.outs) == FlaggedOf(s.outs) + FlaggedIn(s'.outs[i])
            && AutoMergedOf(s'.outs) == AutoMergedOf(s.outs) + |OverlappedIn(s'.outs[i])|
  {
    hide Merge, Conflicts;
    assert changes[i] in changes;
    assert changes[..i + 1][..i] == changes[..i];
    var s, s' := Run(e, base, acc, tips, changes[..i]), Run(e, base, acc, tips, changes[..i + 1]);
    assert s' == Step(e, base, s, changes[i], tips[changes[i].branch].tree);
    assert s'.outs == s.outs + [s'.outs[i]];
    FlatMapSnoc(LandedIn, s.outs, s'.outs[i]);
    FlatMapSnoc(FlaggedIn, s.outs, s'.outs[i]);
    FlatMapSnoc(OverlappedIn, s.outs, s'.outs[i]);
  }

  /** Merge one branch: skip the merge while nothing has landed onto the merge
      base itself, resolve a conflict if every path is answered. */
  method MergeOne(e: Engine, mergeBase: Commit, acc: Commit, nothingLanded: bool, tree: Tree, theirs: Tree)
    returns (outTree: Tree, ok: bool, conflicts: set<Path>)
    requires nothingLanded ==> tree == acc.tree
    ensures conflicts == Conflicts(e, mergeBase.tree, tree, theirs)
    ensures ok <==> Merge(e, mergeBase.tree, tree, theirs).Some?
    ensures ok ==> outTree == Merge(e, mergeBase.tree, tree, theirs).value
  {
    hide MergeTree, Merge;
    var mt: MergeTreeResult;
    if nothingLanded && acc == mergeBase {
      FirstMergeIsTheirs(e, mergeBase.tree, theirs);
      mt := MergeTreeResult(theirs, {});
    } else {
      mt := MergeTree(e, mergeBase.tree, tree, theirs);
    }
    outTree, ok, conflicts := mt.tree, true, mt.conflicts;
    if conflicts != {} {
      outTree, ok := AttemptResolve(e, mergeBase.tree, tree, theirs, mt);
    } else {
      CleanMerge(e, mergeBase.tree, tree, theirs);
    }
  }

  method FoldBranches(e: Engine, tips: Tips, mergeBase: Commit, acc: Commit, changes: seq<BranchChange>, prefix: string)
    returns (head: Commit, landed: seq<string>, flagged: seq<BranchResult>, autoMerged: nat)
    requires Resolves(tips, changes)
    ensures forall b <- landed :: b in tips
    ensures var s := Run(e, mergeBase.tree, acc.tree, tips, changes);
            && landed == LandedOf(s.outs) && flagged == FlaggedOf(s.outs) && autoMerged == AutoMergedOf(s.outs)
            && autoMerged == OverlapCount(changes, s.outs)
            && head == HeadOf(acc, tips, s.tree, landed, prefix)
  {
    hide LandedOf, FlaggedOf, AutoMergedOf, Run, Merge, Conflicts;
    EmptyReports(e, mergeBase.tree, acc.tree, tips);
    AutoMergesAreOverlaps(e, mergeBase.tree, acc.tree, tips, changes);
    hide OverlapCount;
    landed, flagged, autoMerged := [], [], 0;
    if |changes| == 0 {
      return acc, [], [], 0;
    }
    var landedPaths := new WriteSet({});
    var tree := acc.tree;
    for i := 0 to |changes|
      invariant fresh(landedPaths)
      invariant Resolves(tips, changes[..i])
      invariant var s := Run(e, mergeBase.tree, acc.tree, tips, changes[..i]);
                && tree == s.tree && landedPaths.paths == s.paths
                && landed == LandedOf(s.outs) && flagged == FlaggedOf(s.outs) && autoMerged == AutoMergedOf(s.outs)
    {
      var bc := changes[i];
      ReportsGrow(e, mergeBase.tree, acc.tree, tips, changes, i);
      if |landed| == 0 {
        NothingLandedYet(e, mergeBase.tree, acc.tree, tips, changes[..i]);
      }
      var outTree, ok, conflicts := MergeOne(e, mergeBase, acc, |landed| == 0, tree, tips[bc.branch].tree);
      if !ok {
        flagged := flagged + [BranchResult(bc.branch, conflicts)];
      } else {
        var ws := new WriteSet(bc.writeSet);
        var shared := ws.Overlaps(landedPaths);
        if shared {
          autoMerged := autoMerged + 1;
        }
        landedPaths.AddAll(bc.writeSet);
        tree := outTree;
        landed := landed + [bc.branch];
      }
    }
    assert changes[..|changes|] == changes;
    LandedResolve(e, mergeBase.tree, acc.tree, tips, changes);
    head := HeadOf(acc, tips, tree, landed, prefix);
  }

  lemma EmptyReports(e: Engine, base: Tree, acc: Tree, tips: Tips)
    ensures Run(e, base, acc, tips, []) == FoldState(acc, {}, [])
    ensures LandedOf([]) == [] && FlaggedOf([]) == [] && AutoMergedOf([]) == 0
  {
  }
}
