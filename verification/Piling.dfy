/** An engine that tells apart whatever it is given: it moves every path any
    branch does, and leaves its mark on every merge of two different changes. */
module Pilings {
  import opened Git
  import opened Seqs
  import opened Partition
  import opened Fold

  /** A content merge that always conflicts, left to a resolver that puts the
      three texts it is shown into its answer, and a pad after them. */
  function Piling(pad: string): Engine {
    Engine((p: Path, b: Option<Entry>, o: Option<Entry>, t: Option<Entry>) => Conflict(o),
           Some((p: Path, b: string, o: string, t: string) => Some(b + o + t + pad)))
  }

  function Piled(pad: string, b: Option<Entry>, o: Option<Entry>, t: Option<Entry>): Option<Entry> {
    if o == b then t
    else if t == b || o == t then o
    else Some(Entry(if o.Some? then o.value.mode else DEFAULT_MODE, ContentOf(b) + ContentOf(o) + ContentOf(t) + pad))
  }

  lemma PilingMerges(pad: string, base: Tree, ours: Tree, theirs: Tree, p: Path)
    ensures Merge(Piling(pad), base, ours, theirs).Some?
    ensures At(Merge(Piling(pad), base, ours, theirs).value, p) == Piled(pad, At(base, p), At(ours, p), At(theirs, p))
  {
    hide Merge;
    MergeDecides(Piling(pad), base, ours, theirs);
    MergeReadsAt(Piling(pad), base, ours, theirs, p);
  }

  /** One more branch of the batch, at one path. */
  lemma PilingSteps(pad: string, base: Tree, tips: Tips, changes: seq<BranchChange>, p: Path)
    requires Resolves(tips, changes) && changes != []
    ensures At(Run(Piling(pad), base, base, tips, changes).tree, p) ==
            Piled(pad, At(base, p), At(Run(Piling(pad), base, base, tips, changes[..|changes| - 1]).tree, p),
                  At(Theirs(tips, changes, |changes| - 1), p))
  {
    hide Merge, Conflicts, Piling, Piled;
    var n := |changes| - 1;
    assert changes[n] in changes;
    PilingMerges(pad, base, Run(Piling(pad), base, base, tips, changes[..n]).tree, Theirs(tips, changes, n), p);
  }

  /** The fold moves exactly the paths some branch differs from base on. */
  lemma {:induction false} PilingMovesAll(pad: string, base: Tree, tips: Tips, changes: seq<BranchChange>, p: Path)
    requires Resolves(tips, changes) && pad != ""
    ensures At(Run(Piling(pad), base, base, tips, changes).tree, p) != At(base, p) <==>
            SomeChanges(base, tips, changes, p)
  {
    hide Run, Piling, SomeChanges;
    if changes == [] {
      NothingPiled(pad, base, tips);
      assert !SomeChanges(base, tips, [], p) by {
        NobodyChanges(base, tips, p);
      }
    } else {
      var n := |changes| - 1;
      var front := changes[..n];
      PilingMovesAll(pad, base, tips, front, p);
      PilingSteps(pad, base, tips, changes, p);
      ChangedFront(base, tips, changes, p);
      PiledMoves(pad, At(base, p), At(Run(Piling(pad), base, base, tips, front).tree, p), At(Theirs(tips, changes, n), p));
    }
  }

  ghost predicate SomeChanges(base: Tree, tips: Tips, changes: seq<BranchChange>, p: Path)
    requires Resolves(tips, changes)
  {
    exists i: nat :: i < |changes| && ChangesAt(base, tips, changes, i, p)
  }

  lemma NobodyChanges(base: Tree, tips: Tips, p: Path)
    ensures !SomeChanges(base, tips, [], p)
  {
  }

  lemma ChangedFront(base: Tree, tips: Tips, changes: seq<BranchChange>, p: Path)
    requires Resolves(tips, changes) && changes != []
    ensures SomeChanges(base, tips, changes, p) <==>
            SomeChanges(base, tips, changes[..|changes| - 1], p) || ChangesAt(base, tips, changes, |changes| - 1, p)
  {
    var n := |changes| - 1;
    var front := changes[..n];
    assert forall i: nat :: i < n ==> (ChangesAt(base, tips, front, i, p) <==> ChangesAt(base, tips, changes, i, p));
  }

  lemma NothingPiled(pad: string, base: Tree, tips: Tips)
    ensures Run(Piling(pad), base, base, tips, []).tree == base
  {
  }

  lemma PiledMoves(pad: string, b: Option<Entry>, o: Option<Entry>, t: Option<Entry>)
    requires pad != ""
    ensures Piled(pad, b, o, t) != b <==> o != b || t != b
  {
    if o != b && t != b && o != t {
      assert |ContentOf(Piled(pad, b, o, t))| > |ContentOf(b)|;
    }
  }

  // ---- leaving one branch out shows ----

  /** How long a text the entry holds. */
  function Size(x: Option<Entry>): nat {
    |ContentOf(x)|
  }

  /** Longer than any text at the path. */
  ghost predicate Outgrows(pad: string, base: Tree, tips: Tips, changes: seq<BranchChange>, p: Path)
    requires Resolves(tips, changes)
  {
    Size(At(base, p)) < |pad| && forall i: nat :: i < |changes| ==> Size(At(Theirs(tips, changes, i), p)) < |pad|
  }

  lemma {:induction false} SomePadOutgrows(base: Tree, tips: Tips, changes: seq<BranchChange>, p: Path) returns (pad: string)
    requires Resolves(tips, changes)
    ensures Outgrows(pad, base, tips, changes, p)
  {
    if changes == [] {
      pad := ContentOf(At(base, p)) + "x";
    } else {
      var n := |changes| - 1;
      var front := changes[..n];
      pad := SomePadOutgrows(base, tips, front, p);
      assert forall i: nat :: i < n ==> Theirs(tips, front, i) == Theirs(tips, changes, i);
      pad := pad + ContentOf(At(Theirs(tips, changes, n), p)) + "x";
    }
  }

  /** A fold of some of the branches against the fold of all of them, at a path
      with base text b that the first branch to change it left as v. While every
      change seen left it as v they read alike, up to whether v has arrived; from
      then on the full fold is at least as long, and longer once a change other
      than v was left out. */
  ghost predicate Behind(pad: string, b: Option<Entry>, v: Option<Entry>, part: Option<Entry>, full: Option<Entry>,
                         begun: bool, alike: bool, missed: bool) {
    if !alike then Size(full) >= |pad| && Size(part) <= Size(full) && (missed ==> Size(part) < Size(full))
    else !missed && if begun then full == v && part in {b, v} else full == b && part == b
  }

  lemma BehindNext(pad: string, b: Option<Entry>, v: Option<Entry>, part: Option<Entry>, full: Option<Entry>,
                   begun: bool, alike: bool, missed: bool, t: Option<Entry>, inPart: bool, misses: bool)
    requires Behind(pad, b, v, part, full, begun, alike, missed) && b != v
    requires Size(b) < |pad| && Size(v) < |pad| && Size(t) < |pad|
    requires !begun ==> t in {b, v}
    requires misses ==> t !in {b, v} && !inPart
    requires !alike ==> begun
    ensures Behind(pad, b, v, if inPart then Piled(pad, b, part, t) else part, Piled(pad, b, full, t),
                   begun || t == v, alike && t in {b, v}, missed || misses)
  {
  }

  /** The branches up to n changed the path as the first one did. */
  ghost predicate AlikeSoFar(base: Tree, tips: Tips, changes: seq<BranchChange>, p: Path, v: Option<Entry>, n: nat)
    requires Resolves(tips, changes) && n <= |changes|
  {
    forall k: nat :: k < n ==> At(Theirs(tips, changes, k), p) in {At(base, p), v}
  }

  /** `first` is the first branch to change the path, and branch i, not among the
      selected, changed it otherwise. */
  ghost predicate Misses(base: Tree, tips: Tips, changes: seq<BranchChange>, at: set<nat>, first: nat, i: nat, p: Path)
    requires Resolves(tips, changes)
  {
    && first < |changes| && ChangesAt(base, tips, changes, first, p)
    && (forall k: nat :: k < first ==> !ChangesAt(base, tips, changes, k, p))
    && i < |changes| && i !in at && ChangesAt(base, tips, changes, i, p)
    && At(Theirs(tips, changes, i), p) != At(Theirs(tips, changes, first), p)
  }

  lemma OneMoreSeen(base: Tree, tips: Tips, changes: seq<BranchChange>, at: set<nat>, first: nat, i: nat, p: Path, m: nat)
    requires Resolves(tips, changes) && Misses(base, tips, changes, at, first, i, p) && m < |changes|
    ensures var v, t := At(Theirs(tips, changes, first), p), At(Theirs(tips, changes, m), p);
            && v != At(base, p)
            && (first < m + 1 <==> first < m || t == v)
            && (!(first < m) ==> t in {At(base, p), v})
            && (!AlikeSoFar(base, tips, changes, p, v, m) ==> first < m)
            && (m == i ==> t !in {At(base, p), v} && m !in at)
            && (AlikeSoFar(base, tips, changes, p, v, m + 1) <==> AlikeSoFar(base, tips, changes, p, v, m) && t in {At(base, p), v})
  {
    if m <= first {
      forall k: nat | k < m
        ensures At(Theirs(tips, changes, k), p) == At(base, p)
      {
        assert !ChangesAt(base, tips, changes, k, p);
      }
    }
    if m < first {
      assert !ChangesAt(base, tips, changes, m, p);
    }
  }

  /** Under a pad that outgrows the texts, a fold that leaves out branch i, which
      changed the path otherwise than the first branch to change it, reads
      otherwise there than the fold of all. */
  lemma {:induction false} LeavingOutShows(pad: string, base: Tree, tips: Tips, changes: seq<BranchChange>, at: set<nat>,
                                           first: nat, i: nat, p: Path)
    requires Resolves(tips, changes) && Outgrows(pad, base, tips, changes, p)
    requires Misses(base, tips, changes, at, first, i, p)
    ensures Resolves(tips, Select(changes, at))
    ensures At(Run(Piling(pad), base, base, tips, Select(changes, at)).tree, p) != At(Run(Piling(pad), base, base, tips, changes).tree, p)
  {
    hide Run, Piling;
    assert changes[..|changes|] == changes;
    PrefixBehind(pad, base, tips, changes, at, first, i, p, |changes|);
    assert !AlikeSoFar(base, tips, changes, p, At(Theirs(tips, changes, first), p), |changes|);
  }

  lemma {:induction false} PrefixBehind(pad: string, base: Tree, tips: Tips, changes: seq<BranchChange>, at: set<nat>,
                                        first: nat, i: nat, p: Path, n: nat)
    requires Resolves(tips, changes) && Outgrows(pad, base, tips, changes, p)
    requires Misses(base, tips, changes, at, first, i, p)
    requires n <= |changes|
    ensures Resolves(tips, changes[..n]) && Resolves(tips, Select(changes[..n], at))
    ensures var v := At(Theirs(tips, changes, first), p);
            Behind(pad, At(base, p), v, At(Run(Piling(pad), base, base, tips, Select(changes[..n], at)).tree, p),
                   At(Run(Piling(pad), base, base, tips, changes[..n]).tree, p), first < n, AlikeSoFar(base, tips, changes, p, v, n), i < n)
  {
    hide Run, Piling, Piled, Behind;
    var v := At(Theirs(tips, changes, first), p);
    SelectResolves(tips, changes[..n], at);
    if n == 0 {
      NothingPiled(pad, base, tips);
      assert Behind(pad, At(base, p), v, At(base, p), At(base, p), false, true, false) by {
        NothingBehind(pad, At(base, p), v);
      }
      assert Select(changes[..0], at) == [];
    } else {
      var m := n - 1;
      PrefixBehind(pad, base, tips, changes, at, first, i, p, m);
      var front := changes[..m];
      var t := At(Theirs(tips, changes, m), p);
      PilingPrefix(pad, base, tips, changes, at, p, m);
      OneMoreSeen(base, tips, changes, at, first, i, p, m);
      hide Misses, AlikeSoFar;
      BehindNext(pad, At(base, p), v, At(Run(Piling(pad), base, base, tips, Select(front, at)).tree, p),
                 At(Run(Piling(pad), base, base, tips, front).tree, p), first < m, AlikeSoFar(base, tips, changes, p, v, m), i < m,
                 t, m in at, m == i);
    }
  }

  /** Branch m in both folds. */
  lemma PilingPrefix(pad: string, base: Tree, tips: Tips, changes: seq<BranchChange>, at: set<nat>, p: Path, m: nat)
    requires Resolves(tips, changes) && m < |changes|
    ensures Resolves(tips, changes[..m]) && Resolves(tips, changes[..m + 1])
    ensures Resolves(tips, Select(changes[..m], at)) && Resolves(tips, Select(changes[..m + 1], at))
    ensures var b, t := At(base, p), At(Theirs(tips, changes, m), p);
            var part, full := At(Run(Piling(pad), base, base, tips, Select(changes[..m], at)).tree, p),
                              At(Run(Piling(pad), base, base, tips, changes[..m]).tree, p);
            && At(Run(Piling(pad), base, base, tips, changes[..m + 1]).tree, p) == Piled(pad, b, full, t)
            && At(Run(Piling(pad), base, base, tips, Select(changes[..m + 1], at)).tree, p) ==
               if m in at then Piled(pad, b, part, t) else part
  {
    hide Run, Piling, Piled;
    var front, all := changes[..m], changes[..m + 1];
    SelectResolves(tips, front, at);
    SelectResolves(tips, all, at);
    assert all[..m] == front && all == front + [changes[m]];
    assert Theirs(tips, all, m) == Theirs(tips, changes, m);
    PilingSteps(pad, base, tips, all, p);
    if m in at {
      var some := Select(all, at);
      assert some == Select(front, at) + [changes[m]] && some[..|some| - 1] == Select(front, at);
      assert Theirs(tips, some, |some| - 1) == Theirs(tips, changes, m);
      PilingSteps(pad, base, tips, some, p);
    } else {
      assert Select(all, at) == Select(front, at);
    }
  }

  lemma NothingBehind(pad: string, b: Option<Entry>, v: Option<Entry>)
    ensures Behind(pad, b, v, b, b, false, true, false)
  {
  }
}
