/** The git primitives the engine is built on, by specification only: trees,
    commits, ancestry, the path-local three-way merge, the tree overlay and the
    blob splice. Commits are values, so a commit is its tree, its parents and
    its message. */
module Git {

  datatype Option<+T> = None | Some(value: T)

  datatype Result<+T, +E> = Ok(value: T) | Err(error: E)

  type Path = string

  /** One tree entry: a file mode and the blob's content. */
  datatype Entry = Entry(mode: string, content: string)

  /** A tree maps each tracked path to its entry; an absent path is not in it. */
  type Tree = map<Path, Entry>

  datatype Commit = Commit(tree: Tree, parents: seq<Commit>, message: string)

  function At(t: Tree, p: Path): Option<Entry> {
    if p in t then Some(t[p]) else None
  }

  /** What a resolver is shown for one side: a missing path reads as empty. */
  function ContentOf(e: Option<Entry>): string {
    if e.Some? then e.value.content else ""
  }

  lemma TreeExtensionality(s: Tree, t: Tree)
    requires forall p: Path :: At(s, p) == At(t, p)
    ensures s == t
  {
    assert forall p :: p in s <==> At(s, p).Some?;
    assert forall p :: p in t <==> At(t, p).Some?;
    assert forall p :: p in s ==> At(s, p) == Some(s[p]);
    assert forall p :: p in t ==> At(t, p) == Some(t[p]);
  }

  /** `git diff --name-only from to`: the two-tree diff. */
  function DiffPaths(from: Tree, to: Tree): set<Path> {
    set p | p in from.Keys + to.Keys && At(from, p) != At(to, p)
  }

  lemma DiffersAt(from: Tree, to: Tree, p: Path)
    ensures p in DiffPaths(from, to) <==> At(from, p) != At(to, p)
  {
  }

  /** Deleted paths paired one to one with added ones, as git pairs renames. */
  predicate RenamePairs(from: Tree, to: Tree, renames: map<Path, Path>) {
    && (forall s <- renames :: s in from && s !in to && renames[s] !in from && renames[s] in to)
    && forall s <- renames, t <- renames :: renames[s] == renames[t] ==> s == t
  }

  /** `git diff --name-only` as it runs by default: a rename is listed under its
      new name only. */
  function NamesChanged(from: Tree, to: Tree, renames: map<Path, Path>): set<Path> {
    DiffPaths(from, to) - renames.Keys
  }

  /** Some path of the set matches. */
  ghost predicate Touches(on: Path -> bool, w: set<Path>) {
    exists p :: p in w && on(p)
  }

  /** A judgement of the recorded names is that of the diff, whatever is judged
      and even if only single paths are matched, exactly when no rename was paired. */
  lemma RecordShowsAllIff(from: Tree, to: Tree, renames: map<Path, Path>)
    requires RenamePairs(from, to, renames)
    ensures (forall held: set<Path> -> bool :: held(NamesChanged(from, to, renames)) == held(DiffPaths(from, to))) <==> renames == map[]
    ensures (forall on: Path -> bool :: Touches(on, NamesChanged(from, to, renames)) <==> Touches(on, DiffPaths(from, to))) <==> renames == map[]
  {
    var names, diff := NamesChanged(from, to, renames), DiffPaths(from, to);
    if renames == map[] {
      assert names == diff;
    } else {
      var s :| s in renames;
      assert s in diff && s !in names;
      var held: set<Path> -> bool, on: Path -> bool := w => w == diff, p => p == s;
      assert held(names) != held(diff);
      assert Touches(on, diff) && !Touches(on, names);
    }
  }

  /** What one matcher misses: it matches old names of renames, and nothing that
      is recorded. */
  lemma RecordHidesFromIff(from: Tree, to: Tree, renames: map<Path, Path>, on: Path -> bool)
    requires RenamePairs(from, to, renames)
    ensures Touches(on, DiffPaths(from, to)) != Touches(on, NamesChanged(from, to, renames)) <==>
            (exists s :: s in renames && on(s)) && forall p :: p in NamesChanged(from, to, renames) ==> !on(p)
  {
    assert forall s :: s in renames ==> s in DiffPaths(from, to);
  }

  /** `DiffNameOnly` between a commit and a descendant of it. Which renames git
      pairs is its own affair. */
  method DiffNameOnly(from: Tree, to: Tree) returns (names: set<Path>, ghost renames: map<Path, Path>)
    ensures RenamePairs(from, to, renames) && names == NamesChanged(from, to, renames)
    ensures names <= DiffPaths(from, to) && forall p <- DiffPaths(from, to) - names :: p in from && p !in to
  {
    var pairs: map<Path, Path> := *;
    if !RenamePairs(from, to, pairs) {
      pairs := map[];
    }
    return NamesChanged(from, to, pairs), pairs;
  }

  /** `git merge-base --is-ancestor`: reflexive and transitive over parents. */
  ghost predicate IsAncestor(a: Commit, c: Commit) {
    a == c || exists i :: 0 <= i < |c.parents| && IsAncestor(a, c.parents[i])
  }

  lemma {:induction false} AncestorTransitive(a: Commit, b: Commit, c: Commit)
    requires IsAncestor(a, b) && IsAncestor(b, c)
    ensures IsAncestor(a, c)
    decreases c
  {
    if b != c {
      var i :| 0 <= i < |c.parents| && IsAncestor(b, c.parents[i]);
      AncestorTransitive(a, b, c.parents[i]);
    }
  }

  /** Two commits that contain each other are one. */
  lemma {:induction false} AncestorAntisymmetric(a: Commit, b: Commit)
    requires IsAncestor(a, b) && IsAncestor(b, a)
    ensures a == b
    decreases a
  {
    if a != b {
      var i :| 0 <= i < |a.parents| && IsAncestor(b, a.parents[i]);
      var parent := a.parents[i];
      assert IsAncestor(parent, a) by {
        assert IsAncestor(parent, a.parents[i]);
      }
      AncestorTransitive(parent, a, b);
      AncestorAntisymmetric(parent, b);
      AncestorAntisymmetric(parent, a);
    }
  }

  // ---- the three-way merge ----

  datatype Merged = Clean(entry: Option<Entry>) | Conflict(entry: Option<Entry>)

  /** Content merge of a path changed differently on both sides: any
      deterministic function of the path and the three versions. */
  type ContentMerge = (Path, Option<Entry>, Option<Entry>, Option<Entry>) -> Merged

  /** A resolver answers with a body, or None when it declines. */
  type Resolver = (Path, string, string, string) -> Option<string>

  /** A configured engine: git's content merge and the optional resolver. */
  datatype Engine = Engine(content: ContentMerge, resolver: Option<Resolver>)

  function MergePath(e: Engine, p: Path, base: Option<Entry>, ours: Option<Entry>, theirs: Option<Entry>): Merged {
    if ours == base then Clean(theirs)
    else if theirs == base then Clean(ours)
    else if ours == theirs then Clean(ours)
    else e.content(p, base, ours, theirs)
  }

  function MergeAt(e: Engine, p: Path, base: Tree, ours: Tree, theirs: Tree): Merged {
    MergePath(e, p, At(base, p), At(ours, p), At(theirs, p))
  }

  /** A merge's tree is written even when it conflicts. */
  datatype MergeTreeResult = MergeTreeResult(tree: Tree, conflicts: set<Path>)

  /** `git merge-tree --write-tree --merge-base=base ours theirs`, path by path. */
  function MergeTree(e: Engine, base: Tree, ours: Tree, theirs: Tree): MergeTreeResult {
    var paths := base.Keys + ours.Keys + theirs.Keys;
    MergeTreeResult(
      map p | p in paths && MergeAt(e, p, base, ours, theirs).entry.Some? :: MergeAt(e, p, base, ours, theirs).entry.value,
      set p | p in paths && MergeAt(e, p, base, ours, theirs).Conflict?)
  }

  /** Outside the three trees nothing merges and nothing conflicts, so the
      result reads the same at every path whatsoever. */
  lemma MergeTreeAt(e: Engine, base: Tree, ours: Tree, theirs: Tree, p: Path)
    ensures At(MergeTree(e, base, ours, theirs).tree, p) == MergeAt(e, p, base, ours, theirs).entry
    ensures p in MergeTree(e, base, ours, theirs).conflicts <==> MergeAt(e, p, base, ours, theirs).Conflict?
  {
  }

  const DEFAULT_MODE := "100644"

  /** Substitute resolved bodies into a tree, keeping each path's mode and
      adding a missing path as a regular file. */
  function SpliceBlobs(t: Tree, blobs: map<Path, string>): Tree {
    t + map p | p in blobs :: Entry(if p in t then t[p].mode else DEFAULT_MODE, blobs[p])
  }

  // ---- the overlay ----

  /** Apply one head's base-to-head diff onto a tree. */
  function ApplyDiff(t: Tree, base: Tree, head: Tree): Tree {
    var d := DiffPaths(base, head);
    (t - d) + map p | p in d && p in head :: head[p]
  }

  lemma ApplyDiffAt(t: Tree, base: Tree, head: Tree, p: Path)
    ensures At(ApplyDiff(t, base, head), p) == if At(base, p) != At(head, p) then At(head, p) else At(t, p)
  {
  }

  /** `OverlayTrees`: seed from base, then apply every head's diff in order. */
  function OverlayTrees(base: Tree, heads: seq<Commit>): Tree {
    if heads == [] then base
    else ApplyDiff(OverlayTrees(base, heads[..|heads| - 1]), base, heads[|heads| - 1].tree)
  }
}
