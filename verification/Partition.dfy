/** Grouping branches by write-set overlap: the union-find partition, and its
    specification as the connected components of "share a path or an edge". */
module Partition {
  import opened Git
  import opened Seqs
  import opened UnionFinds

  /** A branch and the paths it changed. */
  datatype BranchChange = BranchChange(branch: string, writeSet: set<Path>)

  /** A caller-supplied pair of branch names to be grouped together. */
  type Edge = (string, string)

  // ---- specification: connected components ----

  ghost predicate SharePath(changes: seq<BranchChange>, i: nat, j: nat)
    requires i < |changes| && j < |changes|
  {
    exists p :: p in changes[i].writeSet && p in changes[j].writeSet
  }

  /** A name binds the last change that carries it. */
  ghost predicate Binds(changes: seq<BranchChange>, name: string, i: nat) {
    i < |changes| && changes[i].branch == name && forall m: nat :: i < m < |changes| ==> changes[m].branch != name
  }

  ghost predicate HasEdge(changes: seq<BranchChange>, edges: seq<Edge>, i: nat, j: nat) {
    exists k :: 0 <= k < |edges| && Binds(changes, edges[k].0, i) && Binds(changes, edges[k].1, j)
  }

  ghost predicate Linked(changes: seq<BranchChange>, edges: seq<Edge>, i: nat, j: nat)
    requires i < |changes| && j < |changes|
  {
    SharePath(changes, i, j) || HasEdge(changes, edges, i, j) || HasEdge(changes, edges, j, i)
  }

  ghost predicate IsWalk(changes: seq<BranchChange>, edges: seq<Edge>, w: seq<nat>) {
    && w != []
    && (forall k :: 0 <= k < |w| ==> w[k] < |changes|)
    && (forall k :: 0 <= k < |w| - 1 ==> Linked(changes, edges, w[k], w[k + 1]))
  }

  /** Reachable through a chain of overlaps and edges. */
  ghost predicate Connected(changes: seq<BranchChange>, edges: seq<Edge>, i: nat, j: nat) {
    exists w: seq<nat> :: IsWalk(changes, edges, w) && w[0] == i && w[|w| - 1] == j
  }

  lemma ConnectedReflexive(changes: seq<BranchChange>, edges: seq<Edge>, i: nat)
    requires i < |changes|
    ensures Connected(changes, edges, i, i)
  {
    assert IsWalk(changes, edges, [i]);
  }

  lemma LinkedConnected(changes: seq<BranchChange>, edges: seq<Edge>, i: nat, j: nat)
    requires i < |changes| && j < |changes| && Linked(changes, edges, i, j)
    ensures Connected(changes, edges, i, j)
  {
    assert IsWalk(changes, edges, [i, j]);
  }

  lemma ConnectedSymmetric(changes: seq<BranchChange>, edges: seq<Edge>, i: nat, j: nat)
    requires Connected(changes, edges, i, j)
    ensures Connected(changes, edges, j, i)
  {
    var w: seq<nat> :| IsWalk(changes, edges, w) && w[0] == i && w[|w| - 1] == j;
    var v := seq(|w|, k requires 0 <= k < |w| => w[|w| - 1 - k]);
    forall k | 0 <= k < |v| - 1
      ensures Linked(changes, edges, v[k], v[k + 1])
    {
      assert Linked(changes, edges, w[|w| - 2 - k], w[|w| - 2 - k + 1]);
    }
    assert IsWalk(changes, edges, v);
  }

  lemma ConnectedTransitive(changes: seq<BranchChange>, edges: seq<Edge>, i: nat, j: nat, k: nat)
    requires Connected(changes, edges, i, j) && Connected(changes, edges, j, k)
    ensures Connected(changes, edges, i, k)
  {
    var v: seq<nat> :| IsWalk(changes, edges, v) && v[0] == i && v[|v| - 1] == j;
    var w: seq<nat> :| IsWalk(changes, edges, w) && w[0] == j && w[|w| - 1] == k;
    var u := v + w[1..];
    forall m | 0 <= m < |u| - 1
      ensures Linked(changes, edges, u[m], u[m + 1])
    {
      if m < |v| - 1 {
        assert Linked(changes, edges, v[m], v[m + 1]);
      } else {
        assert Linked(changes, edges, w[m - (|v| - 1)], w[m - (|v| - 1) + 1]);
      }
    }
    assert IsWalk(changes, edges, u);
  }

  ghost function ClassOf(changes: seq<BranchChange>, edges: seq<Edge>, i: nat): set<nat> {
    set j: nat | j < |changes| && Connected(changes, edges, i, j)
  }

  /** i is the smallest member of its component. */
  ghost predicate Leads(changes: seq<BranchChange>, edges: seq<Edge>, i: nat) {
    forall j: nat :: j < i ==> !Connected(changes, edges, j, i)
  }

  /** The components led by an index below k, by ascending leader. */
  ghost function ClassesBelow(changes: seq<BranchChange>, edges: seq<Edge>, k: nat): seq<set<nat>> {
    if k == 0 then []
    else ClassesBelow(changes, edges, k - 1) +
         if Leads(changes, edges, k - 1) then [ClassOf(changes, edges, k - 1)] else []
  }

  /** The components, ordered by their smallest member. */
  ghost function Classes(changes: seq<BranchChange>, edges: seq<Edge>): seq<set<nat>> {
    ClassesBelow(changes, edges, |changes|)
  }

  /** The partition: each component's members in input order. */
  ghost function Groups(changes: seq<BranchChange>, edges: seq<Edge>): seq<seq<BranchChange>> {
    SelectAll(changes, Classes(changes, edges))
  }

  // ---- what the components are ----

  lemma ClassesEqual(changes: seq<BranchChange>, edges: seq<Edge>, i: nat, j: nat)
    requires Connected(changes, edges, i, j)
    ensures ClassOf(changes, edges, i) == ClassOf(changes, edges, j)
  {
    ConnectedSymmetric(changes, edges, i, j);
    forall k: nat | k < |changes|
      ensures k in ClassOf(changes, edges, i) <==> k in ClassOf(changes, edges, j)
    {
      if Connected(changes, edges, i, k) {
        ConnectedTransitive(changes, edges, j, i, k);
      }
      if Connected(changes, edges, j, k) {
        ConnectedTransitive(changes, edges, i, j, k);
      }
    }
  }

  /** Every member of a led class is connected to, and no smaller than, its leader. */
  lemma {:induction false} ClassesBelowShape(changes: seq<BranchChange>, edges: seq<Edge>, k: nat, c: set<nat>)
    requires k <= |changes|
    ensures c in ClassesBelow(changes, edges, k) <==>
            exists i: nat :: i < k && Leads(changes, edges, i) && c == ClassOf(changes, edges, i)
  {
    if k > 0 {
      ClassesBelowShape(changes, edges, k - 1, c);
    }
  }

  lemma {:induction false} LeaderExists(changes: seq<BranchChange>, edges: seq<Edge>, i: nat) returns (l: nat)
    requires i < |changes|
    ensures l <= i && Leads(changes, edges, l) && Connected(changes, edges, l, i)
    decreases i
  {
    if Leads(changes, edges, i) {
      l := i;
      ConnectedReflexive(changes, edges, i);
    } else {
      var j: nat :| j < i && Connected(changes, edges, j, i);
      l := LeaderExists(changes, edges, j);
      ConnectedTransitive(changes, edges, l, j, i);
    }
  }

  /** One class lies wholly after some element of the other: for disjoint
      classes, the order of their smallest members. */
  ghost predicate Before(s: set<nat>, t: set<nat>) {
    exists x :: x in s && forall y :: y in t ==> x < y
  }

  ghost predicate Ascending(cs: seq<set<nat>>) {
    && (forall a :: 0 <= a < |cs| ==> cs[a] != {})
    && (forall a, b :: 0 <= a < b < |cs| ==> Before(cs[a], cs[b]))
  }

  lemma BeforeAsymmetric(s: set<nat>, t: set<nat>)
    requires Before(s, t)
    ensures !Before(t, s) && s != t
  {
  }

  lemma LeadersOrdered(changes: seq<BranchChange>, edges: seq<Edge>, i: nat, j: nat)
    requires i < j < |changes| && Leads(changes, edges, j)
    ensures Before(ClassOf(changes, edges, i), ClassOf(changes, edges, j))
  {
    ConnectedReflexive(changes, edges, i);
    assert i in ClassOf(changes, edges, i);
    forall y | y in ClassOf(changes, edges, j)
      ensures i < y
    {
      ConnectedSymmetric(changes, edges, j, y);
    }
  }

  lemma LedAfterBelow(changes: seq<BranchChange>, edges: seq<Edge>, k: nat, c: set<nat>)
    requires k < |changes| && Leads(changes, edges, k) && c in ClassesBelow(changes, edges, k)
    ensures Before(c, ClassOf(changes, edges, k))
  {
    ClassesBelowShape(changes, edges, k, c);
    var i: nat :| i < k && Leads(changes, edges, i) && c == ClassOf(changes, edges, i);
    LeadersOrdered(changes, edges, i, k);
  }

  lemma ClassNonempty(changes: seq<BranchChange>, edges: seq<Edge>, k: nat)
    requires k < |changes|
    ensures k in ClassOf(changes, edges, k)
  {
    ConnectedReflexive(changes, edges, k);
  }

  lemma {:induction false} ClassesBelowAscending(changes: seq<BranchChange>, edges: seq<Edge>, k: nat)
    requires k <= |changes|
    ensures Ascending(ClassesBelow(changes, edges, k))
  {
    hide ClassOf, Leads, Before;
    if k > 0 {
      ClassesBelowAscending(changes, edges, k - 1);
      var cs := ClassesBelow(changes, edges, k - 1);
      if Leads(changes, edges, k - 1) {
        ClassNonempty(changes, edges, k - 1);
        forall a | 0 <= a < |cs|
          ensures Before(cs[a], ClassOf(changes, edges, k - 1))
        {
          LedAfterBelow(changes, edges, k - 1, cs[a]);
        }
      }
    }
  }

  /** Each branch is in exactly one group. */
  lemma ClassesSplit(changes: seq<BranchChange>, edges: seq<Edge>)
    ensures Splits(Classes(changes, edges), |changes|)
  {
    var cs, n := Classes(changes, edges), |changes|;
    forall i: nat | i < n
      ensures Covers(cs, i)
    {
      var l := LeaderExists(changes, edges, i);
      ClassesBelowShape(changes, edges, n, ClassOf(changes, edges, l));
      assert i in ClassOf(changes, edges, l);
    }
    ClassesBelowAscending(changes, edges, n);
    forall j, k, i | 0 <= j < k < |cs| && i in cs[j]
      ensures i !in cs[k]
    {
      ClassesBelowShape(changes, edges, n, cs[j]);
      ClassesBelowShape(changes, edges, n, cs[k]);
      if i in cs[k] {
        var a: nat :| a < n && cs[j] == ClassOf(changes, edges, a);
        var b: nat :| b < n && cs[k] == ClassOf(changes, edges, b);
        assert i in ClassOf(changes, edges, a) && i in ClassOf(changes, edges, b);
        ConnectedSymmetric(changes, edges, b, i);
        ConnectedTransitive(changes, edges, a, i, b);
        ClassesEqual(changes, edges, a, b);
        BeforeAsymmetric(cs[j], cs[k]);
      }
    }
  }

  /** Members of different groups are not connected. */
  lemma ClassesApart(changes: seq<BranchChange>, edges: seq<Edge>, k: nat, i: nat, j: nat)
    requires k < |Classes(changes, edges)| && i < |changes| && j < |changes|
    requires i in Classes(changes, edges)[k] && j !in Classes(changes, edges)[k]
    ensures !Connected(changes, edges, i, j)
  {
    hide IsWalk;
    var c := Classes(changes, edges)[k];
    ClassesBelowShape(changes, edges, |changes|, c);
    var a: nat :| a < |changes| && c == ClassOf(changes, edges, a);
    assert i in ClassOf(changes, edges, a) && j !in ClassOf(changes, edges, a);
    if Connected(changes, edges, i, j) {
      ConnectedTransitive(changes, edges, a, i, j);
    }
  }

  /** Members of different groups share no path. */
  lemma ClassesPathDisjoint(changes: seq<BranchChange>, edges: seq<Edge>, k: nat, i: nat, j: nat)
    requires k < |Classes(changes, edges)| && i < |changes| && j < |changes|
    requires i in Classes(changes, edges)[k] && j !in Classes(changes, edges)[k]
    ensures changes[i].writeSet !! changes[j].writeSet
  {
    var c := Classes(changes, edges)[k];
    ClassesBelowShape(changes, edges, |changes|, c);
    var a: nat :| a < |changes| && c == ClassOf(changes, edges, a);
    if SharePath(changes, i, j) {
      assert i in ClassOf(changes, edges, a);
      LinkedConnected(changes, edges, i, j);
      ConnectedTransitive(changes, edges, a, i, j);
    }
  }

  /** Members of one group are connected. */
  lemma ClassesTogether(changes: seq<BranchChange>, edges: seq<Edge>, k: nat, i: nat, j: nat)
    requires k < |Classes(changes, edges)| && i in Classes(changes, edges)[k] && j in Classes(changes, edges)[k]
    ensures i < |changes| && j < |changes| && Connected(changes, edges, i, j)
  {
    hide IsWalk;
    var c := Classes(changes, edges)[k];
    ClassesBelowShape(changes, edges, |changes|, c);
    var a: nat :| a < |changes| && c == ClassOf(changes, edges, a);
    assert i in ClassOf(changes, edges, a) && j in ClassOf(changes, edges, a);
    ConnectedSymmetric(changes, edges, a, i);
    ConnectedTransitive(changes, edges, i, a, j);
  }

  /** An edge puts the last changes that carry its two names in one group. */
  lemma EdgeJoins(changes: seq<BranchChange>, edges: seq<Edge>, k: nat, i: nat, j: nat)
    requires k < |edges| && i < |changes| && j < |changes|
    requires edges[k] == (changes[i].branch, changes[j].branch)
    requires forall m: nat :: i < m < |changes| ==> changes[m].branch != changes[i].branch
    requires forall m: nat :: j < m < |changes| ==> changes[m].branch != changes[j].branch
    ensures forall c :: 0 <= c < |Classes(changes, edges)| ==> (i in Classes(changes, edges)[c] <==> j in Classes(changes, edges)[c])
  {
    assert Binds(changes, edges[k].0, i) && Binds(changes, edges[k].1, j);
    assert HasEdge(changes, edges, i, j);
    LinkedConnected(changes, edges, i, j);
    ConnectedSymmetric(changes, edges, i, j);
    hide Classes, Connected;
    forall c | 0 <= c < |Classes(changes, edges)|
      ensures i in Classes(changes, edges)[c] <==> j in Classes(changes, edges)[c]
    {
      if i in Classes(changes, edges)[c] && j !in Classes(changes, edges)[c] {
        ClassesApart(changes, edges, c, i, j);
      }
      if j in Classes(changes, edges)[c] && i !in Classes(changes, edges)[c] {
        ClassesApart(changes, edges, c, j, i);
      }
    }
  }

  /** So when no name is listed twice, an edge puts the two branches it names in
      one group. */
  lemma EdgeGroups(changes: seq<BranchChange>, edges: seq<Edge>, k: nat, i: nat, j: nat)
    requires forall a, b :: 0 <= a < b < |changes| ==> changes[a].branch != changes[b].branch
    requires k < |edges| && i < |changes| && j < |changes| && edges[k] == (changes[i].branch, changes[j].branch)
    ensures exists g <- Groups(changes, edges) :: changes[i] in g && changes[j] in g
  {
    hide Classes;
    var cs := Classes(changes, edges);
    EdgeJoins(changes, edges, k, i, j);
    ClassesSplit(changes, edges);
    assert Covers(cs, i);
    var c :| 0 <= c < |cs| && i in cs[c];
    SelectMembers(changes, cs[c], changes[i]);
    SelectMembers(changes, cs[c], changes[j]);
    assert Groups(changes, edges)[c] == Select(changes, cs[c]);
    assert Groups(changes, edges)[c] in Groups(changes, edges);
  }

  /** Nothing else is put together: a set of branches that is closed under sharing
      a path and under the edges, as each name's last carrier has it, holds every
      group it meets. */
  lemma GroupsAreLeast(changes: seq<BranchChange>, edges: seq<Edge>, s: set<nat>, c: nat, i: nat, j: nat)
    requires forall a: nat, b: nat, p :: a in s && a < |changes| && b < |changes| && p in changes[a].writeSet && p in changes[b].writeSet ==> b in s
    requires forall k, a: nat, b: nat ::
               (&& 0 <= k < |edges| && a < |changes| && b < |changes| && edges[k] == (changes[a].branch, changes[b].branch)
                && (forall m: nat :: a < m < |changes| ==> changes[m].branch != edges[k].0)
                && (forall m: nat :: b < m < |changes| ==> changes[m].branch != edges[k].1))
               ==> (a in s <==> b in s)
    requires c < |Classes(changes, edges)| && i in Classes(changes, edges)[c] && j in Classes(changes, edges)[c] && i in s
    ensures j in s
  {
    ClassesTogether(changes, edges, c, i, j);
    var w: seq<nat> :| IsWalk(changes, edges, w) && w[0] == i && w[|w| - 1] == j;
    WalkStaysIn(changes, edges, s, w);
  }

  lemma {:induction false} WalkStaysIn(changes: seq<BranchChange>, edges: seq<Edge>, s: set<nat>, w: seq<nat>)
    requires forall a: nat, b: nat, p :: a in s && a < |changes| && b < |changes| && p in changes[a].writeSet && p in changes[b].writeSet ==> b in s
    requires forall k, a: nat, b: nat :: 0 <= k < |edges| && Binds(changes, edges[k].0, a) && Binds(changes, edges[k].1, b) ==> (a in s <==> b in s)
    requires IsWalk(changes, edges, w) && w[0] in s
    ensures w[|w| - 1] in s
  {
    if |w| > 1 {
      var n := |w| - 1;
      var front := w[..n];
      forall k | 0 <= k < |front| - 1
        ensures Linked(changes, edges, front[k], front[k + 1])
      {
        assert Linked(changes, edges, w[k], w[k + 1]);
      }
      WalkStaysIn(changes, edges, s, front);
      assert Linked(changes, edges, w[n - 1], w[n - 1 + 1]);
      LinkedStaysIn(changes, edges, s, w[n - 1], w[n]);
    }
  }

  lemma LinkedStaysIn(changes: seq<BranchChange>, edges: seq<Edge>, s: set<nat>, i: nat, j: nat)
    requires forall a: nat, b: nat, p :: a in s && a < |changes| && b < |changes| && p in changes[a].writeSet && p in changes[b].writeSet ==> b in s
    requires forall k, a: nat, b: nat :: 0 <= k < |edges| && Binds(changes, edges[k].0, a) && Binds(changes, edges[k].1, b) ==> (a in s <==> b in s)
    requires i < |changes| && j < |changes| && Linked(changes, edges, i, j) && i in s
    ensures j in s
  {
  }

  /** An edge naming an absent branch joins nothing. */
  lemma AbsentEdgeJoinsNothing(changes: seq<BranchChange>, edges: seq<Edge>, e: Edge)
    requires (forall bc <- changes :: bc.branch != e.0) || (forall bc <- changes :: bc.branch != e.1)
    ensures Groups(changes, edges + [e]) == Groups(changes, edges)
  {
    forall i: nat, j: nat | i < |changes| && j < |changes|
      ensures Linked(changes, edges + [e], i, j) <==> Linked(changes, edges, i, j)
    {
      AbsentLinksNothing(changes, edges, e, i, j);
    }
    forall w
      ensures IsWalk(changes, edges + [e], w) <==> IsWalk(changes, edges, w)
    {
    }
    SameWalks(changes, edges + [e], edges, |changes|);
  }

  lemma AbsentLinksNothing(changes: seq<BranchChange>, edges: seq<Edge>, e: Edge, i: nat, j: nat)
    requires (forall bc <- changes :: bc.branch != e.0) || (forall bc <- changes :: bc.branch != e.1)
    requires i < |changes| && j < |changes|
    ensures HasEdge(changes, edges + [e], i, j) <==> HasEdge(changes, edges, i, j)
    ensures HasEdge(changes, edges + [e], j, i) <==> HasEdge(changes, edges, j, i)
  {
    var all := edges + [e];
    forall k | 0 <= k < |edges|
      ensures all[k] == edges[k]
    {
    }
    assert all[|edges|] == e;
    assert forall m: nat :: m < |changes| ==> changes[m] in changes;
  }

  lemma {:induction false} SameWalks(changes: seq<BranchChange>, edges: seq<Edge>, edges': seq<Edge>, k: nat)
    requires k <= |changes|
    requires forall w :: IsWalk(changes, edges, w) <==> IsWalk(changes, edges', w)
    ensures ClassesBelow(changes, edges, k) == ClassesBelow(changes, edges', k)
    ensures k == |changes| ==> Groups(changes, edges) == Groups(changes, edges')
  {
    hide IsWalk;
    if k > 0 {
      SameWalks(changes, edges, edges', k - 1);
      assert forall i: nat, j: nat :: Connected(changes, edges, i, j) <==> Connected(changes, edges', i, j);
      assert ClassOf(changes, edges, k - 1) == ClassOf(changes, edges', k - 1);
    }
  }

  /** Extra edges only coarsen the grouping. */
  lemma EdgesOnlyCoarsen(changes: seq<BranchChange>, edges: seq<Edge>, i: nat, j: nat)
    requires Connected(changes, [], i, j)
    ensures Connected(changes, edges, i, j)
  {
    var w: seq<nat> :| IsWalk(changes, [], w) && w[0] == i && w[|w| - 1] == j;
    forall k | 0 <= k < |w| - 1
      ensures Linked(changes, edges, w[k], w[k + 1])
    {
      assert Linked(changes, [], w[k], w[k + 1]);
    }
    assert IsWalk(changes, edges, w);
  }

  // ---- branches that share no path ----

  ghost predicate PathDisjoint(changes: seq<BranchChange>) {
    forall i, j :: 0 <= i < j < |changes| ==> changes[i].writeSet !! changes[j].writeSet
  }

  lemma {:induction false} WalkStaysPut(changes: seq<BranchChange>, w: seq<nat>)
    requires PathDisjoint(changes) && IsWalk(changes, [], w)
    ensures w[0] == w[|w| - 1]
  {
    if |w| > 1 {
      var n := |w| - 1;
      forall k | 0 <= k < n - 1
        ensures Linked(changes, [], w[..n][k], w[..n][k + 1])
      {
        assert Linked(changes, [], w[k], w[k + 1]);
      }
      WalkStaysPut(changes, w[..n]);
      assert Linked(changes, [], w[n - 1], w[n - 1 + 1]);
      SharersAreOne(changes, w[n - 1], w[n]);
    }
  }

  lemma OthersDisjoint(changes: seq<BranchChange>, i: nat, j: nat)
    requires PathDisjoint(changes) && i < |changes| && j < |changes| && i != j
    ensures changes[i].writeSet !! changes[j].writeSet
  {
    var first, last := if i < j then i else j, if i < j then j else i;
    assert changes[first].writeSet !! changes[last].writeSet;
  }

  lemma SharersAreOne(changes: seq<BranchChange>, i: nat, j: nat)
    requires PathDisjoint(changes) && i < |changes| && j < |changes| && SharePath(changes, i, j)
    ensures i == j
  {
    if i != j {
      OthersDisjoint(changes, i, j);
    }
  }

  lemma ConnectedToSelfOnly(changes: seq<BranchChange>, i: nat, j: nat)
    requires PathDisjoint(changes) && Connected(changes, [], i, j)
    ensures i == j
  {
    var w: seq<nat> :| IsWalk(changes, [], w) && w[0] == i && w[|w| - 1] == j;
    WalkStaysPut(changes, w);
  }

  lemma ClassIsItself(changes: seq<BranchChange>, m: nat)
    requires PathDisjoint(changes) && m < |changes|
    ensures ClassOf(changes, [], m) == {m} && Leads(changes, [], m)
  {
    hide Connected;
    ConnectedReflexive(changes, [], m);
    forall j: nat | Connected(changes, [], m, j)
      ensures j == m
    {
      ConnectedToSelfOnly(changes, m, j);
    }
    forall j: nat | Connected(changes, [], j, m)
      ensures j == m
    {
      ConnectedToSelfOnly(changes, j, m);
    }
  }

  /** The path partition of disjoint branches is all singletons. */
  lemma {:induction false} DisjointClassesBelow(changes: seq<BranchChange>, k: nat)
    requires PathDisjoint(changes) && k <= |changes|
    ensures ClassesBelow(changes, [], k) == seq<set<nat>>(k, i requires 0 <= i < k => {i})
  {
    if k > 0 {
      hide ClassOf, Leads;
      DisjointClassesBelow(changes, k - 1);
      ClassIsItself(changes, k - 1);
    }
  }

  /** Each group is one branch. */
  lemma DisjointGroupsAreSingletons(changes: seq<BranchChange>)
    requires PathDisjoint(changes)
    ensures Groups(changes, []) == seq(|changes|, i requires 0 <= i < |changes| => [changes[i]])
  {
    DisjointClassesBelow(changes, |changes|);
    forall i | 0 <= i < |changes|
      ensures Groups(changes, [])[i] == [changes[i]]
    {
      SelectOne(changes, i);
    }
  }

  // ---- the order determines the list ----

  lemma LastIsAfter(cs: seq<set<nat>>, c: set<nat>)
    requires Ascending(cs) && c in cs
    ensures c == cs[|cs| - 1] || Before(c, cs[|cs| - 1])
  {
    var a :| 0 <= a < |cs| && cs[a] == c;
  }

  lemma LastsAgree(cs: seq<set<nat>>, ds: seq<set<nat>>)
    requires Ascending(cs) && Ascending(ds) && cs != [] && ds != []
    requires cs[|cs| - 1] in ds && ds[|ds| - 1] in cs
    ensures cs[|cs| - 1] == ds[|ds| - 1]
  {
    var c, d := cs[|cs| - 1], ds[|ds| - 1];
    LastIsAfter(ds, c);
    LastIsAfter(cs, d);
    if Before(c, d) {
      BeforeAsymmetric(c, d);
    }
  }

  /** An ascending list of classes is determined by which classes it holds. */
  lemma {:induction false} AscendingUnique(cs: seq<set<nat>>, ds: seq<set<nat>>)
    requires Ascending(cs) && Ascending(ds)
    requires forall c :: c in cs <==> c in ds
    ensures cs == ds
  {
    if cs == [] {
      if ds != [] {
        var _ := SomeMember(ds);
        assert false;
      }
    } else {
      var m, n := |cs| - 1, |ds| - 1;
      assert cs[m] in cs;
      assert ds[n] in ds;
      LastsAgree(cs, ds);
      LastIsNew(cs);
      LastIsNew(ds);
      forall c
        ensures c in cs[..m] <==> c in ds[..n]
      {
        assert c in cs <==> c in cs[..m] || c == cs[m];
        assert c in ds <==> c in ds[..n] || c == ds[n];
      }
      AscendingUnique(cs[..m], ds[..n]);
    }
  }

  lemma SomeMember<T>(xs: seq<T>) returns (x: T)
    requires xs != []
    ensures x in xs
  {
    x := xs[0];
  }

  lemma LastIsNew(cs: seq<set<nat>>)
    requires Ascending(cs) && cs != []
    ensures cs[|cs| - 1] !in cs[..|cs| - 1]
  {
    var m := |cs| - 1;
    if cs[m] in cs[..m] {
      var a :| 0 <= a < m && cs[a] == cs[m];
      BeforeAsymmetric(cs[a], cs[m]);
    }
  }

  // ---- the algorithm ----

  /** Everything the forest has joined is connected. */
  ghost predicate Sound(changes: seq<BranchChange>, edges: seq<Edge>, root: seq<nat>) {
    && |root| == |changes|
    && forall x, y :: 0 <= x < |root| && 0 <= y < |root| && root[x] == root[y] ==> Connected(changes, edges, x, y)
  }

  /** `root'` joins at least what `root` joined. */
  ghost predicate Coarser(root: seq<nat>, root': seq<nat>) {
    && |root| == |root'|
    && forall x, y :: 0 <= x < |root| && 0 <= y < |root| && root[x] == root[y] ==> root'[x] == root'[y]
  }

  lemma JoinStaysSound(changes: seq<BranchChange>, edges: seq<Edge>, root: seq<nat>, root': seq<nat>, a: nat, b: nat)
    requires Sound(changes, edges, root) && |root'| == |root|
    requires a < |root| && b < |root| && Connected(changes, edges, a, b)
    requires forall x, y :: 0 <= x < |root| && 0 <= y < |root| ==> (root'[x] == root'[y] <==> Joined(root, a, b, x, y))
    ensures Sound(changes, edges, root') && Coarser(root, root') && root'[a] == root'[b]
  {
    ConnectedSymmetric(changes, edges, a, b);
    forall x, y | 0 <= x < |root| && 0 <= y < |root| && root'[x] == root'[y]
      ensures Connected(changes, edges, x, y)
    {
      assert Joined(root, a, b, x, y);
      if root[x] == root[a] && root[y] == root[b] {
        ConnectedTransitive(changes, edges, x, a, b);
        ConnectedTransitive(changes, edges, x, b, y);
      } else if root[x] == root[b] && root[y] == root[a] {
        ConnectedTransitive(changes, edges, x, b, a);
        ConnectedTransitive(changes, edges, x, a, y);
      }
    }
    assert Joined(root, a, b, a, b);
  }

  method JoinLinked(changes: seq<BranchChange>, ghost edges: seq<Edge>, uf: UnionFind, a: nat, b: nat)
    requires uf.Valid() && Sound(changes, edges, uf.root)
    requires a < |changes| && b < |changes| && Linked(changes, edges, a, b)
    modifies uf, uf.parent, uf.rank
    ensures uf.Valid() && Sound(changes, edges, uf.root)
    ensures Coarser(old(uf.root), uf.root) && uf.root[a] == uf.root[b]
  {
    LinkedConnected(changes, edges, a, b);
    uf.Union(a, b);
    JoinStaysSound(changes, edges, old(uf.root), uf.root, a, b);
  }

  /** Every path of change i owned, and its owner joined with i. */
  ghost predicate OwnedBy(changes: seq<BranchChange>, owner: map<Path, nat>, root: seq<nat>, i: nat, done: set<Path>)
    requires |root| == |changes| && i < |changes|
  {
    forall p :: p in done ==> p in owner && owner[p] < |root| && root[owner[p]] == root[i]
  }

  ghost predicate OwnersTouch(changes: seq<BranchChange>, owner: map<Path, nat>) {
    forall p :: p in owner ==> owner[p] < |changes| && p in changes[owner[p]].writeSet
  }

  /** Union by path overlap, through an inverted index of first owners. The
      paths of a change are visited in any order. */
  method JoinByPath(changes: seq<BranchChange>, ghost edges: seq<Edge>, uf: UnionFind)
    requires uf.Valid() && Sound(changes, edges, uf.root)
    modifies uf, uf.parent, uf.rank
    ensures uf.Valid() && Sound(changes, edges, uf.root)
    ensures forall i, j :: 0 <= i < |changes| && 0 <= j < |changes| && SharePath(changes, i, j) ==> uf.root[i] == uf.root[j]
  {
    var owner: map<Path, nat> := map[];
    for i := 0 to |changes|
      invariant uf.Valid() && Sound(changes, edges, uf.root)
      invariant OwnersTouch(changes, owner)
      invariant forall k :: 0 <= k < i ==> OwnedBy(changes, owner, uf.root, k, changes[k].writeSet)
    {
      var rest := changes[i].writeSet;
      while rest != {}
        invariant rest <= changes[i].writeSet
        invariant uf.Valid() && Sound(changes, edges, uf.root)
        invariant OwnersTouch(changes, owner)
        invariant forall k :: 0 <= k < i ==> OwnedBy(changes, owner, uf.root, k, changes[k].writeSet)
        invariant OwnedBy(changes, owner, uf.root, i, changes[i].writeSet - rest)
        decreases rest
      {
        var p :| p in rest;
        if p in owner {
          assert SharePath(changes, i, owner[p]);
          JoinLinked(changes, edges, uf, i, owner[p]);
        } else {
          owner := owner[p := i];
        }
        rest := rest - {p};
      }
    }
    forall i, j | 0 <= i < |changes| && 0 <= j < |changes| && SharePath(changes, i, j)
      ensures uf.root[i] == uf.root[j]
    {
      var p :| p in changes[i].writeSet && p in changes[j].writeSet;
      assert OwnedBy(changes, owner, uf.root, i, changes[i].writeSet);
      assert OwnedBy(changes, owner, uf.root, j, changes[j].writeSet);
    }
  }

  ghost predicate Joins(changes: seq<BranchChange>, edges: seq<Edge>, root: seq<nat>, upTo: nat)
    requires |root| == |changes| && upTo <= |edges|
  {
    forall k, i: nat, j: nat :: 0 <= k < upTo && Binds(changes, edges[k].0, i) && Binds(changes, edges[k].1, j) ==> root[i] == root[j]
  }

  /** Every name of the batch with the index it binds. */
  ghost predicate Indexes(changes: seq<BranchChange>, byName: map<string, nat>) {
    && (forall s <- byName :: Binds(changes, s, byName[s]))
    && forall i: nat :: i < |changes| ==> changes[i].branch in byName
  }

  method IndexByName(changes: seq<BranchChange>) returns (byName: map<string, nat>)
    ensures Indexes(changes, byName)
  {
    byName := map[];
    for n := 0 to |changes|
      invariant Indexes(changes[..n], byName)
    {
      IndexNext(changes, n, byName);
      byName := byName[changes[n].branch := n];
    }
    assert changes[..|changes|] == changes;
  }

  lemma IndexNext(changes: seq<BranchChange>, n: nat, byName: map<string, nat>)
    requires n < |changes| && Indexes(changes[..n], byName)
    ensures Indexes(changes[..n + 1], byName[changes[n].branch := n])
  {
    var front, all, byName' := changes[..n], changes[..n + 1], byName[changes[n].branch := n];
    assert all[n] == changes[n] && forall m: nat :: m < n ==> all[m] == front[m];
    forall s <- byName'
      ensures Binds(all, s, byName'[s])
    {
      if s != changes[n].branch {
        assert Binds(front, s, byName[s]);
      }
    }
  }

  lemma IndexedIsBound(changes: seq<BranchChange>, byName: map<string, nat>, name: string, i: nat)
    requires Indexes(changes, byName) && Binds(changes, name, i)
    ensures name in byName && byName[name] == i
  {
    assert Binds(changes, name, byName[name]);
  }

  method JoinByEdge(changes: seq<BranchChange>, edges: seq<Edge>, uf: UnionFind)
    requires uf.Valid() && Sound(changes, edges, uf.root)
    modifies uf, uf.parent, uf.rank
    ensures uf.Valid() && Sound(changes, edges, uf.root)
    ensures Coarser(old(uf.root), uf.root)
    ensures Joins(changes, edges, uf.root, |edges|)
  {
    assert |uf.root| == |changes|;
    hide Sound;
    var byName := IndexByName(changes);
    for k := 0 to |edges|
      invariant uf.Valid() && Sound(changes, edges, uf.root) && |uf.root| == |changes|
      invariant Coarser(old(uf.root), uf.root)
      invariant Joins(changes, edges, uf.root, k)
    {
      if edges[k].0 in byName && edges[k].1 in byName {
        var i, j := byName[edges[k].0], byName[edges[k].1];
        assert HasEdge(changes, edges, i, j);
        ghost var before := uf.root;
        JoinLinked(changes, edges, uf, i, j);
        JoinsCoarser(changes, edges, before, uf.root, k);
      }
      JoinsNext(changes, edges, byName, uf.root, k);
    }
  }

  lemma JoinsNext(changes: seq<BranchChange>, edges: seq<Edge>, byName: map<string, nat>, root: seq<nat>, k: nat)
    requires k < |edges| && |root| == |changes| && Indexes(changes, byName) && Joins(changes, edges, root, k)
    requires edges[k].0 in byName && edges[k].1 in byName ==>
               byName[edges[k].0] < |root| && byName[edges[k].1] < |root| && root[byName[edges[k].0]] == root[byName[edges[k].1]]
    ensures Joins(changes, edges, root, k + 1)
  {
    forall i: nat, j: nat | Binds(changes, edges[k].0, i) && Binds(changes, edges[k].1, j)
      ensures root[i] == root[j]
    {
      IndexedIsBound(changes, byName, edges[k].0, i);
      IndexedIsBound(changes, byName, edges[k].1, j);
    }
  }

  lemma JoinsCoarser(changes: seq<BranchChange>, edges: seq<Edge>, root: seq<nat>, root': seq<nat>, upTo: nat)
    requires upTo <= |edges| && |root| == |changes| && Coarser(root, root') && Joins(changes, edges, root, upTo)
    ensures Joins(changes, edges, root', upTo)
  {
  }

  lemma {:induction false} WalkSharesRoot(changes: seq<BranchChange>, edges: seq<Edge>, root: seq<nat>, w: seq<nat>)
    requires |root| == |changes| && IsWalk(changes, edges, w)
    requires forall i, j :: 0 <= i < |changes| && 0 <= j < |changes| && Linked(changes, edges, i, j) ==> root[i] == root[j]
    ensures root[w[0]] == root[w[|w| - 1]]
  {
    if |w| > 1 {
      var n := |w| - 1;
      assert IsWalk(changes, edges, w[..n]) by {
        forall k | 0 <= k < n - 1
          ensures Linked(changes, edges, w[..n][k], w[..n][k + 1])
        {
          assert Linked(changes, edges, w[k], w[k + 1]);
        }
      }
      WalkSharesRoot(changes, edges, root, w[..n]);
      assert Linked(changes, edges, w[n - 1], w[n - 1 + 1]);
    }
  }

  /** Two branches end under one root exactly when they are connected. */
  method Join(changes: seq<BranchChange>, edges: seq<Edge>) returns (uf: UnionFind)
    ensures fresh(uf) && fresh(uf.parent) && fresh(uf.rank)
    ensures uf.Valid() && |uf.root| == |changes|
    ensures forall x: nat, y: nat :: x < |changes| && y < |changes| ==>
              (uf.root[x] == uf.root[y] <==> Connected(changes, edges, x, y))
  {
    uf := new UnionFind(|changes|);
    forall x: nat | x < |changes|
      ensures Connected(changes, edges, x, x)
    {
      ConnectedReflexive(changes, edges, x);
    }
    JoinByPath(changes, edges, uf);
    if |edges| > 0 {
      JoinByEdge(changes, edges, uf);
    }
    forall i, j | 0 <= i < |changes| && 0 <= j < |changes| && Linked(changes, edges, i, j)
      ensures uf.root[i] == uf.root[j]
    {
    }
    forall x: nat, y: nat | x < |changes| && y < |changes| && Connected(changes, edges, x, y)
      ensures uf.root[x] == uf.root[y]
    {
      var w: seq<nat> :| IsWalk(changes, edges, w) && w[0] == x && w[|w| - 1] == y;
      WalkSharesRoot(changes, edges, uf.root, w);
    }
  }

  // ---- buckets, ordering and the result ----

  function Iota(n: nat): seq<nat> {
    seq<nat>(n, i => i)
  }

  /** The positions below n that are in `at`, ascending. */
  function Indices(n: nat, at: set<nat>): seq<nat> {
    Select<nat>(Iota(n), at)
  }

  /** A bucket is the ascending list of the elements under one root. */
  ghost function Bucket(root: seq<nat>, r: nat, n: nat): seq<nat> {
    Indices(n, Members(root, r))
  }

  lemma {:induction false} IotaMembers(n: nat, at: set<nat>)
    ensures forall k :: k in Indices(n, at) <==> k < n && k in at
  {
    if n > 0 {
      assert Iota(n)[..n - 1] == Iota(n - 1);
      IotaMembers(n - 1, at);
    }
  }

  /** Picking by the selected indices is selecting. */
  lemma {:induction false} IotaSelect<T>(xs: seq<T>, at: set<nat>)
    ensures forall k <- Indices(|xs|, at) :: k < |xs|
    ensures Select(xs, at) == Pick(xs, Indices(|xs|, at))
  {
    IotaMembers(|xs|, at);
    if xs != [] {
      var n := |xs| - 1;
      assert Iota(|xs|)[..n] == Iota(n);
      IotaSelect(xs[..n], at);
      var idx := Indices(n, at);
      assert forall k :: 0 <= k < |idx| ==> idx[k] in idx;
      assert Pick(xs[..n], idx) == Pick(xs, idx);
      if n in at {
        assert Pick(xs, idx + [n]) == Pick(xs, idx) + [xs[n]];
      }
    }
  }

  function Pick<T>(xs: seq<T>, idx: seq<nat>): seq<T>
    requires forall k <- idx :: k < |xs|
  {
    seq(|idx|, k requires 0 <= k < |idx| => assert idx[k] in idx; xs[idx[k]])
  }

  /** The non-empty buckets, filled in one pass over the branches. */
  method FillBuckets(uf: UnionFind, n: nat) returns (buckets: map<nat, seq<nat>>)
    requires uf.Valid() && |uf.root| == n
    modifies uf.parent
    ensures uf.Valid() && uf.root == old(uf.root)
    ensures buckets.Keys == set x | 0 <= x < n :: uf.root[x]
    ensures forall r :: r in buckets ==> buckets[r] == Bucket(uf.root, r, n)
  {
    buckets := map[];
    for i := 0 to n
      invariant uf.Valid() && uf.root == old(uf.root)
      invariant buckets.Keys == set x | 0 <= x < i :: uf.root[x]
      invariant forall r :: r in buckets ==> buckets[r] == Bucket(uf.root, r, i)
    {
      var r, _ := uf.Find(i);
      ghost var before := buckets;
      BucketGrows(uf.root, i);
      buckets := buckets[r := (if r in buckets then buckets[r] else []) + [i]];
      assert buckets.Keys == (set x | 0 <= x < i + 1 :: uf.root[x]) by {
        assert (set x | 0 <= x < i + 1 :: uf.root[x]) == (set x | 0 <= x < i :: uf.root[x]) + {uf.root[i]};
      }
      if r !in before {
        BucketEmpty(uf.root, r, i);
      }
    }
  }

  lemma BucketGrows(root: seq<nat>, i: nat)
    requires i < |root|
    ensures forall r :: Bucket(root, r, i + 1) == Bucket(root, r, i) + if root[i] == r then [i] else []
  {
    assert Iota(i + 1)[..i] == Iota(i);
  }

  lemma {:induction false} BucketEmpty(root: seq<nat>, r: nat, i: nat)
    requires i <= |root| && forall x :: 0 <= x < i ==> root[x] != r
    ensures Bucket(root, r, i) == []
  {
    if i > 0 {
      BucketGrows(root, i - 1);
      BucketEmpty(root, r, i - 1);
    }
  }

  method MinInt(xs: seq<nat>) returns (m: nat)
    requires xs != []
    ensures m in xs && forall x <- xs :: m <= x
  {
    m := xs[0];
    for k := 1 to |xs|
      invariant m in xs && forall j :: 0 <= j < k ==> m <= xs[j]
    {
      if xs[k] < m {
        m := xs[k];
      }
    }
  }

  ghost predicate MinBelow(buckets: map<nat, seq<nat>>, r: nat, s: nat)
    requires r in buckets && s in buckets
  {
    exists x :: x in buckets[r] && forall y <- buckets[s] :: x < y
  }

  /** The roots sorted by the smallest member of their bucket. The keys are
      met in any order; disjoint buckets have distinct smallest members, so the
      result is the same. */
  method SortRoots(buckets: map<nat, seq<nat>>) returns (roots: seq<nat>)
    requires forall r :: r in buckets ==> buckets[r] != []
    requires forall r, s, x :: r in buckets && s in buckets && x in buckets[r] && x in buckets[s] ==> r == s
    ensures forall r :: r in roots <==> r in buckets
    ensures forall a, b :: 0 <= a < b < |roots| ==> MinBelow(buckets, roots[a], roots[b])
  {
    roots := [];
    var rest := buckets.Keys;
    while rest != {}
      invariant rest <= buckets.Keys
      invariant forall r :: r in roots <==> r in buckets && r !in rest
      invariant forall a, b :: 0 <= a < b < |roots| ==> MinBelow(buckets, roots[a], roots[b])
      invariant forall a, s :: 0 <= a < |roots| && s in rest ==> MinBelow(buckets, roots[a], s)
      decreases rest
    {
      var r, m := SmallestRoot(buckets, rest);
      forall s | s in rest - {r}
        ensures MinBelow(buckets, r, s)
      {
      }
      roots := roots + [r];
      rest := rest - {r};
    }
  }

  method SmallestRoot(buckets: map<nat, seq<nat>>, rest: set<nat>) returns (r: nat, m: nat)
    requires rest != {} && rest <= buckets.Keys
    requires forall r :: r in buckets ==> buckets[r] != []
    requires forall r, s, x :: r in buckets && s in buckets && x in buckets[r] && x in buckets[s] ==> r == s
    ensures r in rest && m in buckets[r]
    ensures forall s :: s in rest && s != r ==> forall y <- buckets[s] :: m < y
  {
    r :| r in rest;
    m := MinInt(buckets[r]);
    var todo := rest - {r};
    while todo != {}
      invariant todo <= rest && r in rest && r !in todo
      invariant m in buckets[r] && forall y <- buckets[r] :: m <= y
      invariant forall s :: s in rest && s !in todo && s != r ==> forall y <- buckets[s] :: m < y
      decreases todo
    {
      var s :| s in todo;
      var k := MinInt(buckets[s]);
      assert k != m;
      if k < m {
        r, m := s, k;
      }
      todo := todo - {s};
    }
  }

  /** One group per root, in the given order. */
  method CollectGroups(changes: seq<BranchChange>, buckets: map<nat, seq<nat>>, roots: seq<nat>)
    returns (groups: seq<seq<BranchChange>>)
    requires forall r <- roots :: r in buckets && forall k <- buckets[r] :: k < |changes|
    ensures |groups| == |roots|
    ensures forall a :: 0 <= a < |roots| ==> groups[a] == Pick(changes, buckets[roots[a]])
  {
    groups := [];
    for a := 0 to |roots|
      invariant |groups| == a
      invariant forall b :: 0 <= b < a ==> groups[b] == Pick(changes, buckets[roots[b]])
    {
      var idxs := buckets[roots[a]];
      assert roots[a] in roots;
      var g: seq<BranchChange> := [];
      for k := 0 to |idxs|
        invariant g == Pick(changes, idxs)[..k]
      {
        assert idxs[k] in idxs;
        g := g + [changes[idxs[k]]];
      }
      groups := groups + [g];
    }
  }

  /** Sharing a root means being connected. */
  ghost predicate RootsConnect(changes: seq<BranchChange>, edges: seq<Edge>, root: seq<nat>) {
    && |root| == |changes|
    && forall x: nat, y: nat :: x < |changes| && y < |changes| ==>
         (root[x] == root[y] <==> Connected(changes, edges, x, y))
  }

  lemma RootClass(changes: seq<BranchChange>, edges: seq<Edge>, root: seq<nat>, x: nat)
    requires RootsConnect(changes, edges, root) && x < |changes|
    ensures Members(root, root[x]) == ClassOf(changes, edges, x) && x in Members(root, root[x])
  {
  }

  lemma RootClassIsClass(changes: seq<BranchChange>, edges: seq<Edge>, root: seq<nat>, x: nat)
    requires RootsConnect(changes, edges, root) && x < |changes|
    ensures Members(root, root[x]) in Classes(changes, edges)
  {
    hide RootsConnect, ClassOf, Connected;
    RootClass(changes, edges, root, x);
    var l := LeaderExists(changes, edges, x);
    ClassesEqual(changes, edges, l, x);
    ClassesBelowShape(changes, edges, |changes|, ClassOf(changes, edges, x));
  }

  lemma ClassIsRootClass(changes: seq<BranchChange>, edges: seq<Edge>, root: seq<nat>, c: set<nat>) returns (x: nat)
    requires RootsConnect(changes, edges, root) && c in Classes(changes, edges)
    ensures x < |changes| && x < |root| && c == Members(root, root[x])
  {
    ClassesBelowShape(changes, edges, |changes|, c);
    x :| x < |changes| && c == ClassOf(changes, edges, x);
    RootClass(changes, edges, root, x);
  }

  /** The classes read off the roots are the specification's classes. */
  lemma RootClassesAreClasses(changes: seq<BranchChange>, edges: seq<Edge>, root: seq<nat>, roots: seq<nat>)
    requires RootsConnect(changes, edges, root)
    requires forall r :: r in roots <==> r in set x | 0 <= x < |root| :: root[x]
    requires forall a, b :: 0 <= a < b < |roots| ==> Before(Members(root, roots[a]), Members(root, roots[b]))
    ensures seq(|roots|, a requires 0 <= a < |roots| => Members(root, roots[a])) == Classes(changes, edges)
  {
    hide Before, Connected, Members, Classes;
    var cs := seq(|roots|, a requires 0 <= a < |roots| => Members(root, roots[a]));
    assert |root| == |changes|;
    forall a | 0 <= a < |cs|
      ensures cs[a] != {} && cs[a] in Classes(changes, edges)
    {
      assert roots[a] in roots;
      var x :| 0 <= x < |root| && root[x] == roots[a];
      RootClass(changes, edges, root, x);
      RootClassIsClass(changes, edges, root, x);
    }
    forall c | c in Classes(changes, edges)
      ensures c in cs
    {
      var x := ClassIsRootClass(changes, edges, root, c);
      assert root[x] in roots;
      var a :| 0 <= a < |roots| && roots[a] == root[x];
      assert cs[a] == c;
    }
    ClassesAscending(changes, edges);
    AscendingUnique(cs, Classes(changes, edges));
  }

  lemma ClassesAscending(changes: seq<BranchChange>, edges: seq<Edge>)
    ensures Ascending(Classes(changes, edges))
  {
    ClassesBelowAscending(changes, edges, |changes|);
  }

  /** Partition the branches by write-set overlap and extra edges: exactly the
      connected components, whatever order the maps are walked in. */
  method PartitionSemantic(changes: seq<BranchChange>, edges: seq<Edge>) returns (groups: seq<seq<BranchChange>>)
    ensures groups == Groups(changes, edges)
  {
    if |changes| == 0 {
      assert Groups(changes, edges) == [];
      return [];
    }
    var n := |changes|;
    var uf := Join(changes, edges);
    var buckets := FillBuckets(uf, n);
    ghost var root := uf.root;
    BucketFacts(changes, root, buckets);
    var roots := SortRoots(buckets);
    groups := CollectGroups(changes, buckets, roots);
    GroupsFromBuckets(changes, edges, root, buckets, roots, groups);
  }

  ghost predicate AreBuckets(root: seq<nat>, buckets: map<nat, seq<nat>>) {
    && buckets.Keys == (set x | 0 <= x < |root| :: root[x])
    && forall r :: r in buckets ==> buckets[r] == Bucket(root, r, |root|)
  }

  lemma BucketFacts(changes: seq<BranchChange>, root: seq<nat>, buckets: map<nat, seq<nat>>)
    requires |root| == |changes| && AreBuckets(root, buckets)
    ensures forall r, k :: r in buckets ==> (k in buckets[r] <==> k in Members(root, r))
    ensures forall r, k :: r in buckets && k in buckets[r] ==> k < |changes|
    ensures forall r :: r in buckets ==> buckets[r] != []
  {
    forall r | r in buckets
      ensures forall k :: k in buckets[r] <==> k in Members(root, r)
      ensures buckets[r] != []
    {
      IotaMembers(|changes|, Members(root, r));
      var x :| 0 <= x < |root| && root[x] == r;
      assert x in buckets[r];
    }
  }

  lemma GroupsFromBuckets(changes: seq<BranchChange>, edges: seq<Edge>, root: seq<nat>,
                          buckets: map<nat, seq<nat>>, roots: seq<nat>, groups: seq<seq<BranchChange>>)
    requires |root| == |changes| && AreBuckets(root, buckets)
    requires forall x: nat, y: nat :: x < |changes| && y < |changes| ==>
               (root[x] == root[y] <==> Connected(changes, edges, x, y))
    requires forall r :: r in roots <==> r in buckets
    requires forall a, b :: 0 <= a < b < |roots| ==>
               roots[a] in buckets && roots[b] in buckets && MinBelow(buckets, roots[a], roots[b])
    requires |groups| == |roots|
    requires forall r <- roots :: r in buckets && forall k <- buckets[r] :: k < |changes|
    requires forall a :: 0 <= a < |roots| ==>
               roots[a] in roots && groups[a] == Pick(changes, buckets[roots[a]])
    ensures groups == Groups(changes, edges)
  {
    BucketFacts(changes, root, buckets);
    forall a, b | 0 <= a < b < |roots|
      ensures Before(Members(root, roots[a]), Members(root, roots[b]))
    {
      assert MinBelow(buckets, roots[a], roots[b]);
      var x :| x in buckets[roots[a]] && forall y <- buckets[roots[b]] :: x < y;
      assert x in Members(root, roots[a]);
    }
    RootClassesAreClasses(changes, edges, root, roots);
    forall a | 0 <= a < |roots|
      ensures groups[a] == Select(changes, Members(root, roots[a]))
    {
      assert roots[a] in roots;
      IotaSelect(changes, Members(root, roots[a]));
    }
  }
}
