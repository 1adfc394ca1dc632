/** The disjoint-set forest behind the partition: path halving and union by
    rank, on two arrays changed in place. */
module UnionFinds {

  function Pow2(k: nat): nat {
    if k == 0 then 1 else 2 * Pow2(k - 1)
  }

  lemma {:induction false} Pow2Monotone(j: nat, k: nat)
    requires j <= k
    ensures Pow2(j) <= Pow2(k)
  {
    if j < k {
      Pow2Monotone(j, k - 1);
    }
  }

  ghost function Members(root: seq<nat>, r: nat): set<nat> {
    set x | 0 <= x < |root| && root[x] == r
  }

  lemma {:induction false} RangeSize(s: set<nat>, n: nat)
    requires forall x :: x in s ==> x < n
    ensures |s| <= n
  {
    if n == 0 {
      assert s == {};
    } else {
      RangeSize(s - {n - 1}, n - 1);
    }
  }

  /** What holds at one element: its parent and root are elements, its root is
      its own parent, and its rank is below its parent's unless it is a root. */
  ghost predicate Node(parent: seq<nat>, rank: seq<nat>, root: seq<nat>, x: nat)
    requires |parent| == |rank| == |root| && x < |root|
  {
    && parent[x] < |root| && root[x] < |root|
    && parent[root[x]] == root[x]
    && rank[x] <= rank[root[x]]
    && if parent[x] == x then root[x] == x
       else root[parent[x]] == root[x] && rank[x] < rank[parent[x]]
  }

  /** A root of rank r has at least 2^r elements under it. */
  ghost predicate Heavy(rank: seq<nat>, root: seq<nat>, r: nat)
    requires |rank| == |root| && r < |root|
  {
    Pow2(rank[r]) <= |Members(root, r)|
  }

  /** `root` names the root of every element: parents stay inside the tree,
      ranks rise strictly towards the root, and roots are heavy. */
  ghost predicate Forest(parent: seq<nat>, rank: seq<nat>, root: seq<nat>) {
    && |parent| == |rank| == |root|
    && (forall x :: 0 <= x < |root| ==> Node(parent, rank, root, x))
    && (forall r :: 0 <= r < |root| && parent[r] == r ==> Heavy(rank, root, r))
  }

  /** The element reached by following k parents. */
  function Climb(parent: seq<nat>, x: nat, k: nat): (y: nat)
    requires x < |parent| && forall y <- parent :: y < |parent|
    ensures y < |parent|
    decreases k
  {
    if k == 0 then x
    else
      assert parent[x] in parent;
      Climb(parent, parent[x], k - 1)
  }

  /** How many ranks an element can still climb. */
  ghost function Headroom(rank: seq<nat>, root: seq<nat>, x: nat): nat
    requires |rank| == |root| && x < |root|
  {
    if root[x] < |root| && rank[x] <= rank[root[x]] then rank[root[x]] - rank[x] else 0
  }

  lemma ParentsInside(parent: seq<nat>, rank: seq<nat>, root: seq<nat>)
    requires Forest(parent, rank, root)
    ensures forall y <- parent :: y < |parent|
  {
    forall y <- parent
      ensures y < |parent|
    {
      var x :| 0 <= x < |parent| && parent[x] == y;
      assert Node(parent, rank, root, x);
    }
  }

  /** Climbing from any element reaches its root within log2(n) parents. */
  lemma {:induction false} ClimbReachesRoot(parent: seq<nat>, rank: seq<nat>, root: seq<nat>, x: nat) returns (k: nat)
    requires Forest(parent, rank, root) && x < |root|
    ensures forall y <- parent :: y < |parent|
    ensures Climb(parent, x, k) == root[x]
    ensures k <= Headroom(rank, root, x) && Pow2(k) <= |root|
    decreases Headroom(rank, root, x)
  {
    ParentsInside(parent, rank, root);
    assert Node(parent, rank, root, x);
    var r := root[x];
    if parent[x] == x {
      k := 0;
    } else {
      assert Node(parent, rank, root, parent[x]);
      k := ClimbReachesRoot(parent, rank, root, parent[x]);
      k := k + 1;
    }
    assert Heavy(rank, root, r) by {
      assert Node(parent, rank, root, r);
    }
    RangeSize(Members(root, r), |root|);
    Pow2Monotone(k, rank[r]);
  }

  /** Wherever climbing stops, it stops at the root: the arrays alone fix it. */
  lemma {:induction false} ClimbStopsOnlyAtRoot(parent: seq<nat>, rank: seq<nat>, root: seq<nat>, x: nat, k: nat)
    requires Forest(parent, rank, root) && x < |root|
    requires forall y <- parent :: y < |parent|
    requires parent[Climb(parent, x, k)] == Climb(parent, x, k)
    ensures Climb(parent, x, k) == root[x]
    decreases k
  {
    assert Node(parent, rank, root, x);
    if k > 0 {
      ClimbStopsOnlyAtRoot(parent, rank, root, parent[x], k - 1);
    }
  }

  /** Path halving moves one parent up and changes no root. */
  lemma HalvingKeepsForest(parent: seq<nat>, rank: seq<nat>, root: seq<nat>, x: nat)
    requires Forest(parent, rank, root) && x < |root| && parent[x] != x
    ensures Node(parent, rank, root, x) && Node(parent, rank, root, parent[x])
    ensures Forest(parent[x := parent[parent[x]]], rank, root)
    ensures root[parent[parent[x]]] == root[x] && rank[x] < rank[parent[parent[x]]] <= rank[root[x]]
  {
    assert Node(parent, rank, root, x);
    assert Node(parent, rank, root, parent[x]);
    assert Node(parent, rank, root, parent[parent[x]]);
    var parent' := parent[x := parent[parent[x]]];
    forall y | 0 <= y < |root|
      ensures Node(parent', rank, root, y)
    {
      assert Node(parent, rank, root, y);
    }
  }

  ghost function Rerooted(root: seq<nat>, loser: nat, winner: nat): seq<nat> {
    seq(|root|, x requires 0 <= x < |root| => if root[x] == loser then winner else root[x])
  }

  function LinkedRank(rank: seq<nat>, ra: nat, rb: nat): seq<nat>
    requires ra < |rank| && rb < |rank|
  {
    if rank[ra] == rank[rb] then rank[ra := rank[ra] + 1] else rank
  }

  lemma LinkKeepsNodes(parent: seq<nat>, rank: seq<nat>, root: seq<nat>, ra: nat, rb: nat, x: nat)
    requires Forest(parent, rank, root)
    requires ra < |root| && rb < |root| && ra != rb && parent[ra] == ra && parent[rb] == rb
    requires rank[rb] <= rank[ra] && x < |root|
    ensures Node(parent[rb := ra], LinkedRank(rank, ra, rb), Rerooted(root, rb, ra), x)
  {
    hide Heavy;
    assert Node(parent, rank, root, ra) && Node(parent, rank, root, rb);
    assert Node(parent, rank, root, x);
    assert Node(parent, rank, root, parent[x]);
  }

  lemma LinkKeepsHeavy(parent: seq<nat>, rank: seq<nat>, root: seq<nat>, ra: nat, rb: nat, r: nat)
    requires Forest(parent, rank, root)
    requires ra < |root| && rb < |root| && ra != rb && parent[ra] == ra && parent[rb] == rb
    requires r < |root| && r != rb && parent[r] == r
    ensures Heavy(LinkedRank(rank, ra, rb), Rerooted(root, rb, ra), r)
  {
    var root' := Rerooted(root, rb, ra);
    assert Heavy(rank, root, r);
    if r == ra {
      assert Heavy(rank, root, rb);
      assert Members(root', ra) == Members(root, ra) + Members(root, rb);
      assert Members(root, ra) !! Members(root, rb);
    } else {
      assert Node(parent, rank, root, r);
      assert Members(root', r) == Members(root, r);
    }
  }

  /** Linking one root below another of no smaller rank. */
  lemma LinkKeepsForest(parent: seq<nat>, rank: seq<nat>, root: seq<nat>, ra: nat, rb: nat)
    requires Forest(parent, rank, root)
    requires ra < |root| && rb < |root| && ra != rb && parent[ra] == ra && parent[rb] == rb
    requires rank[rb] <= rank[ra]
    ensures Forest(parent[rb := ra], LinkedRank(rank, ra, rb), Rerooted(root, rb, ra))
  {
    hide Node, Heavy;
    var parent', rank', root' := parent[rb := ra], LinkedRank(rank, ra, rb), Rerooted(root, rb, ra);
    forall x | 0 <= x < |root|
      ensures Node(parent', rank', root', x)
    {
      LinkKeepsNodes(parent, rank, root, ra, rb, x);
    }
    forall r | 0 <= r < |root| && parent'[r] == r
      ensures Heavy(rank', root', r)
    {
      LinkKeepsHeavy(parent, rank, root, ra, rb, r);
    }
  }

  /** After union(a, b) two elements share a root iff they did before, or one
      was with a and the other with b. */
  ghost predicate Joined(root: seq<nat>, a: nat, b: nat, x: nat, y: nat)
    requires a < |root| && b < |root| && x < |root| && y < |root|
  {
    || root[x] == root[y]
    || (root[x] == root[a] && root[y] == root[b])
    || (root[x] == root[b] && root[y] == root[a])
  }

  class UnionFind {
    const parent: array<nat>
    const rank: array<nat>
    ghost var root: seq<nat>

    ghost predicate Valid()
      reads this, parent, rank
    {
      parent != rank && Forest(parent[..], rank[..], root)
    }

    constructor (n: nat)
      ensures Valid() && fresh(this) && fresh(parent) && fresh(rank)
      ensures root == seq(n, x => x)
    {
      parent := new nat[n](x => x);
      rank := new nat[n](x => 0);
      root := seq(n, x => x);
      new;
      forall r | 0 <= r < n
        ensures Heavy(rank[..], root, r)
      {
        assert Members(root, r) == {r};
      }
    }

    /** Returns the root, halving the path on the way: no element's root
        changes, and at most log2(n) steps are taken. */
    method Find(x0: nat) returns (x: nat, ghost steps: nat)
      requires Valid() && x0 < |root|
      modifies parent
      ensures Valid() && root == old(root)
      ensures x == root[x0] && x < |root| && parent[x] == x
      ensures Pow2(steps) <= |root|
    {
      x, steps := x0, 0;
      assert Node(parent[..], rank[..], root, x);
      while parent[x] != x
        invariant x < |root| && Valid() && root == old(root)
        invariant root[x] == root[x0]
        invariant steps <= rank[x] - rank[x0]
        invariant rank[x] <= rank[root[x]]
        decreases rank[root[x]] - rank[x]
      {
        ghost var before := parent[..];
        HalvingKeepsForest(before, rank[..], root, x);
        parent[x] := parent[parent[x]];
        assert parent[..] == before[x := before[before[x]]];
        x := parent[x];
        steps := steps + 1;
      }
      assert Node(parent[..], rank[..], root, x) && Heavy(rank[..], root, x);
      RangeSize(Members(root, x), |root|);
      Pow2Monotone(steps, rank[x]);
    }

    method Union(a: nat, b: nat)
      requires Valid() && a < |root| && b < |root|
      modifies this, parent, rank
      ensures Valid() && |root| == |old(root)|
      ensures forall x, y :: 0 <= x < |root| && 0 <= y < |root| ==>
                (root[x] == root[y] <==> Joined(old(root), a, b, x, y))
    {
      var ra, _ := Find(a);
      var rb, _ := Find(b);
      assert Node(parent[..], rank[..], root, a) && Node(parent[..], rank[..], root, b);
      if ra == rb {
        return;
      }
      if rank[ra] < rank[rb] {
        ra, rb := rb, ra;
      }
      Link(ra, rb);
    }

    /** Hangs root rb under root ra. */
    method Link(ra: nat, rb: nat)
      requires Valid() && ra < |root| && rb < |root| && ra != rb
      requires parent[ra] == ra && parent[rb] == rb && rank[rb] <= rank[ra]
      modifies this, parent, rank
      ensures Valid() && root == Rerooted(old(root), rb, ra)
    {
      hide Node, Heavy;
      ghost var parent0, rank0 := parent[..], rank[..];
      LinkKeepsForest(parent0, rank0, root, ra, rb);
      parent[rb] := ra;
      if rank[ra] == rank[rb] {
        rank[ra] := rank[ra] + 1;
      }
      assert parent[..] == parent0[rb := ra];
      assert rank[..] == LinkedRank(rank0, ra, rb);
      root := Rerooted(root, rb, ra);
    }
  }
}
