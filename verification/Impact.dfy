/** Test-impact closure: the packages a change can affect, by a worklist over
    the reverse import graph. */
module Impact {
  import opened Git

  datatype Package = Package(importPath: string, imports: seq<string>, testImports: seq<string>, xtestImports: seq<string>)

  /** Any of the three lists makes an edge. */
  predicate Lists(pk: Package, q: string) {
    q in pk.imports || q in pk.testImports || q in pk.xtestImports
  }

  ghost predicate Imports(pkgs: seq<Package>, p: string, q: string) {
    exists k :: 0 <= k < |pkgs| && pkgs[k].importPath == p && Lists(pkgs[k], q)
  }

  lemma ImportsExactly(pkgs: seq<Package>, p: string, q: string)
    ensures Imports(pkgs, p, q) <==>
            exists k :: 0 <= k < |pkgs| && pkgs[k].importPath == p && (q in pkgs[k].imports || q in pkgs[k].testImports || q in pkgs[k].xtestImports)
  {
  }

  /** A chain of imports from its first package to its last. */
  ghost predicate ImportChain(pkgs: seq<Package>, chain: seq<string>) {
    chain != [] && forall k :: 0 <= k < |chain| - 1 ==> Imports(pkgs, chain[k], chain[k + 1])
  }

  /** A changed package is p itself or reachable from it by imports. */
  ghost predicate Affected(pkgs: seq<Package>, changed: set<string>, p: string) {
    exists chain :: ImportChain(pkgs, chain) && chain[0] == p && chain[|chain| - 1] in changed
  }

  ghost predicate Closed(pkgs: seq<Package>, s: set<string>) {
    forall p, q :: q in s && Imports(pkgs, p, q) ==> p in s
  }

  lemma AffectedStep(pkgs: seq<Package>, changed: set<string>, p: string, q: string)
    requires Imports(pkgs, p, q) && Affected(pkgs, changed, q)
    ensures Affected(pkgs, changed, p)
  {
    var chain :| ImportChain(pkgs, chain) && chain[0] == q && chain[|chain| - 1] in changed;
    var longer := [p] + chain;
    forall k | 0 <= k < |longer| - 1
      ensures Imports(pkgs, longer[k], longer[k + 1])
    {
      if k > 0 {
        assert Imports(pkgs, chain[k - 1], chain[k - 1 + 1]);
      }
    }
    assert ImportChain(pkgs, longer);
  }

  lemma {:induction false} ClosedHoldsChain(pkgs: seq<Package>, s: set<string>, chain: seq<string>)
    requires Closed(pkgs, s) && ImportChain(pkgs, chain) && chain[|chain| - 1] in s
    ensures chain[0] in s
  {
    if |chain| > 1 {
      var rest := chain[1..];
      forall k | 0 <= k < |rest| - 1
        ensures Imports(pkgs, rest[k], rest[k + 1])
      {
        assert Imports(pkgs, chain[k + 1], chain[k + 1 + 1]);
      }
      ClosedHoldsChain(pkgs, s, rest);
      assert Imports(pkgs, chain[0], chain[0 + 1]);
    }
  }

  /** The affected packages are the least closed set holding the changed ones. */
  lemma AffectedIsLeast(pkgs: seq<Package>, changed: set<string>, s: set<string>)
    requires changed <= s && Closed(pkgs, s)
    ensures forall p :: Affected(pkgs, changed, p) ==> p in s
  {
    forall p | Affected(pkgs, changed, p)
      ensures p in s
    {
      var chain :| ImportChain(pkgs, chain) && chain[0] == p && chain[|chain| - 1] in changed;
      ClosedHoldsChain(pkgs, s, chain);
    }
  }

  type Reverse = map<string, seq<string>>

  function Importers(reverse: Reverse, q: string): seq<string> {
    if q in reverse then reverse[q] else []
  }

  /** The edges of the packages before k, turned round. */
  ghost predicate Reverses(pkgs: seq<Package>, reverse: Reverse) {
    forall p, q :: p in Importers(reverse, q) <==> Imports(pkgs, p, q)
  }

  /** One list's edges added. */
  method AddEdges(reverse0: Reverse, p: string, edges: seq<string>) returns (reverse: Reverse)
    ensures forall x, q :: x in Importers(reverse, q) <==> x in Importers(reverse0, q) || (x == p && q in edges)
  {
    reverse := reverse0;
    for i := 0 to |edges|
      invariant forall x, q :: x in Importers(reverse, q) <==> x in Importers(reverse0, q) || (x == p && q in edges[..i])
    {
      assert edges[..i + 1] == edges[..i] + [edges[i]];
      reverse := reverse[edges[i] := Importers(reverse, edges[i]) + [p]];
    }
    assert edges[..|edges|] == edges;
  }

  lemma OneMorePackage(pkgs: seq<Package>, i: nat, before: Reverse, after: Reverse)
    requires i < |pkgs| && Reverses(pkgs[..i], before)
    requires forall x, q :: x in Importers(after, q) <==> x in Importers(before, q) || (x == pkgs[i].importPath && Lists(pkgs[i], q))
    ensures Reverses(pkgs[..i + 1], after)
  {
    hide Lists;
    forall p, q
      ensures p in Importers(after, q) <==> Imports(pkgs[..i + 1], p, q)
    {
      assert p in Importers(before, q) <==> Imports(pkgs[..i], p, q);
      if Imports(pkgs[..i], p, q) {
        var k :| 0 <= k < i && pkgs[..i][k].importPath == p && Lists(pkgs[..i][k], q);
        assert pkgs[..i + 1][k] == pkgs[k];
      }
      if Imports(pkgs[..i + 1], p, q) {
        var k :| 0 <= k < i + 1 && pkgs[..i + 1][k].importPath == p && Lists(pkgs[..i + 1][k], q);
        if k < i {
          assert pkgs[..i][k] == pkgs[k];
        }
      }
      if p == pkgs[i].importPath && Lists(pkgs[i], q) {
        assert pkgs[..i + 1][i] == pkgs[i];
      }
    }
  }

  /** An importer is listed under each package that any of its three lists names. */
  method BuildReverse(pkgs: seq<Package>) returns (reverse: Reverse)
    ensures Reverses(pkgs, reverse)
    ensures forall p, q :: p in Importers(reverse, q) <==>
              exists k :: 0 <= k < |pkgs| && pkgs[k].importPath == p && (q in pkgs[k].imports || q in pkgs[k].testImports || q in pkgs[k].xtestImports)
  {
    hide Imports;
    reverse := map[];
    NoPackages(pkgs);
    for i := 0 to |pkgs|
      invariant Reverses(pkgs[..i], reverse)
    {
      ghost var before := reverse;
      var pk := pkgs[i];
      reverse := AddEdges(reverse, pk.importPath, pk.imports);
      reverse := AddEdges(reverse, pk.importPath, pk.testImports);
      reverse := AddEdges(reverse, pk.importPath, pk.xtestImports);
      OneMorePackage(pkgs, i, before, reverse);
    }
    assert pkgs[..|pkgs|] == pkgs;
    forall p, q
      ensures Imports(pkgs, p, q) <==>
              exists k :: 0 <= k < |pkgs| && pkgs[k].importPath == p && (q in pkgs[k].imports || q in pkgs[k].testImports || q in pkgs[k].xtestImports)
    {
      ImportsExactly(pkgs, p, q);
    }
  }

  lemma NoPackages(pkgs: seq<Package>)
    ensures Reverses(pkgs[..0], map[])
  {
  }

  /** Everything marked is affected, and everything marked and no longer queued
      has its importers marked. */
  ghost predicate Progress(pkgs: seq<Package>, changed: set<string>, impacted: set<string>, queue: seq<string>) {
    && changed <= impacted && (forall q <- queue :: q in impacted)
    && (forall p <- impacted :: Affected(pkgs, changed, p))
    && forall q <- impacted :: q in queue || forall p :: Imports(pkgs, p, q) ==> p in impacted
  }

  function Universe(pkgs: seq<Package>, changed: set<string>): set<string> {
    changed + set k | 0 <= k < |pkgs| :: pkgs[k].importPath
  }

  /** The changed packages, queued in any order. */
  method Seed(pkgs: seq<Package>, changed: set<string>) returns (impacted: set<string>, queue: seq<string>)
    ensures impacted == changed && forall q :: q in queue <==> q in changed
    ensures Progress(pkgs, changed, impacted, queue)
  {
    impacted, queue := {}, [];
    var rest := changed;
    while rest != {}
      invariant impacted == changed - rest && rest <= changed
      invariant forall q :: q in queue <==> q in impacted
      decreases rest
    {
      var imp :| imp in rest;
      rest := rest - {imp};
      impacted := impacted + {imp};
      queue := queue + [imp];
    }
    forall p | p in impacted
      ensures Affected(pkgs, changed, p)
    {
      assert ImportChain(pkgs, [p]);
    }
  }

  /** impactedPackages: exactly the packages from which a changed one is
      reachable, the least set with the changed packages closed under "imports a
      member". */
  method ImpactedPackages(pkgs: seq<Package>, changed: set<string>) returns (impacted: set<string>)
    ensures forall p :: p in impacted <==> Affected(pkgs, changed, p)
    ensures changed <= impacted && Closed(pkgs, impacted)
    ensures forall s: set<string> :: changed <= s && Closed(pkgs, s) ==> impacted <= s
  {
    hide Imports, Affected;
    var reverse := BuildReverse(pkgs);
    var queue: seq<string>;
    impacted, queue := Seed(pkgs, changed);
    while |queue| > 0
      invariant Progress(pkgs, changed, impacted, queue)
      invariant impacted <= Universe(pkgs, changed)
      decreases Universe(pkgs, changed) - impacted, |queue|
    {
      var cur := queue[|queue| - 1];
      ghost var before := impacted;
      impacted, queue := Visit(pkgs, changed, reverse, impacted, queue[..|queue| - 1], cur);
      if before != impacted {
        assert exists x :: x in impacted && x !in before;
      }
    }
    assert Closed(pkgs, impacted);
    forall s: set<string> | changed <= s && Closed(pkgs, s)
      ensures impacted <= s
    {
      AffectedIsLeast(pkgs, changed, s);
    }
    AffectedIsLeast(pkgs, changed, impacted);
  }

  /** Mark and queue the unmarked importers of one popped package. */
  method Visit(pkgs: seq<Package>, changed: set<string>, reverse: Reverse, impacted0: set<string>, queue0: seq<string>, cur: string)
    returns (impacted: set<string>, queue: seq<string>)
    requires Reverses(pkgs, reverse) && Progress(pkgs, changed, impacted0, queue0 + [cur])
    requires impacted0 <= Universe(pkgs, changed)
    ensures Progress(pkgs, changed, impacted, queue)
    ensures impacted0 <= impacted <= Universe(pkgs, changed)
    ensures impacted == impacted0 ==> queue == queue0
  {
    hide Imports, Affected;
    impacted, queue := impacted0, queue0;
    var deps := Importers(reverse, cur);
    for i := 0 to |deps|
      invariant impacted0 <= impacted <= Universe(pkgs, changed)
      invariant impacted == impacted0 ==> queue == queue0
      invariant forall q <- queue0 :: q in queue
      invariant forall q <- queue :: q in impacted
      invariant forall p <- impacted :: p in impacted0 || p in queue
      invariant forall p <- impacted :: Affected(pkgs, changed, p)
      invariant forall k :: 0 <= k < i ==> deps[k] in impacted
    {
      var dep := deps[i];
      assert dep in deps && Imports(pkgs, dep, cur);
      ImporterInUniverse(pkgs, changed, dep, cur);
      if dep !in impacted {
        assert cur in queue0 + [cur];
        AffectedStep(pkgs, changed, dep, cur);
        impacted := impacted + {dep};
        queue := queue + [dep];
      }
    }
    forall q | q in impacted && q !in queue
      ensures forall p :: Imports(pkgs, p, q) ==> p in impacted
    {
      if q == cur {
        forall p | Imports(pkgs, p, cur)
          ensures p in impacted
        {
          assert p in deps;
        }
      } else {
        assert q in impacted0 && q !in queue0 + [cur];
      }
    }
  }

  lemma ImporterInUniverse(pkgs: seq<Package>, changed: set<string>, p: string, q: string)
    requires Imports(pkgs, p, q)
    ensures p in Universe(pkgs, changed)
  {
  }
}
