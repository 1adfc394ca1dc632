/** A whole run after its agents are done: integrate detached, verify with
    repair, salvage by bisection, and only then move the base. */
module Drive {
  import opened Git
  import opened Seqs
  import opened Partition
  import opened Fold
  import opened Combine
  import opened Integrate
  import opened Regroup
  import opened Verify
  import opened GroupSearch
  import opened Bisect

  // ---- what a salvage amounts to ----

  /** The classes of the kept groups, in order. */
  ghost function KeptClasses(changes: seq<BranchChange>, edges: seq<Edge>, good: seq<nat>): seq<set<nat>>
    requires InRange(good, |Classes(changes, edges)|)
  {
    seq(|good|, k requires 0 <= k < |good| => assert good[k] in good; Classes(changes, edges)[good[k]])
  }

  ghost predicate Distinct(good: seq<nat>) {
    forall i, j :: 0 <= i < j < |good| ==> good[i] != good[j]
  }

  lemma KeptSeparate(base: Commit, tips: Tips, changes: seq<BranchChange>, edges: seq<Edge>, good: seq<nat>)
    requires Compatible(base, tips, changes, edges)
    requires InRange(good, |Classes(changes, edges)|) && Distinct(good)
    ensures Separate(base, tips, changes, KeptClasses(changes, edges, good))
  {
    hide Classes, Apart;
    var cs, kept := Classes(changes, edges), KeptClasses(changes, edges, good);
    ClassesSplit(changes, edges);
    forall k | 0 <= k < |kept|
      ensures Apart(base.tree, tips, changes, kept[k])
    {
      assert good[k] in good;
      ClassApart(base, tips, changes, edges, good[k]);
    }
    forall j, k | 0 <= j < k < |kept|
      ensures kept[j] !! kept[k]
    {
      assert good[j] in good && good[k] in good;
      DifferentClasses(cs, |changes|, good[j], good[k]);
    }
  }

  lemma DifferentClasses(cs: seq<set<nat>>, n: nat, a: nat, b: nat)
    requires Splits(cs, n) && a < |cs| && b < |cs| && a != b
    ensures cs[a] !! cs[b]
  {
    var first, last := if a < b then a else b, if a < b then b else a;
    forall i | i in cs[first]
      ensures i !in cs[last]
    {
    }
  }

  ghost predicate AreSlotHeads(groups: seq<Group>, slots: seq<GroupResult>) {
    |groups| == |slots| && forall k :: 0 <= k < |groups| ==> groups[k].head == slots[k].head
  }

  /** The kept heads overlaid on base are what the kept groups' branches fold to
      by themselves: the salvage is the run that never had the dropped ones. */
  lemma SalvageIsTheKeptBatch(e: Engine, base: Commit, tips: Tips, changes: seq<BranchChange>, edges: seq<Edge>,
                              slots: seq<GroupResult>, groups: seq<Group>, good: seq<nat>)
    requires Compatible(base, tips, changes, edges) && SlotsFold(e, base, tips, changes, edges, slots)
    requires AreSlotHeads(groups, slots) && InRange(good, |groups|) && Distinct(good)
    ensures |groups| == |Classes(changes, edges)|
    ensures Resolves(tips, Regrouped(changes, KeptClasses(changes, edges, good)))
    ensures OverlayTrees(base.tree, HeadsAt(groups, good)) ==
            Serial(e, base, tips, Regrouped(changes, KeptClasses(changes, edges, good))).tree
  {
    hide Run, Classes, SlotsFold, Separate, OverlayTrees;
    assert Resolves(tips, changes);
    hide Compatible, Regrouped, DoesItsPart;
    SlotCount(e, base, tips, changes, edges, slots);
    var kept, heads := KeptClasses(changes, edges, good), HeadsAt(groups, good);
    RegroupedResolves(tips, changes, kept);
    KeptSeparate(base, tips, changes, edges, good);
    RegroupedDoesItsPart(e, base, tips, changes, kept);
    KeptUnite(e, base, tips, changes, edges, slots, groups, good);
    var t := Serial(e, base, tips, Regrouped(changes, kept)).tree;
    UnitedAgree(base.tree, heads, t);
    OverlayUnites(base.tree, heads);
    UnitesUnique(base.tree, heads, OverlayTrees(base.tree, heads), t);
  }

  /** A kept group's head moves a path only where the group landed a change, and
      reads there as the whole batch. */
  lemma KeptHeadMoved(e: Engine, base: Commit, tips: Tips, changes: seq<BranchChange>, edges: seq<Edge>, slots: seq<GroupResult>, k: nat, p: Path)
    requires Compatible(base, tips, changes, edges) && SlotsFold(e, base, tips, changes, edges, slots) && k < |slots|
    ensures k < |Classes(changes, edges)|
    ensures var full, lands := Serial(e, base, tips, changes), LandsIn(base, tips, changes, Serial(e, base, tips, changes).outs, Classes(changes, edges)[k], p);
            && (Changed(base.tree, slots[k].head, p) ==> lands)
            && (lands ==> At(slots[k].head.tree, p) == At(full.tree, p))
  {
    assert Resolves(tips, changes);
    hide Run, Classes, Select, LandsOn, Compatible;
    var at := Classes(changes, edges)[k];
    var part := Serial(e, base, tips, Select(changes, at));
    GroupsAgree(e, base, tips, changes, edges, k);
    if !LandsOn(base.tree, tips, Select(changes, at), part.outs, p) {
      FoldStaysInDiffs(e, base.tree, base.tree, tips, Select(changes, at), p);
    }
  }

  lemma KeptUnite(e: Engine, base: Commit, tips: Tips, changes: seq<BranchChange>, edges: seq<Edge>,
                  slots: seq<GroupResult>, groups: seq<Group>, good: seq<nat>)
    requires Compatible(base, tips, changes, edges) && SlotsFold(e, base, tips, changes, edges, slots)
    requires AreSlotHeads(groups, slots) && InRange(good, |groups|)
    requires |groups| == |Classes(changes, edges)|
    requires DoesItsPart(e, base, tips, changes, KeptClasses(changes, edges, good))
    ensures Unites(base.tree, HeadsAt(groups, good), Serial(e, base, tips, Regrouped(changes, KeptClasses(changes, edges, good))).tree)
  {
    assert Resolves(tips, changes);
    hide Run, Classes, SlotsFold, Regrouped, LandsIn, LandsOn, Compatible;
    var kept, heads, full := KeptClasses(changes, edges, good), HeadsAt(groups, good), Serial(e, base, tips, changes);
    var some := Regrouped(changes, kept);
    var s := Serial(e, base, tips, some);
    var on := seq(|kept|, k requires 0 <= k < |kept| => iset p | LandsIn(base, tips, changes, full.outs, kept[k], p));
    forall p
      ensures At(s.tree, p) == if exists k :: 0 <= k < |on| && p in on[k] then At(full.tree, p) else At(base.tree, p)
    {
      LandsRegrouped(base, tips, changes, full.outs, kept, p);
      assert forall k :: 0 <= k < |kept| ==> (p in on[k] <==> LandsIn(base, tips, changes, full.outs, kept[k], p));
    }
    hide DoesItsPart, Serial;
    forall k, p | 0 <= k < |heads|
      ensures Changed(base.tree, heads[k], p) ==> p in on[k]
      ensures p in on[k] ==> At(heads[k].tree, p) == At(full.tree, p)
    {
      assert good[k] in good;
      KeptHeadMoved(e, base, tips, changes, edges, slots, good[k], p);
    }
    UniteWhereLanded(base.tree, heads, on, full.tree, s.tree);
  }

  lemma UniteWhereLanded(base: Tree, heads: seq<Commit>, on: seq<iset<Path>>, full: Tree, t: Tree)
    requires |on| == |heads|
    requires forall k, p :: 0 <= k < |heads| && Changed(base, heads[k], p) ==> p in on[k]
    requires forall k, p :: 0 <= k < |heads| && p in on[k] ==> At(heads[k].tree, p) == At(full, p)
    requires forall p :: At(t, p) == if exists k :: 0 <= k < |on| && p in on[k] then At(full, p) else At(base, p)
    ensures Unites(base, heads, t)
  {
    forall p | At(t, p) != At(base, p)
      ensures exists k :: 0 <= k < |heads| && Changed(base, heads[k], p)
    {
      var k :| 0 <= k < |on| && p in on[k];
      assert Changed(base, heads[k], p);
    }
  }

  lemma AscendingDistinct(v: Verdicts, k: nat)
    ensures Distinct(GoodGroups(v, k).good)
  {
    GoodGroupsSorts(v, k);
  }

  // ---- the run ----

  datatype RunOutcome =
    | IntegrateFailed(error: IntegrateError)
    | Red
    | NothingToLand
    | LandRefused(movedTo: Commit)
    | LandedWhole(commit: Commit)
    | LandedSubset(commit: Commit, dropped: seq<seq<string>>)

  /** What happened on the way: the integrated commit, the repairs of it and the
      commit they led to, the verdict on that, the group folds, the groups the
      bisection kept with its probes and what backs them if it got to any, the
      verdict that decided the run, and the worktrees used. */
  datatype Story = Story(integrated: Commit, repairs: seq<Repair>, tried: Commit, whole: Evidence, slots: seq<GroupResult>,
                         good: seq<nat>, log: Option<seq<Probe>>, evidence: seq<Evidence>, gate: Evidence, wts: seq<Worktree>)

  /** With a verify configured, exactly this commit passed it. */
  ghost predicate GateHolds(hasVerify: bool, c: Commit, gate: Evidence) {
    hasVerify ==> Proves(gate, c)
  }

  /** The fixer's assumption: it commits on top of the head it was given. */
  ghost predicate FixerDescends(repairs: seq<Repair>) {
    forall r <- repairs :: r.outcome.Returned? ==> IsAncestor(r.from, r.outcome.head)
  }

  /** What a bisection would search: the groups, as their folds left them. */
  function SlotGroups(slots: seq<GroupResult>): (groups: seq<Group>)
    ensures |groups| == |slots|
  {
    seq(|slots|, k requires 0 <= k < |slots| => Group(slots[k].head, slots[k].landed))
  }

  function PairGroups(heads: seq<Commit>, branches: seq<seq<string>>): (groups: seq<Group>)
    requires |heads| == |branches|
    ensures |groups| == |heads| && forall k :: 0 <= k < |heads| ==> groups[k].head == heads[k]
  {
    seq(|heads|, k requires 0 <= k < |heads| => Group(heads[k], branches[k]))
  }

  lemma NotItsParent(c: Commit, i: nat)
    requires i < |c.parents|
    ensures c.parents[i] != c
  {
  }

  lemma CandidateDescends(base: Commit, groups: seq<Group>, good: seq<nat>)
    requires InRange(good, |groups|)
    ensures IsAncestor(base, Candidate(base, groups, good)) && Candidate(base, groups, good) != base
    ensures forall k :: 0 <= k < |good| ==> good[k] < |groups| && IsAncestor(groups[good[k]].head, Candidate(base, groups, good))
  {
    var c := Candidate(base, groups, good);
    assert c.parents[0] == base;
    NotItsParent(c, 0);
    forall k | 0 <= k < |good|
      ensures good[k] < |groups| && IsAncestor(groups[good[k]].head, c)
    {
      assert good[k] in good;
      assert c.parents[k + 1] == groups[good[k]].head;
    }
  }

  /** The dropped groups' branches, group by group: those that landed in the
      groups not kept. */
  ghost predicate Drops(slots: seq<GroupResult>, good: seq<nat>, dropped: seq<seq<string>>) {
    dropped == Select(LandedLists(slots), Range(|slots|) - set i | i in good)
  }

  /** The salvaged commit overlays the kept groups' heads, and the bisection's
      last probe was of exactly that union, green. In a compatible batch it holds
      what the kept groups' branches fold to. */
  ghost predicate SalvagedFrom(e: Engine, base: Commit, tips: Tips, changes: seq<BranchChange>, edges: seq<Edge>,
                               c: Commit, dropped: seq<seq<string>>, story: Story) {
    && Resolves(tips, changes) && SlotsFold(e, base, tips, changes, edges, story.slots)
    && InRange(story.good, |story.slots|) && |story.slots| == |Classes(changes, edges)|
    && c.tree == OverlayTrees(base.tree, KeptHeads(story.slots, story.good))
    && Resolves(tips, Regrouped(changes, KeptClasses(changes, edges, story.good)))
    && (Compatible(base, tips, changes, edges) ==>
          c.tree == Serial(e, base, tips, Regrouped(changes, KeptClasses(changes, edges, story.good))).tree)
    && Drops(story.slots, story.good, dropped)
    && story.log.Some? && Salvaged(|story.slots|, story.good, story.log.value, true)
  }

  ghost function KeptHeads(slots: seq<GroupResult>, good: seq<nat>): seq<Commit>
    requires InRange(good, |slots|)
  {
    seq(|good|, k requires 0 <= k < |good| => assert good[k] in good; slots[good[k]].head)
  }

  /** Nothing to land: the commit tried failed its verify with every repair
      spent, and a bisection, if it got to its probes, ended without a green union. */
  ghost predicate Failed(p: Params, story: Story) {
    && !story.whole.verdict.ok && Supported(story.whole, story.tried)
    && Exhausted(p, story.repairs, story.whole.faulted)
    && (story.log.Some? ==> Salvaged(|story.slots|, story.good, story.log.value, false))
  }

  /** When a red run is bisected: when asked to, over two groups or more, and git
      can add the shared worktree and, up to six groups, the pool. */
  predicate Bisects(bisect: bool, k: nat, added: Added) {
    bisect && k >= 2 && added.shared && (k <= 6 ==> added.pool)
  }

  /** The bisection's last probe was of its union, and green. */
  ghost predicate UnionGreen(story: Story) {
    story.log.Some? && story.good != [] && story.log.value != [] && story.log.value[|story.log.value| - 1].ok
  }

  /** The verdicts on the way rest on what was on record before the run and on
      runs of this run; where a worktree step is blamed, one failed, or the gate's
      worktree could not be added. */
  ghost predicate Witnessed(base: Commit, builds: seq<nat> -> bool, story: Story, passes: Passes, added: Added)
    reads story.wts
  {
    && Supported(story.whole, story.tried) && story.whole.entry == story.gate.entry == passes
    && |story.wts| > 0 && story.whole.runs == story.wts[0].runs
    && (story.gate == story.whole || (|story.wts| > 1 && story.gate.runs == story.wts[1].runs))
    && (story.whole.faulted ==> !added.gate || AnyFault(story.wts))
    && (story.log.Some? ==> exists ran ::
          Backed(Bench(base, SlotGroups(story.slots), builds), story.log.value, story.evidence, passes, ran, AnyFault(story.wts)))
  }

  /** Integration and the gate. Nothing moves here; Some means `commit` passed: the
      whole batch when its verify is green, and otherwise, if it is bisected, the
      union of the kept groups exactly when that was probed green. */
  method IntegrateAndGate(cfg: Config, strategy: Strategy, repo: Repo, base: Commit, changes: seq<BranchChange>, hasVerify: bool, bisect: bool,
                          p: Params, passes: Passes, added: Added, builds: seq<nat> -> bool)
    returns (r: Result<Option<Commit>, IntegrateError>, whole: bool, dropped: seq<seq<string>>, ghost story: Story)
    requires cfg.landRef.None?
    modifies repo
    ensures repo.refs == old(repo.refs) && fresh(set wt | wt in story.wts)
    ensures Compatible(base, old(repo.refs), changes, cfg.edges) && BaseContained(base, old(repo.refs), changes) ==> r.Ok?
    ensures r.Ok? ==>
              && Resolves(old(repo.refs), changes)
              && Computes(cfg.engine, strategy, base, old(repo.refs), changes, story.slots, story.integrated)
              && RepairsChain(story.integrated, story.repairs) && story.tried == HeadAfter(story.integrated, story.repairs)
              && (if strategy.Naive? then story.slots == [] else SlotsFold(cfg.engine, base, old(repo.refs), changes, cfg.edges, story.slots))
    ensures r.Ok? && (Compatible(base, old(repo.refs), changes, cfg.edges) || strategy.Naive?) ==>
              story.integrated.tree == Serial(cfg.engine, base, old(repo.refs), changes).tree
    ensures r.Ok? && (!hasVerify || story.whole.verdict.ok) ==>
              r.value == Some(story.tried) && whole && story.gate == story.whole && story.log.None?
    ensures r.Ok? && !hasVerify ==> story.repairs == []
    ensures r.Ok? && hasVerify ==> Witnessed(base, builds, story, passes, added) && (story.whole.verdict.cached ==> p.useCache)
    ensures r.Ok? && hasVerify && !story.whole.verdict.ok ==>
              && !whole && (story.log.Some? <==> Bisects(bisect, |story.slots|, added))
              && (r.value.Some? <==> UnionGreen(story))
              && (story.log.Some? ==> Salvaged(|story.slots|, story.good, story.log.value, r.value.Some?))
    ensures r.Ok? && r.value.Some? ==> GateHolds(hasVerify, r.value.value, story.gate)
    ensures r.Ok? && r.value.Some? && FixerDescends(story.repairs) ==> IsAncestor(base, r.value.value)
    ensures r.Ok? && r.value.Some? && !whole ==>
              SalvagedFrom(cfg.engine, base, old(repo.refs), changes, cfg.edges, r.value.value, dropped, story) && r.value.value != base
    ensures r.Ok? && r.value.None? ==> hasVerify && Failed(p, story)
  {
    hide Serial, SlotsFold, Compatible, Classes, Regrouped, Earned, Refuted, OverlayTrees, KeptClasses, RepairsChain, Exhausted,
         SameReport, Worktree.Valid, PassCache.Valid, Salvaged, SalvagedFrom, Combined, Computes, Backed, IsLargest, Groups, Supported, Proves;
    whole, dropped := true, [];
    ghost var none := Evidence(Verdict(false, false, false, Full, 0), [], passes, [], true);
    story := Story(base, [], base, none, [], [], None, [], none, []);
    var tips := repo.refs;
    var res;
    ghost var slots: seq<GroupResult>;
    res, slots := CellIntegrate(cfg, repo, strategy, base, changes);
    if res.Err? {
      return Err(res.error), true, [], story;
    }
    var final := res.value.final;
    NoRepairs(final);
    story := Story(final, [], final, none, slots, [], None, [], none, []);
    if !hasVerify {
      return Ok(Some(final)), true, [], story;
    }
    var ok, head, cache;
    ok, head, cache, story := VerifyWhole(base, final, slots, p, passes, added, builds);
    if ok {
      if FixerDescends(story.repairs) {
        AncestorTransitive(base, final, head);
      }
      return Ok(Some(head)), true, [], story;
    }
    if !bisect || |res.value.groupHeads| < 2 {
      return Ok(None), false, [], story;
    }
    var landed;
    landed, dropped, story := Salvage(cfg, base, tips, changes, res.value, p, cache, added, builds, story);
    r, whole := Ok(landed), false;
  }

  /** Verify the integrated commit, repairing it while that is allowed. */
  method VerifyWhole(ghost base: Commit, final: Commit, ghost slots: seq<GroupResult>, p: Params, passes: Passes, added: Added,
                     ghost builds: seq<nat> -> bool)
    returns (ok: bool, head: Commit, cache: PassCache, ghost story: Story)
    ensures fresh(cache) && cache.Valid() && cache.entry == passes && cache.enabled == p.useCache && fresh(set wt | wt in story.wts)
    ensures story == Story(final, story.repairs, head, story.whole, slots, [], None, [], story.whole, story.wts) && |story.wts| == 1
    ensures RepairsChain(final, story.repairs) && head == HeadAfter(final, story.repairs)
    ensures Witnessed(base, builds, story, passes, added) && ok == story.whole.verdict.ok && (story.whole.verdict.cached ==> p.useCache)
    ensures if ok then Proves(story.whole, head) else Failed(p, story)
    ensures FixerDescends(story.repairs) ==> IsAncestor(final, head)
  {
    hide Earned, Refuted, RepairsChain, HeadAfter, Exhausted, Worktree.Valid, PassCache.Valid;
    cache := new PassCache(p.useCache, passes);
    var v, wt, attempts;
    ghost var repairs: seq<Repair>;
    ghost var rounds: seq<seq<Call>>;
    v, head, wt, attempts, repairs, rounds := VerifyWithRepair(p, final, cache, added.gate);
    ghost var ev := Evidence(v, wt.runs, cache.entry, cache.ran, !added.gate || wt.faults > 0);
    story := Story(final, repairs, head, ev, slots, [], None, [], ev, [wt]);
    assert wt.faults > 0 ==> AnyFault(story.wts) by {
      assert wt in story.wts;
    }
    if FixerDescends(repairs) {
      RepairedHeadDescends(final, repairs);
    }
    ok := v.ok;
  }

  /** The last resort: bisect over the groups, land what is green together. */
  method Salvage(cfg: Config, base: Commit, tips: Tips, changes: seq<BranchChange>, res: IntegrationResult, p: Params,
                 cache: PassCache, added: Added, builds: seq<nat> -> bool, ghost story0: Story)
    returns (landed: Option<Commit>, dropped: seq<seq<string>>, ghost story: Story)
    requires Resolves(tips, changes) && SlotsFold(cfg.engine, base, tips, changes, cfg.edges, story0.slots)
    requires Tallies(changes, cfg.edges, story0.slots, res) && Failed(p, story0) && story0.log.None? && cache.Valid()
    requires Witnessed(base, builds, story0, cache.entry, added) && |story0.wts| == 1 && story0.gate == story0.whole
    modifies cache
    ensures fresh((set wt | wt in story.wts) - set wt | wt in story0.wts)
    ensures story == story0.(good := story.good, log := story.log, evidence := story.evidence, gate := story.gate, wts := story.wts)
    ensures Witnessed(base, builds, story, cache.entry, added)
    ensures story.log.Some? <==> Probes(|story.slots|, added)
    ensures story.log.Some? ==> Salvaged(|story.slots|, story.good, story.log.value, landed.Some?)
    ensures landed.Some? <==> UnionGreen(story)
    ensures landed.Some? ==> Proves(story.gate, landed.value)
    ensures landed.Some? ==> IsAncestor(base, landed.value) && landed.value != base
    ensures landed.Some? ==> SalvagedFrom(cfg.engine, base, tips, changes, cfg.edges, landed.value, dropped, story)
    ensures landed.None? ==> Failed(p, story)
  {
    hide Serial, SlotsFold, Compatible, Classes, Exhausted, Salvaged, Proves, Supported, Groups, IsLargest, Candidate, SalvagedFrom,
         PassCache.Valid, Backed, Probes;
    var groups := PairGroups(res.groupHeads, res.groupBranches);
    assert groups == SlotGroups(story0.slots);
    ghost var b := Bench(base, groups, builds);
    var report;
    ghost var wts: seq<Worktree>, good: seq<nat>, log: Option<seq<Probe>>, evidence: seq<Evidence>;
    report, wts, good, log, evidence := VerifyBisect(Bench(base, groups, builds), p, cache, added);
    landed, dropped := report.landed, report.droppedGroups;
    story := story0.(good := good, log := log, evidence := evidence, wts := story0.wts + wts);
    MoreWorktrees(story0.wts, wts);
    if log.Some? {
      MoreFaults(b, log.value, evidence, cache.entry, cache.ran, AnyFault(wts), AnyFault(story.wts));
      SalvagedLast(|groups|, good, log.value, landed.Some?);
    }
    if landed.Some? {
      CandidateDescends(base, groups, good);
      assert BranchesOf(groups) == LandedLists(story.slots);
      story := story.(gate := evidence[|evidence| - 1]);
      SalvageIsFromGroups(cfg.engine, base, tips, changes, cfg.edges, groups, dropped, story);
    }
  }

  lemma MoreWorktrees(xs: seq<Worktree>, ys: seq<Worktree>)
    ensures AnyFault(xs) || AnyFault(ys) ==> AnyFault(xs + ys)
  {
    assert forall wt <- xs :: wt in xs + ys;
    assert forall wt <- ys :: wt in xs + ys;
  }

  lemma SalvagedLast(k: nat, good: seq<nat>, log: seq<Probe>, landed: bool)
    requires Salvaged(k, good, log, landed)
    ensures landed <==> good != [] && log != [] && log[|log| - 1].ok
  {
    hide GoodGroups;
  }

  lemma SalvageIsFromGroups(e: Engine, base: Commit, tips: Tips, changes: seq<BranchChange>, edges: seq<Edge>,
                            groups: seq<Group>, dropped: seq<seq<string>>, story: Story)
    requires Resolves(tips, changes) && SlotsFold(e, base, tips, changes, edges, story.slots)
    requires AreSlotHeads(groups, story.slots) && BranchesOf(groups) == LandedLists(story.slots)
    requires InRange(story.good, |groups|) && Drops(story.slots, story.good, dropped)
    requires story.log.Some? && Salvaged(|groups|, story.good, story.log.value, true)
    ensures SalvagedFrom(e, base, tips, changes, edges, Candidate(base, groups, story.good), dropped, story)
  {
    hide Serial, SlotsFold, Compatible, Classes, Regrouped, OverlayTrees, KeptClasses, KeptHeads, Salvaged, GoodGroups, AreSlotHeads;
    KeptHeadsAre(groups, story.slots, story.good);
    KeptDistinct(|groups|, story.good, story.log.value, true);
    SlotCount(e, base, tips, changes, edges, story.slots);
    RegroupedResolves(tips, changes, KeptClasses(changes, edges, story.good));
    if Compatible(base, tips, changes, edges) {
      SalvageIsTheKeptBatch(e, base, tips, changes, edges, story.slots, groups, story.good);
    }
  }

  lemma KeptHeadsAre(groups: seq<Group>, slots: seq<GroupResult>, good: seq<nat>)
    requires AreSlotHeads(groups, slots) && InRange(good, |groups|)
    ensures KeptHeads(slots, good) == HeadsAt(groups, good)
  {
    assert forall i <- good :: groups[i].head == slots[i].head;
  }

  lemma KeptDistinct(k: nat, good: seq<nat>, log: seq<Probe>, landed: bool)
    requires Salvaged(k, good, log, landed)
    ensures Distinct(good)
  {
    hide GoodGroups;
    AscendingDistinct(Replay(log[..|log| - if good == [] then 0 else 1]), k);
  }

  /** The landing tail: somebody else may move the base while the run computes;
      the swap applies only while the base still holds what it computed on. What
      passed the gate lands unless the base moved; what did not never does. A red
      batch is bisected whenever that was asked for and can be done, and then
      something lands, or is refused for a moved base, exactly when the union of
      the kept groups is green: when groups do not interact, exactly when one is. */
  method DriveRun(cfg: Config, strategy: Strategy, repo: Repo, ref: string, base: Commit, changes: seq<BranchChange>,
                  hasVerify: bool, bisect: bool, p: Params, passes: Passes, added: Added, builds: seq<nat> -> bool)
    returns (out: RunOutcome, ghost seen: Option<Commit>, ghost story: Story)
    requires cfg.landRef.None?
    requires ref in repo.refs && repo.refs[ref] == base
    modifies repo
    ensures out.LandedWhole? || out.LandedSubset? ==>
              && seen == Some(base) && repo.refs == old(repo.refs)[ref := out.commit] && out.commit != base
              && GateHolds(hasVerify, out.commit, story.gate)
              && (FixerDescends(story.repairs) ==> IsAncestor(base, out.commit))
    ensures out.LandedWhole? ==> out.commit == story.tried
    ensures out.LandedSubset? ==> SalvagedFrom(cfg.engine, base, old(repo.refs), changes, cfg.edges, out.commit, out.dropped, story)
    ensures !out.IntegrateFailed? ==>
              && Resolves(old(repo.refs), changes)
              && Computes(cfg.engine, strategy, base, old(repo.refs), changes, story.slots, story.integrated)
              && RepairsChain(story.integrated, story.repairs) && story.tried == HeadAfter(story.integrated, story.repairs)
              && (Compatible(base, old(repo.refs), changes, cfg.edges) || strategy.Naive? ==>
                    story.integrated.tree == Serial(cfg.engine, base, old(repo.refs), changes).tree)
    ensures !out.IntegrateFailed? && hasVerify ==>
              Witnessed(base, builds, story, passes, added) && (story.whole.verdict.cached ==> p.useCache)
    ensures !out.IntegrateFailed? && (!hasVerify || story.whole.verdict.ok) ==>
              out.LandedWhole? || out.LandRefused? || (out.NothingToLand? && story.tried == base)
    ensures !out.IntegrateFailed? && hasVerify && !story.whole.verdict.ok ==>
              && (story.log.Some? <==> Bisects(bisect, |story.slots|, added))
              && (out.LandedSubset? || out.LandRefused? <==> UnionGreen(story))
              && (out.Red? <==> !UnionGreen(story))
              && (story.log.Some? ==> GreenGroupsDecide(story, !out.Red?))
    ensures out.IntegrateFailed? || out.Red? ==> repo.refs == old(repo.refs)
    ensures out.IntegrateFailed? ==>
              !(Compatible(base, old(repo.refs), changes, cfg.edges) && BaseContained(base, old(repo.refs), changes))
    ensures out.Red? ==> hasVerify && Failed(p, story)
    ensures out.NothingToLand? ==> GateHolds(hasVerify, base, story.gate)
    ensures out.NothingToLand? || out.LandRefused? ==> seen.Some? && repo.refs == old(repo.refs)[ref := seen.value]
    ensures out.LandRefused? ==> seen.value == out.movedTo != base
  {
    hide Serial, Compatible, Proves, SalvagedFrom, Failed, Computes, RepairsChain, Salvaged, Witnessed, GreenGroupsDecide;
    seen := None;
    var r, whole, dropped;
    r, whole, dropped, story := IntegrateAndGate(cfg, strategy, repo, base, changes, hasVerify, bisect, p, passes, added, builds);
    if r.Err? {
      return IntegrateFailed(r.error), seen, story;
    }
    if story.log.Some? {
      SalvageDecided(story, r.value.Some?);
    }
    if r.value.None? {
      return Red, seen, story;
    }
    var commit := r.value.value;
    ForeignLandings(repo, ref);
    seen := Some(repo.refs[ref]);
    if commit == base {
      return NothingToLand, seen, story;
    }
    var moved := repo.UpdateRefCAS(ref, commit, base);
    if !moved {
      return LandRefused(repo.refs[ref]), seen, story;
    }
    out := if whole then LandedWhole(commit) else LandedSubset(commit, dropped);
  }

  /** When groups do not interact, the salvage got somewhere exactly when some
      group is green by itself. */
  ghost predicate GreenGroupsDecide(story: Story, landed: bool)
    requires story.log.Some?
  {
    forall green: nat -> bool :: NonInteracting(story.log.value, green) ==> (landed <==> exists i: nat :: i < |story.slots| && green(i))
  }

  lemma SalvageDecided(story: Story, landed: bool)
    requires story.log.Some? && Salvaged(|story.slots|, story.good, story.log.value, landed)
    ensures GreenGroupsDecide(story, landed)
  {
    hide Salvaged, NonInteracting;
    forall green: nat -> bool | NonInteracting(story.log.value, green)
      ensures landed <==> exists i: nat :: i < |story.slots| && green(i)
    {
      LandedIsLargestGreen(|story.slots|, story.good, story.log.value, landed, green);
    }
  }
}
