/** The salvage itself: the search runs on slices that share the one index
    array it is still reading, each probe verifies a real candidate commit, and
    only a union verified last and green is landed. */
module Bisect {
  import opened Git
  import opened Seqs
  import opened Verify
  import opened Slices
  import opened GroupSearch

  // ---- probing ----

  /** One integration group: its head commit and the branches it landed. */
  datatype Group = Group(head: Commit, branches: seq<string>)

  function HeadsAt(groups: seq<Group>, block: seq<nat>): seq<Commit>
    requires forall i <- block :: i < |groups|
  {
    seq(|block|, k requires 0 <= k < |block| => assert block[k] in block; groups[block[k]].head)
  }

  /** The subset's heads overlaid on base, in the shape a combine commits. */
  function Candidate(base: Commit, groups: seq<Group>, block: seq<nat>): Commit
    requires forall i <- block :: i < |groups|
  {
    var heads := HeadsAt(groups, block);
    Commit(OverlayTrees(base.tree, heads), [base] + heads, "sigbound: verify-bisect candidate")
  }

  /** verifyCandidate: reset, clean, move onto the candidate, verify there. */
  method VerifyCandidate(wt: Worktree, p: Params, cache: PassCache, commit: Commit) returns (v: Verdict)
    requires wt.Valid() && cache.Valid()
    modifies wt, cache
    ensures wt.Valid() && cache.Valid()
    ensures Journals(old(wt.runs), wt.runs, old(cache.ran), cache.ran)
    ensures Earned(v, commit, wt.runs, cache.entry, cache.ran)
    ensures wt.faults >= old(wt.faults) && Refuted(v, commit, wt.runs, wt.faults > old(wt.faults))
  {
    hide Worktree.Valid, PassCache.Valid, Journals, Earned, Refuted;
    NothingRan(wt.runs, cache.ran);
    ghost var faults := wt.faults;
    var moved := wt.MoveTo(commit);
    if !moved {
      NoVerdict(commit, wt.runs, cache.entry, cache.ran);
      return Verdict(false, false, false, Full, 0);
    }
    ghost var calls;
    v, calls := RunVerifyRetry(wt, p, cache);
  }

  /** Every index names a group. */
  ghost predicate InRange(s: seq<nat>, n: nat) {
    forall x <- s :: x < n
  }

  /** What is bisected: the groups over their base, and which of their candidates
      git can build. */
  datatype Bench = Bench(base: Commit, groups: seq<Group>, builds: seq<nat> -> bool)

  /** The answer to a probe is the verdict of a verify of exactly its candidate,
      or red when that cannot be built. */
  ghost predicate BackedAt(b: Bench, probe: Probe, ev: Evidence) {
    && InRange(probe.block, |b.groups|) && ev.verdict.ok == probe.ok
    && if b.builds(probe.block) then Supported(ev, Candidate(b.base, b.groups, probe.block)) else !probe.ok && !ev.faulted
  }

  /** So it is for every probe, on the passes on record on entry and the runs up
      to then; and where a worktree step is blamed, one failed. */
  ghost predicate Backed(b: Bench, log: seq<Probe>, evidence: seq<Evidence>, entry: Passes, ran: seq<VerifyRun>, faulted: bool) {
    |evidence| == |log| && forall n: nat :: n < |log| ==>
      BackedAt(b, log[n], evidence[n]) && evidence[n].entry == entry && evidence[n].ran <= ran && (evidence[n].faulted ==> faulted)
  }

  /** More runs and more failed steps take nothing from it, one more backed probe adds to it. */
  lemma BackedNext(b: Bench, log: seq<Probe>, evidence: seq<Evidence>, entry: Passes, ran: seq<VerifyRun>, faulted: bool,
                   probe: Probe, ev: Evidence, ran': seq<VerifyRun>, faulted': bool)
    requires Backed(b, log, evidence, entry, ran, faulted) && ran <= ran' && (faulted ==> faulted')
    requires BackedAt(b, probe, ev) && ev.entry == entry && ev.ran <= ran' && (ev.faulted ==> faulted')
    ensures Backed(b, log + [probe], evidence + [ev], entry, ran', faulted')
  {
  }

  /** The probing state: one reused worktree, the cache, and every probe so far. */
  class Prober {
    const bench: Bench
    const p: Params
    const wt: Worktree
    const cache: PassCache
    var attempts: nat
    var last: Option<Commit>
    ghost var log: seq<Probe>
    ghost var evidence: seq<Evidence>
    /** A step failed in a worktree of the pool. */
    ghost var poolFault: bool

    ghost predicate Valid()
      reads this, wt, cache
    {
      && wt.Valid() && cache.Valid() && attempts == |log|
      && Backed(bench, log, evidence, cache.entry, cache.ran, poolFault || wt.faults > 0)
    }

    constructor (bench: Bench, p: Params, cache: PassCache, wt: Worktree)
      requires wt.Valid() && cache.Valid()
      ensures this.bench == bench && this.p == p && this.cache == cache && this.wt == wt
      ensures Valid() && log == [] && !poolFault
    {
      this.bench, this.p, this.cache, this.wt := bench, p, cache, wt;
      attempts, last, log, evidence, poolFault := 0, None, [], [], false;
    }

    /** Overlay the block's heads on base and verify that commit. */
    method Eval(block: seq<nat>) returns (ok: bool)
      requires Valid() && InRange(block, |bench.groups|)
      modifies this, wt, cache
      ensures Valid() && log == old(log) + [Probe(block, ok)] && old(evidence) <= evidence && poolFault == old(poolFault)
      ensures old(cache.ran) <= cache.ran && (!bench.builds(block) ==> !ok && cache.ran == old(cache.ran))
      ensures ok ==> last == Some(Candidate(bench.base, bench.groups, block)) && evidence[|log| - 1].runs == wt.runs
    {
      hide Worktree.Valid, PassCache.Valid, Candidate, Earned, Refuted, Backed, Journals;
      attempts := attempts + 1;
      ghost var ev := Evidence(Verdict(false, false, false, Full, 0), wt.runs, cache.entry, cache.ran, false);
      ghost var ran, faults := cache.ran, wt.faults;
      ok := false;
      if bench.builds(block) {
        var commit := Candidate(bench.base, bench.groups, block);
        var v := VerifyCandidate(wt, p, cache, commit);
        ok, last := v.ok, Some(commit);
        ev := Evidence(v, wt.runs, cache.entry, cache.ran, wt.faults > faults);
      }
      RanGrew(ran, cache.ran, old(wt.runs), wt.runs);
      BackedNext(bench, log, evidence, cache.entry, ran, poolFault || faults > 0, Probe(block, ok), ev, cache.ran, poolFault || wt.faults > 0);
      log, evidence := log + [Probe(block, ok)], evidence + [ev];
      EvidenceCount(bench, log, evidence, cache.entry, cache.ran, poolFault || wt.faults > 0);
    }
  }

  lemma RanGrew(ran: seq<VerifyRun>, ran': seq<VerifyRun>, runs: seq<VerifyRun>, runs': seq<VerifyRun>)
    requires ran == ran' || Journals(runs, runs', ran, ran')
    ensures ran <= ran'
  {
  }

  lemma EvidenceCount(b: Bench, log: seq<Probe>, evidence: seq<Evidence>, entry: Passes, ran: seq<VerifyRun>, faulted: bool)
    requires Backed(b, log, evidence, entry, ran, faulted)
    ensures |evidence| == |log|
  {
  }

  // ---- the search on shared slices ----

  /** A result lives in its own new array, or inside the window it came from. */
  twostate predicate Inside(new good: Slice, subset: Slice)
    requires subset.Slice?
  {
    good.Nil? || fresh(good.arr) ||
    (good.arr == subset.arr && good.off == subset.off && good.len <= subset.len && good.cap == subset.cap)
  }

  /** Only the window's cells may differ. */
  ghost predicate Outside(before: seq<nat>, after: seq<nat>, off: nat, len: nat) {
    && |before| == |after|
    && forall i :: 0 <= i < |before| && !(off <= i < off + len) ==> after[i] == before[i]
  }

  lemma OutsideTwice(a: seq<nat>, b: seq<nat>, c: seq<nat>, off: nat, mid: nat, len: nat)
    requires mid <= len && Outside(a, b, off, mid) && Outside(b, c, off + mid, len - mid)
    ensures Outside(a, c, off, len)
  {
  }

  lemma WindowKept(a: seq<nat>, b: seq<nat>, off: nat, len: nat, from: nat, to: nat)
    requires Outside(a, b, off, len) && from <= to <= |a| && (to <= off || off + len <= from)
    ensures |b| == |a| && b[from..to] == a[from..to]
  {
  }

  lemma OutsideSame(a: seq<nat>, off: nat, len: nat)
    requires off + len <= |a|
    ensures Outside(a, a, off, len)
  {
  }

  /** splitGood on a window of the shared array: the same result and probes as
      the pure search, and nothing outside the window is written. */
  method SplitGood(pr: Prober, subset: Slice) returns (good: Slice)
    requires pr.Valid() && subset.Slice? && Wf(subset) && InRange(View(subset), |pr.bench.groups|)
    modifies subset.arr, pr, pr.wt, pr.cache
    ensures pr.Valid() && old(pr.cache.ran) <= pr.cache.ran && pr.poolFault == old(pr.poolFault) && old(pr.log) <= pr.log
    ensures Wf(good) && Inside(good, subset)
    ensures Split(Replay(pr.log), old(View(subset)), old(pr.log)) == Search(View(good), pr.log)
    ensures Outside(old(subset.arr[..]), subset.arr[..], subset.off, subset.len)
    decreases subset.len, 2
  {
    hide Split, Outside, Prober.Valid;
    assert Outside(subset.arr[..], subset.arr[..], subset.off, subset.len) by {
      OutsideSame(subset.arr[..], subset.off, subset.len);
    }
    if subset.len == 0 {
      SplitEmpty(Replay(pr.log), pr.log);
      return Nil;
    }
    var block := subset.arr[subset.off..subset.off + subset.len];
    ghost var log := pr.log;
    var ok := pr.Eval(block);
    if ok {
      SplitGreen(Replay(pr.log), block, log);
      return subset;
    }
    if subset.len == 1 {
      SplitLoneRed(Replay(pr.log), block, log);
      return Nil;
    }
    ghost var log' := pr.log;
    good := SplitHalves(pr, subset);
    assert pr.log[|log|] == log'[|log|];
    SplitRed(Replay(pr.log), block, log);
  }

  /** Search both halves, left first: the right half is still intact when its
      turn comes, and searching it leaves the left result alone. */
  method SearchHalves(pr: Prober, subset: Slice, mid: nat) returns (l: Slice, r: Slice)
    requires pr.Valid() && subset.Slice? && Wf(subset) && InRange(View(subset), |pr.bench.groups|)
    requires 0 < mid < subset.len
    modifies subset.arr, pr, pr.wt, pr.cache
    ensures pr.Valid() && old(pr.cache.ran) <= pr.cache.ran && pr.poolFault == old(pr.poolFault) && old(pr.log) <= pr.log
    ensures Wf(l) && Wf(r) && Inside(l, subset)
    ensures BothHalves(pr.log, old(View(subset)), mid, old(pr.log), View(l), View(r))
    ensures Outside(old(subset.arr[..]), subset.arr[..], subset.off, subset.len)
    decreases subset.len, 0
  {
    hide Split, Outside, Replay, InRange, Prober.Valid, View;
    var left := Slice(subset.arr, subset.off, mid, subset.cap);
    var right := Slice(subset.arr, subset.off + mid, subset.len - mid, subset.cap - mid);
    ghost var a, s, log0 := subset.arr[..], View(subset), pr.log;
    HalfViews(subset, left, right, |pr.bench.groups|);
    l := SearchBeside(pr, left, right);
    ghost var b, log1 := subset.arr[..], pr.log;
    r := SearchBeside(pr, right, l);
    OutsideTwice(a, b, subset.arr[..], subset.off, mid, subset.len);
    ReplayLonger(s[..mid], log0, log1, pr.log);
  }

  /** Searching one window leaves what another slice shows alone, when it lies
      beside that window or in another array. */
  method SearchBeside(pr: Prober, subset: Slice, ghost other: Slice) returns (good: Slice)
    requires pr.Valid() && subset.Slice? && Wf(subset) && InRange(View(subset), |pr.bench.groups|)
    requires Wf(other) && (other.Slice? && other.arr == subset.arr ==>
               other.off + other.len <= subset.off || subset.off + subset.len <= other.off)
    modifies subset.arr, pr, pr.wt, pr.cache
    ensures pr.Valid() && old(pr.cache.ran) <= pr.cache.ran && pr.poolFault == old(pr.poolFault) && old(pr.log) <= pr.log
    ensures Wf(good) && Inside(good, subset) && View(other) == old(View(other))
    ensures Split(Replay(pr.log), old(View(subset)), old(pr.log)) == Search(View(good), pr.log)
    ensures Outside(old(subset.arr[..]), subset.arr[..], subset.off, subset.len)
    decreases subset.len, 3
  {
    hide Split, Outside, Replay, InRange, Prober.Valid;
    ghost var before := subset.arr[..];
    good := SplitGood(pr, subset);
    if other.Slice? && other.arr == subset.arr {
      WindowViewKept(before, subset.arr, subset.off, subset.len, other);
    }
  }

  /** Writing inside one window leaves the view of a disjoint one alone. */
  lemma WindowViewKept(before: seq<nat>, arr: array<nat>, off: nat, len: nat, other: Slice)
    requires Outside(before, arr[..], off, len)
    requires other.Slice? && other.arr == arr && Wf(other)
    requires other.off + other.len <= off || off + len <= other.off
    ensures View(other) == before[other.off..other.off + other.len]
  {
    WindowKept(before, arr[..], off, len, other.off, other.off + other.len);
    Windows(arr, other.off, other.len);
  }

  /** The two halves of s searched one after the other. */
  ghost predicate BothHalves(log: seq<Probe>, s: seq<nat>, mid: nat, log0: seq<Probe>, lgood: seq<nat>, rgood: seq<nat>)
    requires mid <= |s|
  {
    var l := Split(Replay(log), s[..mid], log0);
    l.good == lgood && Split(Replay(log), s[mid..], l.log) == Search(rgood, log)
  }

  /** Later probes do not change what an earlier search read. */
  lemma ReplayLonger(s: seq<nat>, log0: seq<Probe>, log1: seq<Probe>, log2: seq<Probe>)
    requires Split(Replay(log1), s, log0).log == log1 <= log2
    ensures Split(Replay(log2), s, log0) == Split(Replay(log1), s, log0)
  {
    hide Split;
    SplitReads(Replay(log1), Replay(log2), s, log0);
  }

  lemma HalfViews(subset: Slice, left: Slice, right: Slice, n: nat)
    requires subset.Slice? && Wf(subset) && InRange(View(subset), n) && left.Slice? && right.Slice? && left.len < subset.len
    requires left == Slice(subset.arr, subset.off, left.len, subset.cap)
    requires right == Slice(subset.arr, subset.off + left.len, subset.len - left.len, subset.cap - left.len)
    ensures Wf(left) && Wf(right) && InRange(View(left), n) && InRange(View(right), n)
    ensures |View(subset)| == subset.len
    ensures View(left) == View(subset)[..left.len] && View(right) == View(subset)[left.len..]
    ensures View(right) == subset.arr[..][right.off..right.off + right.len]
  {
    hide InRange;
    var s := View(subset);
    assert forall i :: 0 <= i < left.len ==> View(left)[i] == s[i];
    assert forall i :: 0 <= i < right.len ==> View(right)[i] == s[left.len + i];
    assert View(left) == s[..left.len];
    assert View(right) == s[left.len..];
    InRangeHalves(s, left.len, n);
  }

  lemma InRangeHalves(s: seq<nat>, mid: nat, n: nat)
    requires InRange(s, n) && mid <= |s|
    ensures InRange(s[..mid], n) && InRange(s[mid..], n)
  {
    forall x | x in s[..mid] || x in s[mid..]
      ensures x in s
    {
      assert s == s[..mid] + s[mid..];
    }
  }

  /** ...then append the right result to the left one, inside the window. */
  method SplitHalves(pr: Prober, subset: Slice) returns (good: Slice)
    requires pr.Valid() && subset.Slice? && Wf(subset) && InRange(View(subset), |pr.bench.groups|)
    requires subset.len > 1
    modifies subset.arr, pr, pr.wt, pr.cache
    ensures pr.Valid() && old(pr.cache.ran) <= pr.cache.ran && pr.poolFault == old(pr.poolFault) && old(pr.log) <= pr.log
    ensures Wf(good) && Inside(good, subset)
    ensures var s, mid := old(View(subset)), subset.len / 2;
            var l := Split(Replay(pr.log), s[..mid], old(pr.log));
            var r := Split(Replay(pr.log), s[mid..], l.log);
            View(good) == l.good + r.good && pr.log == r.log
    ensures Outside(old(subset.arr[..]), subset.arr[..], subset.off, subset.len)
    decreases subset.len, 1
  {
    hide Split, Outside, Replay, InRange, Prober.Valid, View;
    assert |View(subset)| == subset.len by {
      ViewSize(subset);
    }
    var mid := subset.len / 2;
    ghost var s, a, log0 := View(subset), subset.arr[..], pr.log;
    var l, r := SearchHalves(pr, subset, mid);
    ghost var c, v := subset.arr[..], Replay(pr.log);
    GoodFits(v, s[..mid], log0);
    GoodFits(v, s[mid..], Split(v, s[..mid], log0).log);
    ViewSize(l);
    assert |View(l)| + |View(r)| <= subset.len;
    good := Append(l, r);
    if l.Slice? && l.arr == subset.arr {
      AppendedInside(a, c, subset.arr[..], subset.off, subset.len);
    }
  }

  lemma ViewSize(s: Slice)
    requires Wf(s)
    ensures |View(s)| == if s.Nil? then 0 else s.len
  {
  }

  lemma AppendedInside(a: seq<nat>, c: seq<nat>, d: seq<nat>, off: nat, len: nat)
    requires Outside(a, c, off, len) && |d| == |c| && off + len <= |c|
    requires d[..off] == c[..off] && forall i :: off + len <= i < |c| ==> d[i] == c[i]
    ensures Outside(a, d, off, len)
  {
    forall i | 0 <= i < off
      ensures d[i] == c[i]
    {
      assert d[..off][i] == c[..off][i];
    }
  }

  // ---- the search over all groups ----

  lemma IndicesInRange(k: nat)
    ensures InRange(Indices(k), k)
  {
  }

  /** bisectGoodGroups: up to six groups are probed one by one; more are known
      red together, so the search starts at the halves. */
  method BisectGoodGroups(pr: Prober) returns (good: seq<nat>)
    requires pr.Valid() && pr.log == []
    modifies pr, pr.wt, pr.cache
    ensures pr.Valid() && old(pr.cache.ran) <= pr.cache.ran && pr.poolFault == old(pr.poolFault)
    ensures GoodGroups(Replay(pr.log), |pr.bench.groups|) == Search(good, pr.log)
  {
    hide Split, Alone, Replay, Prober.Valid;
    var k := |pr.bench.groups|;
    if k <= BISECT_ALONE_MAX {
      good := EachAlone(pr);
      return;
    }
    var all := new nat[k](i => i);
    var full := Slice(all, 0, k, k);
    assert View(full) == Indices(k);
    IndicesInRange(k);
    var kept := SplitHalves(pr, full);
    good := if kept.Nil? then [] else kept.arr[kept.off..kept.off + kept.len];
  }

  lemma AloneStart()
    ensures Alone(Replay([]), 0, []) == Search([], [])
  {
  }

  /** One more group probed alone. */
  lemma AloneNext(log: seq<Probe>, good: seq<nat>, i: nat, ok: bool)
    requires |log| == i && Alone(Replay(log), i, []) == Search(good, log)
    ensures var log' := log + [Probe([i], ok)];
            Alone(Replay(log'), i + 1, []) == Search(good + if ok then [i] else [], log')
  {
    AloneReads(Replay(log), Replay(log + [Probe([i], ok)]), i);
  }

  method EachAlone(pr: Prober) returns (good: seq<nat>)
    requires pr.Valid() && pr.log == []
    modifies pr, pr.wt, pr.cache
    ensures pr.Valid() && old(pr.cache.ran) <= pr.cache.ran && pr.poolFault == old(pr.poolFault)
    ensures Alone(Replay(pr.log), |pr.bench.groups|, []) == Search(good, pr.log)
  {
    good := [];
    AloneStart();
    hide Prober.Valid, Alone, Replay;
    for i := 0 to |pr.bench.groups|
      invariant pr.Valid() && old(pr.cache.ran) <= pr.cache.ran && pr.poolFault == old(pr.poolFault)
      invariant |pr.log| == i && Alone(Replay(pr.log), i, []) == Search(good, pr.log)
    {
      ghost var log := pr.log;
      var ok := pr.Eval([i]);
      AloneNext(log, good, i, ok);
      if ok {
        good := good + [i];
      }
    }
  }

  const BISECT_PARALLEL_MIN := 2
  const BISECT_PARALLEL_CAP := 3

  /** The pool: at most three worktrees, created one after another. */
  method CreatePool(base: Commit, k: nat) returns (pool: seq<Worktree>)
    ensures k > 0 ==> |pool| > 0
    ensures forall wt <- pool :: fresh(wt) && wt.Valid()
  {
    hide Worktree.Valid;
    pool := [];
    for i := 0 to if k < BISECT_PARALLEL_CAP then k else BISECT_PARALLEL_CAP
      invariant |pool| == i && forall wt <- pool :: fresh(wt) && wt.Valid()
    {
      var wt := new Worktree(base);
      pool := pool + [wt];
    }
  }

  /** The probes start and finish in any order, each on some free worktree, and
      each writes only its own slot: the verdict of its own group's candidate. */
  method ProbeEach(pool: seq<Worktree>, b: Bench, p: Params, cache: PassCache)
    returns (oks: seq<bool>, ghost evidence: seq<Evidence>)
    requires |b.groups| > 0 ==> |pool| > 0
    requires cache.Valid() && forall wt <- pool :: wt.Valid()
    modifies (set wt | wt in pool), cache
    ensures cache.Valid() && old(cache.ran) <= cache.ran
    ensures |oks| == |b.groups| == |evidence|
    ensures forall i: nat :: i < |b.groups| ==> SlotBacked(b, i, oks[i], evidence[i], cache.entry, cache.ran, AnyFault(pool))
  {
    hide Worktree.Valid, PassCache.Valid, SlotBacked;
    oks := seq(|b.groups|, i => false);
    evidence := seq(|b.groups|, i => Evidence(Verdict(false, false, false, Full, 0), [], {}, [], true));
    var pending := Range(|b.groups|);
    while pending != {}
      invariant |oks| == |b.groups| == |evidence| && (forall i <- pending :: i < |b.groups|)
      invariant cache.Valid() && old(cache.ran) <= cache.ran
      invariant forall wt <- pool :: wt.Valid()
      invariant forall i: nat :: i < |b.groups| && i !in pending ==>
                  SlotBacked(b, i, oks[i], evidence[i], cache.entry, cache.ran, AnyFault(pool))
      decreases pending
    {
      var i :| i in pending;
      pending := pending - {i};
      var free: nat :| free < |pool|;
      assert pool[free] in pool;
      ghost var ran, faulted, before := cache.ran, AnyFault(pool), pool[free].faults;
      var ok: bool;
      ghost var ev: Evidence;
      ok, ev := ProbeOne(pool[free], b, p, cache, i);
      assert AnyFault(pool) <== faulted || pool[free].faults > 0;
      forall k: nat | k < |b.groups| && k != i && k !in pending
        ensures SlotBacked(b, k, oks[k], evidence[k], cache.entry, cache.ran, AnyFault(pool))
      {
        StillBacked(b, k, oks[k], evidence[k], cache.entry, ran, faulted, cache.ran, AnyFault(pool));
      }
      StillBacked(b, i, ok, ev, cache.entry, cache.ran, pool[free].faults > before, cache.ran, AnyFault(pool));
      oks, evidence := oks[i := ok], evidence[i := ev];
    }
  }

  ghost predicate SlotBacked(b: Bench, i: nat, ok: bool, ev: Evidence, entry: Passes, ran: seq<VerifyRun>, faulted: bool) {
    BackedAt(b, Probe([i], ok), ev) && ev.entry == entry && ev.ran <= ran && (ev.faulted ==> faulted)
  }

  lemma StillBacked(b: Bench, i: nat, ok: bool, ev: Evidence, entry: Passes, ran: seq<VerifyRun>, faulted: bool, ran': seq<VerifyRun>, faulted': bool)
    requires SlotBacked(b, i, ok, ev, entry, ran, faulted) && ran <= ran' && (faulted ==> faulted')
    ensures SlotBacked(b, i, ok, ev, entry, ran', faulted')
  {
  }

  /** One group by itself: overlay its head, check the candidate out, verify. */
  method ProbeOne(wt: Worktree, b: Bench, p: Params, cache: PassCache, i: nat) returns (ok: bool, ghost ev: Evidence)
    requires wt.Valid() && cache.Valid() && i < |b.groups|
    modifies wt, cache
    ensures wt.Valid() && cache.Valid() && old(cache.ran) <= cache.ran && wt.faults >= old(wt.faults)
    ensures SlotBacked(b, i, ok, ev, cache.entry, cache.ran, wt.faults > old(wt.faults))
  {
    hide Worktree.Valid, PassCache.Valid, Candidate, Earned, Refuted;
    ev := Evidence(Verdict(false, false, false, Full, 0), wt.runs, cache.entry, cache.ran, false);
    if !b.builds([i]) {
      return false, ev;
    }
    ghost var faults := wt.faults;
    var v := VerifyCandidate(wt, p, cache, Candidate(b.base, b.groups, [i]));
    return v.ok, Evidence(v, wt.runs, cache.entry, cache.ran, wt.faults > faults);
  }

  /** The answers in the slots. */
  function AnswersIn(oks: seq<bool>): Verdicts {
    n => 0 <= n < |oks| && oks[n]
  }

  /** evalAloneParallel: the kept indices depend only on the answers, never on
      scheduling, and are what the serial scan keeps. */
  method CollectGreen(oks: seq<bool>) returns (good: seq<nat>)
    ensures good == Alone(AnswersIn(oks), |oks|, []).good
  {
    good := [];
    for i := 0 to |oks|
      invariant good == Alone(AnswersIn(oks), i, []).good
    {
      if oks[i] {
        good := good + [i];
      }
    }
  }

  lemma {:induction false} AloneReplays(v: Verdicts, k: nat)
    ensures forall n: nat :: n < k ==> Alone(v, k, []).log[n] == Probe([n], v(n))
  {
    if k > 0 {
      AloneReplays(v, k - 1);
    }
  }

  /** bisectAloneParallel. Without its pool it keeps nothing. */
  method BisectAloneParallel(b: Bench, p: Params, cache: PassCache, pooled: bool)
    returns (good: seq<nat>, ghost pool: seq<Worktree>, ghost log: seq<Probe>, ghost evidence: seq<Evidence>)
    requires cache.Valid()
    modifies cache
    ensures cache.Valid() && old(cache.ran) <= cache.ran
    ensures forall wt <- pool :: fresh(wt)
    ensures pooled ==> Alone(Replay(log), |b.groups|, []) == Search(good, log)
    ensures pooled ==> Backed(b, log, evidence, cache.entry, cache.ran, AnyFault(pool))
    ensures !pooled ==> good == [] && cache.ran == old(cache.ran)
  {
    hide BackedAt, PassCache.Valid;
    if !pooled {
      return [], [], [], [];
    }
    var wts := CreatePool(b.base, |b.groups|);
    pool := wts;
    var oks: seq<bool>;
    oks, evidence := ProbeEach(wts, b, p, cache);
    good := CollectGreen(oks);
    ghost var serial := Alone(AnswersIn(oks), |oks|, []);
    AloneReplays(AnswersIn(oks), |oks|);
    AloneReads(AnswersIn(oks), Replay(serial.log), |oks|);
    log := serial.log;
    assert forall n: nat :: n < |log| ==> SlotBacked(b, n, oks[n], evidence[n], cache.entry, cache.ran, AnyFault(pool));
  }

  // ---- the salvage ----

  datatype BisectReport = BisectReport(landed: Option<Commit>, landedGroups: seq<seq<string>>, droppedGroups: seq<seq<string>>, attempts: nat)

  function BranchesOf(groups: seq<Group>): seq<seq<string>> {
    seq(|groups|, k requires 0 <= k < |groups| => groups[k].branches)
  }

  /** The groups kept and the groups dropped, in order. */
  ghost predicate SplitsReport(groups: seq<Group>, good: seq<nat>, r: BisectReport) {
    var kept := if r.landed.Some? then set i | i in good else {};
    && r.landedGroups == Select(BranchesOf(groups), kept)
    && r.droppedGroups == Select(BranchesOf(groups), Range(|groups|) - kept)
  }

  /** Landed and dropped groups partition all the groups. */
  lemma ReportIsAPartition(groups: seq<Group>, good: seq<nat>, r: BisectReport)
    requires SplitsReport(groups, good, r) && InRange(good, |groups|)
    ensures multiset(r.landedGroups) + multiset(r.droppedGroups) == multiset(BranchesOf(groups))
    ensures r.landed.None? ==> r.landedGroups == [] && r.droppedGroups == BranchesOf(groups)
  {
    var kept := if r.landed.Some? then set i | i in good else {};
    SelectComplement(BranchesOf(groups), kept, Range(|groups|) - kept);
    NothingKept(groups);
  }

  lemma NothingKept(groups: seq<Group>)
    ensures Select(BranchesOf(groups), {}) == []
    ensures Select(BranchesOf(groups), Range(|groups|) - {}) == BranchesOf(groups)
  {
    SelectExtremes(BranchesOf(groups), {});
    SelectExtremes(BranchesOf(groups), Range(|groups|) - {});
  }

  /** The groups in and out of the kept set, in one pass. */
  method SplitGroups(groups: seq<Group>, goodSet: set<nat>) returns (landed: seq<seq<string>>, dropped: seq<seq<string>>)
    ensures landed == Select(BranchesOf(groups), goodSet)
    ensures dropped == Select(BranchesOf(groups), Range(|groups|) - goodSet)
  {
    landed, dropped := [], [];
    ghost var all := BranchesOf(groups);
    for gi := 0 to |groups|
      invariant landed == Select(all[..gi], goodSet) && dropped == Select(all[..gi], Range(|groups|) - goodSet)
    {
      assert all[..gi + 1] == all[..gi] + [all[gi]];
      SelectSnoc(all[..gi], all[gi], goodSet);
      SelectSnoc(all[..gi], all[gi], Range(|groups|) - goodSet);
      if gi in goodSet {
        landed := landed + [groups[gi].branches];
      } else {
        dropped := dropped + [groups[gi].branches];
      }
    }
    assert all[..|groups|] == all;
  }

  /** The union of the kept groups is verified once more, as the exact commit
      that would land. It lands if and only if that last probe is green. */
  method LandUnion(pr: Prober, kept: seq<nat>) returns (r: BisectReport)
    requires pr.Valid() && InRange(kept, |pr.bench.groups|)
    modifies pr, pr.wt, pr.cache
    ensures pr.Valid() && old(pr.cache.ran) <= pr.cache.ran
    ensures old(pr.log) <= pr.log && |pr.log| == |old(pr.log)| + if kept == [] then 0 else 1
    ensures kept != [] ==> pr.log[|pr.log| - 1].block == kept
    ensures r.landed.Some? <==> kept != [] && pr.log[|pr.log| - 1].ok
    ensures r.landed.Some? ==> r.landed.value == Candidate(pr.bench.base, pr.bench.groups, kept)
    ensures r.landed.Some? ==> |pr.evidence| == |pr.log| && pr.evidence[|pr.log| - 1].runs == pr.wt.runs
    ensures pr.poolFault == old(pr.poolFault)
    ensures SplitsReport(pr.bench.groups, kept, r) && r.attempts == |pr.log|
  {
    hide Candidate, Select, Backed, Worktree.Valid;
    var unionOK := false;
    if |kept| > 0 {
      unionOK := pr.Eval(kept);
    }
    ValidCounts(pr);
    if !unionOK {
      NothingKept(pr.bench.groups);
      return BisectReport(None, [], BranchesOf(pr.bench.groups), pr.attempts);
    }
    var goodSet := set i | i in kept;
    var landed, dropped := SplitGroups(pr.bench.groups, goodSet);
    r := BisectReport(Some(pr.last.value), landed, dropped, pr.attempts);
  }

  lemma ValidCounts(pr: Prober)
    requires pr.Valid()
    ensures pr.attempts == |pr.log| == |pr.evidence|
  {
  }

  lemma KeptInRange(v: Verdicts, k: nat)
    ensures InRange(GoodGroups(v, k).good, k)
    ensures k <= BISECT_ALONE_MAX ==> GoodGroups(v, k) == Alone(v, k, [])
  {
    GoodGroupsSorts(v, k);
  }

  /** A finished salvage: the search's probes, then the union's if anything was
      kept; it lands iff that last one is green. */
  ghost predicate Salvaged(k: nat, good: seq<nat>, log: seq<Probe>, landed: bool) {
    var n := |log| - if good == [] then 0 else 1;
    && n >= 0 && GoodGroups(Replay(log[..n]), k) == Search(good, log[..n])
    && (good != [] ==> log[n].block == good)
    && (landed <==> good != [] && log[n].ok)
  }

  /** When groups do not interact, what lands is exactly the green groups: the
      largest green subset, and nothing only when no group is green. */
  lemma LandedIsLargestGreen(k: nat, good: seq<nat>, log: seq<Probe>, landed: bool, green: nat -> bool)
    requires Salvaged(k, good, log, landed) && NonInteracting(log, green)
    ensures forall i: nat :: i in good <==> i < k && green(i)
    ensures landed <==> exists i: nat :: i < k && green(i)
  {
    hide GoodGroups, Replay;
    var n := |log| - if good == [] then 0 else 1;
    assert NonInteracting(log[..n], green) by {
      assert forall probe <- log[..n] :: probe in log;
    }
    LargestGreenSubset(Replay(log[..n]), k, green);
    if good != [] {
      assert log[n] in log && good[0] in good;
    }
  }

  /** Each group alone and the union, up to six; at most 2k-2 and the union above. */
  function MostProbes(k: nat): nat {
    if k <= BISECT_ALONE_MAX then k + 1 else 2 * k - 1
  }

  /** Whether git could add the gate's worktree, the bisection's shared one, and
      the pool of them. */
  datatype Added = Added(gate: bool, shared: bool, pool: bool)

  /** The bisection gets to its probes. */
  predicate Probes(k: nat, added: Added) {
    added.shared && (BISECT_PARALLEL_MIN <= k <= BISECT_ALONE_MAX ==> added.pool)
  }

  /** verifyBisect. It lands nothing, or the union of the kept groups: exactly
      when that exact commit, the last thing verified, is green. Every answer on
      the way was a verify of its own candidate. `wts` are the worktrees it used. */
  method VerifyBisect(b: Bench, p: Params, cache: PassCache, added: Added)
    returns (r: BisectReport, ghost wts: seq<Worktree>, ghost good: seq<nat>, ghost log: Option<seq<Probe>>, ghost evidence: seq<Evidence>)
    requires cache.Valid()
    modifies cache
    ensures cache.Valid() && old(cache.ran) <= cache.ran
    ensures |wts| > 0 && forall wt <- wts :: fresh(wt)
    ensures InRange(good, |b.groups|)
    ensures log.Some? <==> Probes(|b.groups|, added)
    ensures log.Some? ==> Salvaged(|b.groups|, good, log.value, r.landed.Some?)
    ensures log.Some? ==> Backed(b, log.value, evidence, cache.entry, cache.ran, AnyFault(wts))
    ensures log.None? ==> r.landed.None?
    ensures r.landed.Some? ==> r.landed.value == Candidate(b.base, b.groups, good)
    ensures r.landed.Some? ==> |evidence| > 0 && Proves(evidence[|evidence| - 1], r.landed.value)
                               && evidence[|evidence| - 1].runs == wts[0].runs && evidence[|evidence| - 1].entry == cache.entry
    ensures SplitsReport(b.groups, good, r)
    ensures r.attempts <= MostProbes(|b.groups|)
    ensures log.Some? ==> r.attempts == |log.value|
  {
    hide *;
    var wt := new Worktree(b.base);
    wts, good, log, evidence := [wt], [], None, [];
    NothingLanded(b.groups, 0);
    if !added.shared {
      assert !Probes(|b.groups|, added) by {
        ProbesIff(|b.groups|, added);
      }
      return BisectReport(None, [], BranchesOf(b.groups), 0), wts, [], None, [];
    }
    ProbesIff(|b.groups|, added);
    var pr := new Prober(b, p, cache, wt);
    ghost var pool;
    var found, kept;
    found, kept, pool := FindGood(pr, added.pool);
    wts := [wt] + pool;
    assert wt !in pool;
    if !found {
      NothingLanded(b.groups, |b.groups|);
      return BisectReport(None, [], BranchesOf(b.groups), |b.groups|), wts, [], None, [];
    }
    good := kept;
    ghost var poolFault := pr.poolFault;
    r := FinishSalvage(pr, kept);
    log, evidence := Some(pr.log), pr.evidence;
    FaultsShow(b, pr.log, evidence, cache.entry, cache.ran, wt, pool, poolFault);
  }

  lemma ProbesIff(k: nat, added: Added)
    ensures Probes(k, added) <==> added.shared && (BISECT_PARALLEL_MIN <= k <= BISECT_ALONE_MAX ==> added.pool)
  {
  }

  lemma FaultsShow(b: Bench, log: seq<Probe>, evidence: seq<Evidence>, entry: Passes, ran: seq<VerifyRun>,
                   wt: Worktree, pool: seq<Worktree>, poolFault: bool)
    requires Backed(b, log, evidence, entry, ran, poolFault || wt.faults > 0) && (poolFault ==> AnyFault(pool))
    ensures Backed(b, log, evidence, entry, ran, AnyFault([wt] + pool))
  {
    assert wt in [wt] + pool && forall w <- pool :: w in [wt] + pool;
  }

  lemma NothingLanded(groups: seq<Group>, attempts: nat)
    requires attempts <= |groups|
    ensures SplitsReport(groups, [], BisectReport(None, [], BranchesOf(groups), attempts)) && InRange([], |groups|)
    ensures attempts <= MostProbes(|groups|)
  {
    NothingKept(groups);
  }

  /** The union check on top of a finished search. */
  method FinishSalvage(pr: Prober, kept: seq<nat>) returns (r: BisectReport)
    requires pr.Valid() && GoodGroups(Replay(pr.log), |pr.bench.groups|) == Search(kept, pr.log)
    modifies pr, pr.wt, pr.cache
    ensures pr.Valid() && pr.cache.Valid() && old(pr.cache.ran) <= pr.cache.ran && pr.poolFault == old(pr.poolFault)
    ensures Backed(pr.bench, pr.log, pr.evidence, pr.cache.entry, pr.cache.ran, pr.poolFault || pr.wt.faults > 0)
    ensures InRange(kept, |pr.bench.groups|) && Salvaged(|pr.bench.groups|, kept, pr.log, r.landed.Some?)
    ensures r.landed.Some? ==> r.landed.value == Candidate(pr.bench.base, pr.bench.groups, kept)
    ensures r.landed.Some? ==> |pr.evidence| > 0 && Proves(pr.evidence[|pr.evidence| - 1], r.landed.value)
                               && pr.evidence[|pr.evidence| - 1].runs == pr.wt.runs && pr.evidence[|pr.evidence| - 1].entry == pr.cache.entry
    ensures SplitsReport(pr.bench.groups, kept, r) && r.attempts == |pr.log|
    ensures r.attempts <= MostProbes(|pr.bench.groups|)
  {
    hide Worktree.Valid, PassCache.Valid, GoodGroups, Replay, Candidate, Backed, SplitsReport, Proves;
    ghost var search := pr.log;
    KeptInRange(Replay(search), |pr.bench.groups|);
    ProbeBound(Replay(search), |pr.bench.groups|);
    r := LandUnion(pr, kept);
    assert pr.log[..|search|] == search;
    if r.landed.Some? {
      LastProves(pr.bench, pr.log, pr.evidence, pr.cache.entry, pr.cache.ran, pr.poolFault || pr.wt.faults > 0);
    }
  }

  /** The search phase: in parallel for two to six groups, on the reused worktree
      otherwise. It fails only when the pool cannot be created. */
  method FindGood(pr: Prober, pooled: bool) returns (found: bool, kept: seq<nat>, ghost pool: seq<Worktree>)
    requires pr.Valid() && pr.log == [] && !pr.poolFault
    modifies pr, pr.wt, pr.cache
    ensures pr.Valid() && pr.cache.Valid() && old(pr.cache.ran) <= pr.cache.ran
    ensures (forall wt <- pool :: fresh(wt)) && (pr.poolFault ==> AnyFault(pool))
    ensures found ==> GoodGroups(Replay(pr.log), |pr.bench.groups|) == Search(kept, pr.log)
    ensures found <==> (BISECT_PARALLEL_MIN <= |pr.bench.groups| <= BISECT_ALONE_MAX ==> pooled)
    ensures !found ==> kept == []
  {
    hide Worktree.Valid, PassCache.Valid, GoodGroups, Alone, Replay, Backed;
    var k := |pr.bench.groups|;
    if !(BISECT_PARALLEL_MIN <= k <= BISECT_ALONE_MAX) {
      kept := BisectGoodGroups(pr);
      return true, kept, [];
    }
    ghost var seen: seq<Probe>, backing: seq<Evidence>;
    kept, pool, seen, backing := BisectAloneParallel(pr.bench, pr.p, pr.cache, pooled);
    found := pooled;
    if pooled {
      AloneCount(seen, kept, k);
      KeptInRange(Replay(seen), k);
      MoreFaults(pr.bench, seen, backing, pr.cache.entry, pr.cache.ran, AnyFault(pool), AnyFault(pool) || pr.wt.faults > 0);
      pr.attempts, pr.log, pr.evidence, pr.poolFault := k, seen, backing, AnyFault(pool);
    }
  }

  lemma MoreFaults(b: Bench, log: seq<Probe>, evidence: seq<Evidence>, entry: Passes, ran: seq<VerifyRun>, faulted: bool, faulted': bool)
    requires Backed(b, log, evidence, entry, ran, faulted) && (faulted ==> faulted')
    ensures Backed(b, log, evidence, entry, ran, faulted')
  {
  }

  lemma AloneCount(log: seq<Probe>, good: seq<nat>, k: nat)
    requires Alone(Replay(log), k, []) == Search(good, log)
    ensures |log| == k
  {
  }

  lemma LastProves(b: Bench, log: seq<Probe>, evidence: seq<Evidence>, entry: Passes, ran: seq<VerifyRun>, faulted: bool)
    requires Backed(b, log, evidence, entry, ran, faulted) && log != [] && log[|log| - 1].ok
    ensures |evidence| == |log| && InRange(log[|log| - 1].block, |b.groups|)
    ensures Proves(evidence[|log| - 1], Candidate(b.base, b.groups, log[|log| - 1].block)) && evidence[|log| - 1].entry == entry
  {
    assert BackedAt(b, log[|log| - 1], evidence[|log| - 1]);
  }
}
