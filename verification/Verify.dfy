/** The verify gate: one reused worktree, reset and cleaned before every run,
    retries on a red verdict, and the bounded repair loop. The verify command is
    an oracle that may leave any files behind but does not move HEAD. */
module Verify {
  import opened Git

  /** The command a verify runs: the full one, or the impact-scoped one. */
  datatype Command = Full | Impact(packages: seq<string>)

  /** What one run of a command saw: the commit checked out, the files in the
      worktree, those among them inside a nested repository an earlier run had
      left, and what this run left in turn. */
  datatype VerifyRun = VerifyRun(head: Commit, command: Command, seen: Tree, leftovers: set<Path>, ok: bool, leaves: set<Path>)

  /** The files seen are the commit's tree, apart from the leftovers. */
  ghost predicate Faithful(r: VerifyRun) {
    && r.leftovers !! r.head.tree.Keys
    && r.seen - r.leftovers == r.head.tree
  }

  /** A run saw exactly the commit's tree iff nothing nested was left over. */
  lemma SawExactlyTheTree(r: VerifyRun)
    requires Faithful(r) && r.leftovers <= r.seen.Keys
    ensures r.seen == r.head.tree <==> r.leftovers == {}
  {
    if r.leftovers != {} {
      var p :| p in r.leftovers;
      assert p in r.seen && p !in r.head.tree;
    } else {
      assert r.seen - {} == r.seen;
    }
  }

  /** Leftovers come from the run before: none at first, and none after a run
      that left no nested repository. */
  ghost predicate LeftoversChain(runs: seq<VerifyRun>) {
    && (forall k :: 0 <= k < |runs| ==> Faithful(runs[k]) && runs[k].leftovers <= runs[k].seen.Keys)
    && (|runs| > 0 ==> runs[0].leftovers == {})
    && (forall k :: 0 < k < |runs| ==> runs[k].leftovers <= runs[k - 1].leaves)
  }

  /** When no run leaves a nested repository, every run saw exactly the tree of
      the commit it was judging, whatever else earlier runs had scribbled. */
  lemma HermeticRuns(runs: seq<VerifyRun>, k: nat)
    requires LeftoversChain(runs) && k < |runs|
    requires k > 0 ==> runs[k - 1].leaves == {}
    ensures runs[k].seen == runs[k].head.tree
  {
    SawExactlyTheTree(runs[k]);
  }

  // ---- the worktree ----

  /** A worktree's state: the commit checked out, its files, and those among
      them inside untracked nested repositories. */
  datatype Work = Checkout(head: Commit, files: Tree, nested: set<Path>)

  /** `git reset --hard`: tracked files read as HEAD again, untracked ones stay. */
  function AfterReset(w: Work): Work {
    w.(files := w.files + w.head.tree)
  }

  /** `git clean -fdx`: untracked and ignored files go, except those in nested
      repositories, which a single -f leaves alone. */
  function AfterClean(w: Work): Work {
    w.(files := map p | p in w.files && (p in w.head.tree || p in w.nested) :: w.files[p])
  }

  /** A run of the command: it sees the files there and leaves what it leaves,
      with HEAD where it was. */
  ghost predicate Ran(w: Work, w': Work, command: Command, ok: bool, run: VerifyRun) {
    && w'.head == w.head && w'.nested <= w'.files.Keys && w'.nested !! w'.head.tree.Keys
    && run == VerifyRun(w.head, command, w.files, w.nested, ok, w'.nested)
  }

  /** A run that clones a repository into the worktree is seen by the next one:
      resetting and cleaning do not reach it. */
  lemma NestedRepositoryLeaks() returns (w: Work, w': Work, first: VerifyRun, w'': Work, second: VerifyRun)
    ensures w == Checkout(first.head, first.head.tree, {}) && Ran(w, w', Full, false, first)
    ensures Ran(AfterClean(AfterReset(w')), w'', Full, true, second)
    ensures second.head == first.head && second.seen != second.head.tree
    ensures LeftoversChain([first, second])
  {
    var c := Commit(map["f" := Entry(DEFAULT_MODE, "x")], [], "head");
    var extra := c.tree["clone/g" := Entry(DEFAULT_MODE, "y")];
    w, w' := Checkout(c, c.tree, {}), Checkout(c, extra, {"clone/g"});
    first, second := VerifyRun(c, Full, c.tree, {}, false, {"clone/g"}), VerifyRun(c, Full, extra, {"clone/g"}, true, {});
    w'' := Checkout(c, extra, {});
    assert "clone/g" !in c.tree && "clone/g" in extra;
    assert AfterReset(w').files == extra && AfterClean(AfterReset(w')).files == extra;
    assert c.tree - {} == c.tree && extra - {"clone/g"} == c.tree;
    assert Faithful(first) && Faithful(second);
  }

  class Worktree {
    var head: Commit
    var files: Tree
    /** Files inside untracked nested repositories. */
    var nested: set<Path>
    ghost var runs: seq<VerifyRun>
    /** Worktree steps that failed. */
    ghost var faults: nat

    ghost predicate Valid()
      reads this
    {
      && nested <= files.Keys && nested !! head.tree.Keys
      && LeftoversChain(runs)
      && nested <= if runs == [] then {} else runs[|runs| - 1].leaves
    }

    /** What is checked out and lying about. */
    function Contents(): (w: Work)
      reads this
    {
      Checkout(head, files, nested)
    }

    /** A step that fails is counted, one that succeeds is not. */
    ghost predicate Faulted(ok: bool, before: nat)
      reads this
    {
      faults == before + if ok then 0 else 1
    }

    /** Nothing untracked but what cleaning cannot remove. */
    ghost predicate Pristine()
      reads this
    {
      files - nested == head.tree
    }

    /** `git worktree add --detach`. */
    constructor (commit: Commit)
      ensures Valid() && Pristine() && head == commit && runs == [] && faults == 0
    {
      head, files, nested, runs, faults := commit, commit.tree, {}, [], 0;
      new;
      assert files - {} == files;
    }

    /** `git reset --hard`: tracked files read as HEAD again, untracked ones stay. */
    method ResetHard() returns (ok: bool)
      requires Valid()
      modifies this`files, this`faults
      ensures Valid() && Faulted(ok, old(faults))
      ensures Contents() == if ok then AfterReset(old(Contents())) else old(Contents())
    {
      ok := *;
      if ok {
        files := files + head.tree;
      } else {
        faults := faults + 1;
      }
    }

    /** `git clean -fdx`: removes untracked and ignored files, except inside
        nested repositories, which a single -f leaves alone. */
    method Clean() returns (ok: bool)
      requires Valid()
      modifies this`files, this`faults
      ensures Valid() && Faulted(ok, old(faults))
      ensures Contents() == if ok then AfterClean(old(Contents())) else old(Contents())
    {
      ok := *;
      if ok {
        files := map p | p in files && (p in head.tree || p in nested) :: files[p];
      } else {
        faults := faults + 1;
      }
    }

    /** `git checkout --detach`: touches only paths that differ between the two
        commits, and refuses to overwrite an untracked file. */
    method CheckoutDetach(commit: Commit) returns (ok: bool)
      requires Valid()
      modifies this`files, this`head, this`faults
      ensures Valid() && Faulted(ok, old(faults))
      ensures ok ==> head == commit && forall p :: At(files, p) == if At(old(head).tree, p) != At(commit.tree, p) then At(commit.tree, p) else At(old(files), p)
      ensures !ok ==> files == old(files) && head == old(head)
    {
      ok := *;
      if nested * commit.tree.Keys != {} {
        ok := false;
      }
      if ok {
        files := ApplyDiff(files, head.tree, commit.tree);
        forall p
          ensures At(files, p) == if At(old(head).tree, p) != At(commit.tree, p) then At(commit.tree, p) else At(old(files), p)
        {
          ApplyDiffAt(old(files), old(head).tree, commit.tree, p);
        }
        NestedSurvive(old(files), old(head).tree, commit.tree, nested);
        head := commit;
      } else {
        faults := faults + 1;
      }
    }

    /** Reset, then clean: the worktree reads as HEAD, whatever was left in it. */
    method ResetAndClean() returns (ok: bool)
      requires Valid()
      modifies this`files, this`faults
      ensures Valid() && Faulted(ok, old(faults))
      ensures ok ==> Pristine() && Contents() == AfterClean(AfterReset(old(Contents())))
    {
      ok := ResetHard();
      if ok {
        ok := Clean();
        assert ok ==> files - nested == head.tree;
      }
    }

    /** Reset, clean and move to another commit, in that order. */
    method MoveTo(commit: Commit) returns (ok: bool)
      requires Valid()
      modifies this`files, this`head, this`faults
      ensures Valid() && Faulted(ok, old(faults))
      ensures ok ==> head == commit && Pristine()
    {
      ok := ResetAndClean();
      if ok {
        label Cleaned:
        ok := CheckoutDetach(commit);
        if ok {
          MovedIsPristine(old@Cleaned(files), old@Cleaned(head).tree, commit.tree, nested, files);
        }
      }
    }

    /** Run the command in the worktree. It sees the files there and leaves
        whatever it leaves. */
    method RunCommand(command: Command) returns (ok: bool)
      requires Valid() && Pristine()
      modifies this`files, this`nested, this`runs
      ensures Valid()
      ensures |runs| == |old(runs)| + 1 && runs[..|old(runs)|] == old(runs)
      ensures Ran(old(Contents()), Contents(), command, ok, runs[|old(runs)|])
    {
      ok := *;
      ghost var run := VerifyRun(head, command, files, nested, ok, {});
      var scribbled: Tree := *;
      var inner: set<Path> := *;
      // a nested repository's files are untracked by definition
      inner := (inner * scribbled.Keys) - head.tree.Keys;
      files, nested := scribbled, inner;
      runs := runs + [run.(leaves := inner)];
    }
  }

  /** A step failed in some of the worktrees. */
  ghost predicate AnyFault(wts: seq<Worktree>)
    reads wts
  {
    exists wt <- wts :: wt.faults > 0
  }

  lemma NestedSurvive(files: Tree, from: Tree, to: Tree, nested: set<Path>)
    requires nested <= files.Keys && nested !! from.Keys && nested !! to.Keys
    ensures nested <= ApplyDiff(files, from, to).Keys
  {
  }

  lemma MovedIsPristine(files: Tree, from: Tree, to: Tree, nested: set<Path>, moved: Tree)
    requires files - nested == from && nested !! from.Keys && nested !! to.Keys
    requires forall p :: At(moved, p) == if At(from, p) != At(to, p) then At(to, p) else At(files, p)
    ensures moved - nested == to
  {
    forall p: Path
      ensures At(moved - nested, p) == At(to, p)
    {
      assert At(files - nested, p) == At(from, p);
      assert At(moved, p) == if At(from, p) != At(to, p) then At(to, p) else At(files, p);
    }
    TreeExtensionality(moved - nested, to);
  }

  // ---- one verify, with retries ----

  datatype Verdict = Verdict(ok: bool, cached: bool, flaky: bool, command: Command, invocations: nat)

  datatype Params = Params(verifyRetries: int, repairMax: int, hasRepair: bool, useCache: bool, hasImpact: bool)

  /** Past passes: trees that verified green under a command. */
  type Passes = set<(Tree, Command)>

  /** What green runs put on record: the tree under the command that passed. */
  function PassesIn(runs: seq<VerifyRun>): Passes {
    set r | r in runs && r.ok :: (r.head.tree, r.command)
  }

  /** The verify cache: past passes, looked up before a run and added to after a
      green one. `ran` is every run since it was opened, in whatever worktree. */
  class PassCache {
    const enabled: bool
    ghost const entry: Passes
    var passes: Passes
    ghost var ran: seq<VerifyRun>

    /** It holds what it held and what has run green since, nothing else. */
    ghost predicate Valid()
      reads this
    {
      passes == if enabled then entry + PassesIn(ran) else entry
    }

    constructor (enabled: bool, passes: Passes)
      ensures Valid() && this.enabled == enabled && entry == passes && ran == []
    {
      this.enabled, entry, this.passes, ran := enabled, passes, passes, [];
    }

    /** Files a green run. */
    method Store(tree: Tree, command: Command)
      modifies this`passes
      ensures passes == old(passes) + {(tree, command)}
    {
      passes := passes + {(tree, command)};
    }
  }

  /** A green verdict is a real pass: the last run was of exactly this commit and
      command and green, or its tree had passed this command in a green run before,
      or was on record on entry. */
  ghost predicate Earned(v: Verdict, head: Commit, runs: seq<VerifyRun>, entry: Passes, ran: seq<VerifyRun>) {
    v.ok ==>
      if v.cached then (head.tree, v.command) in entry || exists r <- ran :: r.ok && r.head.tree == head.tree && r.command == v.command
      else runs != [] && ran != [] && ran[|ran| - 1] == runs[|runs| - 1] && LastRan(v, head, runs)
  }

  /** The last run was of this commit and command, and went as the verdict says. */
  ghost predicate LastRan(v: Verdict, head: Commit, runs: seq<VerifyRun>)
    requires runs != []
  {
    var r := runs[|runs| - 1];
    r.ok == v.ok && r.head == head && r.command == v.command
  }

  /** A red verdict is a real failure: the last run was on this commit and red, or
      a worktree step failed on the way. */
  ghost predicate Refuted(v: Verdict, head: Commit, runs: seq<VerifyRun>, faulted: bool) {
    !v.ok && !faulted ==> runs != [] && LastRan(v, head, runs)
  }

  /** What a verdict rests on: the runs in its worktree, the passes on record on
      entry, all runs since, and whether a worktree step failed. */
  datatype Evidence = Evidence(verdict: Verdict, runs: seq<VerifyRun>, entry: Passes, ran: seq<VerifyRun>, faulted: bool)

  ghost predicate Supported(ev: Evidence, c: Commit) {
    Earned(ev.verdict, c, ev.runs, ev.entry, ev.ran) && Refuted(ev.verdict, c, ev.runs, ev.faulted)
  }

  /** Exactly this commit passed. */
  ghost predicate Proves(ev: Evidence, c: Commit) {
    ev.verdict.ok && Earned(ev.verdict, c, ev.runs, ev.entry, ev.ran)
  }

  /** So there was a green run of it, or of its tree under the same command, since
      the cache was opened; or its tree was on record by then. */
  lemma ProofIsARun(ev: Evidence, c: Commit)
    requires Proves(ev, c)
    ensures (ev.verdict.cached && (c.tree, ev.verdict.command) in ev.entry)
            || exists r <- ev.ran :: r.ok && r.head.tree == c.tree && r.command == ev.verdict.command && (!ev.verdict.cached ==> r.head == c)
  {
    if !ev.verdict.cached {
      assert ev.ran[|ev.ran| - 1] in ev.ran;
    }
  }

  /** A green, uncached verdict: the run it rests on saw exactly the commit's
      tree iff nothing nested was left over, so in particular whenever the run
      before left no nested repository, whatever else it scribbled. */
  lemma GreenSawItsTree(v: Verdict, head: Commit, runs: seq<VerifyRun>, entry: Passes, ran: seq<VerifyRun>)
    requires v.ok && !v.cached && Earned(v, head, runs, entry, ran) && LeftoversChain(runs)
    ensures runs[|runs| - 1].seen == head.tree <==> runs[|runs| - 1].leftovers == {}
    ensures |runs| == 1 || runs[|runs| - 2].leaves == {} ==> runs[|runs| - 1].seen == head.tree
  {
    SawExactlyTheTree(runs[|runs| - 1]);
    if |runs| == 1 || runs[|runs| - 2].leaves == {} {
      HermeticRuns(runs, |runs| - 1);
    }
  }

  /** The journal gains exactly the runs the worktree gains. */
  ghost predicate Journals(runs: seq<VerifyRun>, runs': seq<VerifyRun>, ran: seq<VerifyRun>, ran': seq<VerifyRun>) {
    runs <= runs' && ran' == ran + runs'[|runs|..]
  }

  lemma JournalsOn(a: seq<VerifyRun>, b: seq<VerifyRun>, c: seq<VerifyRun>, x: seq<VerifyRun>, y: seq<VerifyRun>, z: seq<VerifyRun>)
    requires Journals(a, b, x, y) && Journals(b, c, y, z)
    ensures Journals(a, c, x, z) && x <= y <= z
  {
    assert c[|a|..] == b[|a|..] + c[|b|..];
  }

  lemma NothingRan(runs: seq<VerifyRun>, ran: seq<VerifyRun>)
    ensures Journals(runs, runs, ran, ran)
  {
    assert ran + runs[|runs|..] == ran;
  }

  /** One more run of the worktree goes into the journal, and if the cache is on
      and the run green, the cache gains just its pass. */
  lemma RunFiled(enabled: bool, entry: Passes, passes: Passes, ran: seq<VerifyRun>, r: VerifyRun)
    requires passes == if enabled then entry + PassesIn(ran) else entry
    ensures var passes' := if enabled && r.ok then passes + {(r.head.tree, r.command)} else passes;
            passes' == if enabled then entry + PassesIn(ran + [r]) else entry
  {
    assert PassesIn(ran + [r]) == PassesIn(ran) + if r.ok then {(r.head.tree, r.command)} else {};
  }

  /** runVerify: reset and clean, choose the command, consult the cache, run, and
      put a pass, and nothing but a pass, on record. */
  method RunVerify(wt: Worktree, p: Params, cache: PassCache) returns (v: Verdict, ghost call: Call)
    requires wt.Valid() && cache.Valid()
    modifies wt, cache
    ensures wt.Valid() && cache.Valid() && wt.head == old(wt.head)
    ensures Journals(old(wt.runs), wt.runs, old(cache.ran), cache.ran)
    ensures Earned(v, wt.head, wt.runs, cache.entry, cache.ran)
    ensures wt.faults >= old(wt.faults) && Refuted(v, wt.head, wt.runs, wt.faults > old(wt.faults))
    ensures v.ok == Green(call) && (v.cached <==> call == Hit) && (v.cached ==> cache.enabled) && !v.flaky
    ensures call.Unready? || (call == Hit <==> cache.enabled && (wt.head.tree, v.command) in old(cache.passes))
    ensures |wt.runs| == |old(wt.runs)| + (if call.Executed? then 1 else 0)
    ensures wt.faults == old(wt.faults) + (if call.Unready? then 1 else 0)
    ensures !p.hasImpact ==> v.command == Full
  {
    hide Worktree.Valid, Journals, PassesIn;
    NothingRan(wt.runs, cache.ran);
    var ready := wt.ResetAndClean();
    if !ready {
      return Verdict(false, false, false, Full, 0), Unready;
    }
    var command := Full;
    if p.hasImpact {
      var scoped: bool := *;
      if scoped {
        var packages: seq<string> := *;
        command := Impact(packages);
      }
    }
    if cache.enabled && (wt.head.tree, command) in cache.passes {
      OnRecord(cache.entry, cache.ran, wt.head.tree, command);
      return Verdict(true, true, false, command, 0), Hit;
    }
    ghost var runs, ran := wt.runs, cache.ran;
    var ok := wt.RunCommand(command);
    RunFiled(cache.enabled, cache.entry, cache.passes, ran, wt.runs[|runs|]);
    OneRunJournals(runs, wt.runs, ran);
    if cache.enabled && ok {
      cache.Store(wt.head.tree, command);
    }
    cache.ran := ran + [wt.runs[|runs|]];
    v, call := Verdict(ok, false, false, command, 0), Executed(ok);
  }

  lemma OneRunJournals(runs: seq<VerifyRun>, runs': seq<VerifyRun>, ran: seq<VerifyRun>)
    requires runs <= runs' && |runs'| == |runs| + 1
    ensures Journals(runs, runs', ran, ran + [runs'[|runs|]])
  {
    assert runs'[|runs|..] == [runs'[|runs|]];
  }

  lemma OnRecord(entry: Passes, ran: seq<VerifyRun>, tree: Tree, command: Command)
    requires (tree, command) in entry + PassesIn(ran)
    ensures (tree, command) in entry || exists r <- ran :: r.ok && r.head.tree == tree && r.command == command
  {
  }

  function Max0(n: int): nat {
    if n < 0 then 0 else n
  }

  /** What one verify call came to: the command was run, a past pass was found, or
      the worktree could not be made ready. */
  datatype Call = Executed(ok: bool) | Hit | Unready

  predicate Green(c: Call) {
    c == Executed(true) || c == Hit
  }

  /** The calls of a retried verify: as many as it takes to be green, at most. */
  ghost predicate RetryLog(calls: seq<Call>, retries: int) {
    && 1 <= |calls| <= Max0(retries) + 1
    && (forall k :: 0 <= k < |calls| - 1 ==> !Green(calls[k]))
    && (Green(calls[|calls| - 1]) || |calls| == Max0(retries) + 1)
  }

  /** What is reported: every call, but for a first one that found a past pass. */
  function Invocations(calls: seq<Call>): nat {
    if calls == [Hit] then 0 else |calls|
  }

  function Commands(calls: seq<Call>): nat {
    if calls == [] then 0 else Commands(calls[..|calls| - 1]) + if calls[|calls| - 1].Executed? then 1 else 0
  }

  function Unreadies(calls: seq<Call>): nat {
    if calls == [] then 0 else Unreadies(calls[..|calls| - 1]) + if calls[|calls| - 1].Unready? then 1 else 0
  }

  lemma {:induction false} CommandsCount(calls: seq<Call>)
    ensures Commands(calls) <= |calls|
    ensures Commands(calls) == |calls| <==> forall c <- calls :: c.Executed?
  {
    if calls != [] {
      var n := |calls| - 1;
      CommandsCount(calls[..n]);
      assert calls == calls[..n] + [calls[n]];
    }
  }

  /** The count reported is that of the commands run exactly when every call ran
      the command, or the only one found a past pass; otherwise it is higher. */
  lemma InvocationsAreCommandsIff(calls: seq<Call>)
    ensures Commands(calls) <= Invocations(calls)
    ensures Invocations(calls) == Commands(calls) <==> calls == [Hit] || forall c <- calls :: c.Executed?
  {
    CommandsCount(calls);
    if calls == [Hit] {
      assert Commands([Hit]) == Commands([]);
    }
  }

  /** A worktree that cannot be made ready at first: two invocations, one command. */
  lemma UnreadyCounts() returns (calls: seq<Call>)
    ensures RetryLog(calls, 1) && Invocations(calls) == 2 && Commands(calls) == 1
  {
    calls := [Unready, Executed(true)];
    assert calls[..1] == [Unready] && [Unready][..0] == [];
    assert Commands([Unready]) == Commands([]) == 0;
  }

  /** Re-run a red verify up to `retries` more times on the same tree. A green
      retry is flaky; the count covers every call but a first one that found a
      past pass, also one that never got to run the command. */
  method RunVerifyRetry(wt: Worktree, p: Params, cache: PassCache) returns (v: Verdict, ghost calls: seq<Call>)
    requires wt.Valid() && cache.Valid()
    modifies wt, cache
    ensures wt.Valid() && cache.Valid() && wt.head == old(wt.head)
    ensures Journals(old(wt.runs), wt.runs, old(cache.ran), cache.ran)
    ensures RetryLog(calls, p.verifyRetries) && v.ok == Green(calls[|calls| - 1])
    ensures v.invocations == Invocations(calls)
    ensures |wt.runs| == |old(wt.runs)| + Commands(calls) && wt.faults == old(wt.faults) + Unreadies(calls)
    ensures Earned(v, wt.head, wt.runs, cache.entry, cache.ran)
    ensures Refuted(v, wt.head, wt.runs, wt.faults > old(wt.faults))
    ensures |wt.runs| - |old(wt.runs)| <= v.invocations <= Max0(p.verifyRetries) + 1
    ensures !v.ok ==> v.invocations == Max0(p.verifyRetries) + 1
    ensures (v.flaky <==> v.ok && |calls| > 1) && (v.cached ==> cache.enabled)
    ensures !p.hasImpact ==> v.command == Full
  {
    hide Worktree.Valid, PassCache.Valid, Earned, Refuted, Commands, Unreadies, Journals;
    ghost var call;
    v, call := RunVerify(wt, p, cache);
    calls := [call];
    OneCall(call);
    var invocations := if v.cached then 0 else 1;
    var attempt := 0;
    while !v.ok && attempt < p.verifyRetries
      invariant wt.Valid() && cache.Valid() && wt.head == old(wt.head)
      invariant 0 <= attempt <= Max0(p.verifyRetries)
      invariant |calls| == attempt + 1 && v.ok == Green(calls[attempt])
      invariant forall k :: 0 <= k < attempt ==> !Green(calls[k])
      invariant invocations == Invocations(calls)
      invariant Journals(old(wt.runs), wt.runs, old(cache.ran), cache.ran)
      invariant |wt.runs| == |old(wt.runs)| + Commands(calls)
      invariant wt.faults == old(wt.faults) + Unreadies(calls)
      invariant Earned(v, wt.head, wt.runs, cache.entry, cache.ran)
      invariant Refuted(v, wt.head, wt.runs, wt.faults > old(wt.faults))
      invariant (v.flaky <==> v.ok && attempt > 0) && (v.cached ==> cache.enabled)
      invariant !p.hasImpact ==> v.command == Full
      decreases p.verifyRetries - attempt
    {
      ghost var faults, runs, ran := wt.faults, wt.runs, cache.ran;
      v, call := RunVerify(wt, p, cache);
      JournalsOn(old(wt.runs), runs, wt.runs, old(cache.ran), ran, cache.ran);
      StandsOn(v, v.(flaky := v.ok), wt.head, wt.runs, cache.entry, cache.ran, wt.faults > faults, wt.faults > old(wt.faults));
      v := v.(flaky := v.ok);
      OneMoreCall(calls, call);
      calls := calls + [call];
      invocations := invocations + 1;
      attempt := attempt + 1;
    }
    InvocationsAreCommandsIff(calls);
    StandsOn(v, v.(invocations := invocations), wt.head, wt.runs, cache.entry, cache.ran, wt.faults > old(wt.faults), wt.faults > old(wt.faults));
    v := v.(invocations := invocations);
  }

  lemma OneCall(c: Call)
    ensures Commands([c]) == (if c.Executed? then 1 else 0) && Unreadies([c]) == if c.Unready? then 1 else 0
  {
    assert [c][..0] == [];
  }

  lemma OneMoreCall(calls: seq<Call>, c: Call)
    ensures Commands(calls + [c]) == Commands(calls) + (if c.Executed? then 1 else 0)
    ensures Unreadies(calls + [c]) == Unreadies(calls) + if c.Unready? then 1 else 0
  {
    assert (calls + [c])[..|calls|] == calls;
  }

  lemma NoVerdict(commit: Commit, runs: seq<VerifyRun>, entry: Passes, ran: seq<VerifyRun>)
    ensures var v := Verdict(false, false, false, Full, 0); Earned(v, commit, runs, entry, ran) && Refuted(v, commit, runs, true)
  {
  }

  /** What a verdict rests on does not depend on its counts, and more failed steps
      take nothing from it. */
  lemma StandsOn(v: Verdict, v': Verdict, head: Commit, runs: seq<VerifyRun>, entry: Passes, ran: seq<VerifyRun>, faulted: bool, faulted': bool)
    requires Earned(v, head, runs, entry, ran) && Refuted(v, head, runs, faulted)
    requires v' == v.(flaky := v'.flaky, invocations := v'.invocations) && (faulted ==> faulted')
    ensures Earned(v', head, runs, entry, ran) && Refuted(v', head, runs, faulted')
  {
  }

  // ---- repair ----

  /** What a fixer run on a head comes back with. */
  datatype RepairOutcome = RefusedWrite | RepairFailed | Returned(head: Commit)

  datatype Repair = Repair(from: Commit, outcome: RepairOutcome)

  /** The head after a log of repairs: moved only by one that was not refused,
      did not fail, and committed something. */
  function HeadAfter(head: Commit, repairs: seq<Repair>): Commit {
    if repairs == [] then head
    else
      var r := repairs[|repairs| - 1];
      if r.outcome.Returned? then r.outcome.head else HeadAfter(head, repairs[..|repairs| - 1])
  }

  /** Every repair was run on the head as it then stood. */
  ghost predicate RepairsChain(head: Commit, repairs: seq<Repair>) {
    forall k :: 0 <= k < |repairs| ==> repairs[k].from == HeadAfter(head, repairs[..k])
  }

  lemma {:induction false} RepairedHeadDescends(head: Commit, repairs: seq<Repair>)
    requires RepairsChain(head, repairs)
    requires forall r <- repairs :: r.outcome.Returned? ==> IsAncestor(r.from, r.outcome.head)
    ensures IsAncestor(head, HeadAfter(head, repairs))
  {
    if repairs != [] {
      var n := |repairs| - 1;
      assert repairs[n] in repairs;
      forall k | 0 <= k < n
        ensures repairs[..n][k].from == HeadAfter(head, repairs[..n][..k])
      {
        assert repairs[..n][..k] == repairs[..k];
      }
      RepairedHeadDescends(head, repairs[..n]);
      if repairs[n].outcome.Returned? {
        AncestorTransitive(head, repairs[n].from, repairs[n].outcome.head);
      }
    }
  }

  lemma ChainGrows(head: Commit, repairs: seq<Repair>, r: Repair)
    requires RepairsChain(head, repairs) && r.from == HeadAfter(head, repairs)
    ensures RepairsChain(head, repairs + [r])
    ensures HeadAfter(head, repairs + [r]) == if r.outcome.Returned? then r.outcome.head else r.from
  {
    var all := repairs + [r];
    assert all[..|repairs|] == repairs;
    forall k | 0 <= k < |all|
      ensures all[k].from == HeadAfter(head, all[..k])
    {
      if k < |repairs| {
        assert all[..k] == repairs[..k];
      }
    }
  }

  /** The invocation budget of so many rounds of retried verifies. */
  function Budget(rounds: nat, perRound: nat): nat {
    rounds * perRound
  }

  lemma BudgetGrows(rounds: nat, max: nat, perRound: nat)
    requires rounds <= max
    ensures Budget(0, perRound) == 0 && Budget(rounds + 1, perRound) == Budget(rounds, perRound) + perRound
    ensures Budget(rounds, perRound) <= Budget(max, perRound)
  {
  }

  /** One round: run the fixer on the head, move the worktree onto what it
      committed, verify again. `more` unless the loop is over. */
  method RepairRound(wt: Worktree, p: Params, head: Commit, v: Verdict, cache: PassCache)
    returns (outcome: RepairOutcome, head': Commit, v': Verdict, invoked: nat, more: bool, ghost calls: seq<Call>)
    requires wt.Valid() && cache.Valid() && wt.head == head && !v.ok
    modifies wt, cache
    ensures wt.Valid() && cache.Valid()
    ensures Journals(old(wt.runs), wt.runs, old(cache.ran), cache.ran)
    ensures head' == if outcome.Returned? then outcome.head else head
    ensures v'.cached ==> v.cached || cache.enabled
    ensures Earned(v', head', wt.runs, cache.entry, cache.ran)
    ensures wt.faults >= old(wt.faults)
    ensures Refuted(v, head, old(wt.runs), old(wt.faults) > 0) ==> Refuted(v', head', wt.runs, wt.faults > 0)
    ensures |wt.runs| - |old(wt.runs)| <= invoked <= Max0(p.verifyRetries) + 1
    ensures invoked == Invocations(calls) && |wt.runs| == |old(wt.runs)| + Commands(calls)
    ensures if calls == [] then v' == v else RetryLog(calls, p.verifyRetries) && v'.ok == Green(calls[|calls| - 1])
    ensures more ==> wt.head == head' && !v'.ok
    ensures !more && !v'.ok ==> Stops(Repair(head, outcome)) || wt.faults > 0
    ensures Stops(Repair(head, outcome)) ==> !more && !v'.ok && wt.runs == old(wt.runs)
  {
    hide Worktree.Valid, PassCache.Valid, Journals;
    NothingRan(wt.runs, cache.ran);
    outcome := RunRepair(head);
    head', v', invoked, more, calls := head, v, 0, false, [];
    match outcome {
      case RefusedWrite =>
      case RepairFailed =>
      case Returned(fixed) =>
        if fixed != head {
          head' := fixed;
          var moved := wt.MoveTo(fixed);
          if moved {
            v', calls := RunVerifyRetry(wt, p, cache);
            invoked, more := v'.invocations, !v'.ok;
          }
        }
    }
  }

  /** A repair after which there is nothing to verify: refused, failed, or one
      that changed nothing. */
  ghost predicate Stops(r: Repair) {
    r.outcome.Returned? ==> r.outcome.head == r.from
  }

  /** The loop goes on only after a repair that left something to verify, and ends
      green only on one. */
  ghost predicate GoesOn(repairs: seq<Repair>, ok: bool) {
    && (forall k :: 0 <= k < |repairs| - 1 ==> !Stops(repairs[k]))
    && (ok && repairs != [] ==> !Stops(repairs[|repairs| - 1]))
  }

  lemma GoesOnNext(repairs: seq<Repair>, r: Repair, ok: bool)
    requires forall k :: 0 <= k < |repairs| ==> !Stops(repairs[k])
    requires ok ==> !Stops(r)
    ensures GoesOn(repairs + [r], ok)
    ensures !Stops(r) ==> forall k :: 0 <= k < |repairs + [r]| ==> !Stops((repairs + [r])[k])
  {
  }

  /** A red outcome is the end of the road: no fixer, no rounds left, a repair
      with nothing to verify, or a worktree step that failed. */
  ghost predicate Exhausted(p: Params, repairs: seq<Repair>, faulted: bool) {
    !p.hasRepair || |repairs| >= p.repairMax || faulted || (repairs != [] && Stops(repairs[|repairs| - 1]))
  }

  /** verifyWithRepair. If it reports green, the last verify ran green on exactly
      the commit it returns; if red, that commit failed and every round allowed
      was spent. The head moved only through repairs that were not refused;
      attempts and invocations are bounded. `added`: git could add the worktree. */
  method VerifyWithRepair(p: Params, head0: Commit, cache: PassCache, added: bool)
    returns (v: Verdict, head: Commit, wt: Worktree, attempts: nat, ghost repairs: seq<Repair>, ghost rounds: seq<seq<Call>>)
    requires cache.Valid()
    modifies cache
    ensures fresh(wt) && wt.Valid() && cache.Valid()
    ensures cache.ran == old(cache.ran) + wt.runs
    ensures Earned(v, head, wt.runs, cache.entry, cache.ran)
    ensures Refuted(v, head, wt.runs, !added || wt.faults > 0)
    ensures !v.ok ==> Exhausted(p, repairs, !added || wt.faults > 0)
    ensures RepairsChain(head0, repairs) && head == HeadAfter(head0, repairs)
    ensures attempts == |repairs| <= Max0(p.repairMax)
    ensures GoesOn(repairs, v.ok)
    ensures !p.hasRepair ==> repairs == []
    ensures v.cached ==> cache.enabled
    ensures |wt.runs| <= v.invocations <= Budget(Max0(p.repairMax) + 1, Max0(p.verifyRetries) + 1)
    ensures v.invocations == AllInvocations(rounds) && |rounds| == if added then |repairs| + 1 else 0
    ensures !added ==> !v.ok && wt.runs == [] && repairs == []
  {
    hide Worktree.Valid, PassCache.Valid, Budget, RepairsChain, Stops, Journals, AllInvocations, RetryLog, Invocations, Commands, Green, Earned, Refuted;
    NoRepairs(head0);
    head, repairs, attempts, rounds := head0, [], 0, [];
    NoRounds();
    var per := Max0(p.verifyRetries) + 1;
    BudgetGrows(0, Max0(p.repairMax) + 1, per);
    BudgetGrows(1, Max0(p.repairMax) + 1, per);
    wt := new Worktree(head0);
    AllRan([], wt.runs, cache.ran, cache.ran);
    if !added {
      NoVerdict(head0, wt.runs, cache.entry, cache.ran);
      return Verdict(false, false, false, Full, 0), head, wt, 0, [], [];
    }
    ghost var calls;
    v, calls := RunVerifyRetry(wt, p, cache);
    OneRound(calls);
    rounds := [calls];
    AllRan([], wt.runs, old(cache.ran), cache.ran);
    if v.ok || !p.hasRepair || p.repairMax < 1 {
      return;
    }
    ghost var runs, ran := wt.runs, cache.ran;
    var first, invoked := v.invocations, 0;
    v, head, attempts, invoked, repairs, rounds := RepairLoop(wt, p, head0, v, cache);
    JournalsOn([], runs, wt.runs, old(cache.ran), ran, cache.ran);
    AllRan([], wt.runs, old(cache.ran), cache.ran);
    BudgetGrows(attempts + 1, Max0(p.repairMax) + 1, per);
    BudgetGrows(attempts, Max0(p.repairMax) + 1, per);
    FirstRound(calls, rounds);
    rounds := [calls] + rounds;
    StandsOn(v, v.(invocations := first + invoked), head, wt.runs, cache.entry, cache.ran, wt.faults > 0, wt.faults > 0);
    v := v.(invocations := first + invoked);
  }

  /** The repair rounds after a first red verify. */
  method RepairLoop(wt: Worktree, p: Params, head0: Commit, v0: Verdict, cache: PassCache)
    returns (v: Verdict, head: Commit, attempts: nat, total: nat, ghost repairs: seq<Repair>, ghost rounds: seq<seq<Call>>)
    requires wt.Valid() && cache.Valid() && wt.head == head0 && !v0.ok && p.repairMax >= 1
    requires Refuted(v0, head0, wt.runs, wt.faults > 0)
    modifies wt, cache
    ensures wt.Valid() && cache.Valid() && Journals(old(wt.runs), wt.runs, old(cache.ran), cache.ran)
    ensures Earned(v, head, wt.runs, cache.entry, cache.ran) && Refuted(v, head, wt.runs, wt.faults > 0)
    ensures attempts == |repairs| == |rounds| <= p.repairMax
    ensures v.cached ==> v0.cached || cache.enabled
    ensures !v.ok ==> attempts == p.repairMax || wt.faults > 0 || (repairs != [] && Stops(repairs[|repairs| - 1]))
    ensures RepairsChain(head0, repairs) && head == HeadAfter(head0, repairs) && GoesOn(repairs, v.ok)
    ensures total == AllInvocations(rounds)
    ensures |wt.runs| - |old(wt.runs)| <= total <= Budget(attempts, Max0(p.verifyRetries) + 1)
  {
    hide Worktree.Valid, PassCache.Valid, Budget, RepairsChain, Stops, Journals, AllInvocations, RetryLog, Invocations, Commands, Green,
         Earned, Refuted;
    NoRepairs(head0);
    NoRounds();
    NothingRan(wt.runs, cache.ran);
    NothingEarned(v0, head0, wt.runs, cache.entry, cache.ran);
    var per := Max0(p.verifyRetries) + 1;
    BudgetGrows(0, 0, per);
    v, head, repairs, rounds, attempts, total := v0, head0, [], [], 0, 0;
    var more := true;
    while attempts < p.repairMax && more
      invariant wt.Valid() && cache.Valid() && wt.faults >= old(wt.faults)
      invariant Journals(old(wt.runs), wt.runs, old(cache.ran), cache.ran)
      invariant attempts == |repairs| == |rounds| <= p.repairMax
      invariant RepairsChain(head0, repairs) && head == HeadAfter(head0, repairs)
      invariant Earned(v, head, wt.runs, cache.entry, cache.ran) && Refuted(v, head, wt.runs, wt.faults > 0)
      invariant more ==> wt.head == head && !v.ok
      invariant v.cached ==> v0.cached || cache.enabled
      invariant GoesOn(repairs, v.ok) && (more ==> forall k :: 0 <= k < |repairs| ==> !Stops(repairs[k]))
      invariant !more && !v.ok ==> wt.faults > 0 || (repairs != [] && Stops(repairs[|repairs| - 1]))
      invariant |wt.runs| - |old(wt.runs)| <= total <= Budget(attempts, per) && total == AllInvocations(rounds)
      decreases p.repairMax - attempts
    {
      attempts := attempts + 1;
      BudgetGrows(attempts - 1, attempts, per);
      ghost var from, runs, ran := head, wt.runs, cache.ran;
      var outcome, invoked;
      ghost var calls;
      outcome, head, v, invoked, more, calls := RepairRound(wt, p, head, v, cache);
      OneMoreRound(rounds, calls);
      rounds := rounds + [calls];
      JournalsOn(old(wt.runs), runs, wt.runs, old(cache.ran), ran, cache.ran);
      ChainGrows(head0, repairs, Repair(from, outcome));
      GoesOnNext(repairs, Repair(from, outcome), v.ok);
      repairs := repairs + [Repair(from, outcome)];
      total := total + invoked;
    }
  }

  lemma NothingEarned(v: Verdict, head: Commit, runs: seq<VerifyRun>, entry: Passes, ran: seq<VerifyRun>)
    requires !v.ok
    ensures Earned(v, head, runs, entry, ran)
  {
  }

  lemma {:induction false} FirstRound(calls: seq<Call>, rounds: seq<seq<Call>>)
    ensures AllInvocations([calls] + rounds) == Invocations(calls) + AllInvocations(rounds)
  {
    if rounds == [] {
      assert [calls] + rounds == [calls] && [calls][..0] == [];
    } else {
      var n := |rounds| - 1;
      assert ([calls] + rounds)[..|[calls] + rounds| - 1] == [calls] + rounds[..n];
      FirstRound(calls, rounds[..n]);
    }
  }

  /** The invocations of the first verify and of every repair round's. */
  function AllInvocations(rounds: seq<seq<Call>>): nat {
    if rounds == [] then 0 else AllInvocations(rounds[..|rounds| - 1]) + Invocations(rounds[|rounds| - 1])
  }

  lemma NoRounds()
    ensures AllInvocations([]) == 0
  {
  }

  lemma OneRound(calls: seq<Call>)
    ensures AllInvocations([calls]) == Invocations(calls)
  {
    assert [calls][..0] == [];
  }

  lemma OneMoreRound(rounds: seq<seq<Call>>, calls: seq<Call>)
    ensures AllInvocations(rounds + [calls]) == AllInvocations(rounds) + Invocations(calls)
  {
    assert (rounds + [calls])[..|rounds|] == rounds;
  }

  lemma AllRan(none: seq<VerifyRun>, runs: seq<VerifyRun>, ran: seq<VerifyRun>, ran': seq<VerifyRun>)
    requires none == []
    ensures Journals(none, runs, ran, ran') <==> ran' == ran + runs
  {
    assert runs[|none|..] == runs;
  }

  lemma NoRepairs(head: Commit)
    ensures RepairsChain(head, []) && HeadAfter(head, []) == head
  {
  }

  /** The fixer, as far as the loop can tell. */
  method RunRepair(head: Commit) returns (outcome: RepairOutcome)
  {
    outcome := *;
  }
}
