/** Policy holdback: the groups with a triggering branch wait for a human, the
    others go on to integrate as if nothing had been held. */
module Holdback {
  import opened Git
  import opened Seqs
  import opened Partition
  import opened Fold
  import opened Integrate
  import opened Regroup
  import opened Coverage

  datatype HoldKind = PolicyModified | AckPath

  /** Why a write-set is held, and by which globs. */
  datatype Hold = Hold(kind: HoldKind, reason: string, matched: map<Path, string>)

  /** The policy's judgement of one branch's own paths. */
  type HoldReason = set<Path> -> Option<Hold>

  datatype HeldBranch = HeldBranch(branch: string, paths: set<Path>, reason: string)

  datatype ParkGroup = ParkGroup(branches: seq<string>, kind: HoldKind, matched: map<Path, string>)

  // ---- what is held ----

  ghost predicate Triggers(hold: HoldReason, g: seq<BranchChange>) {
    exists i :: 0 <= i < |g| && hold(g[i].writeSet).Some?
  }

  /** The classes that trigger, or those that do not, in order. */
  ghost function Sieve(hold: HoldReason, changes: seq<BranchChange>, classes: seq<set<nat>>, held: bool): seq<set<nat>> {
    if classes == [] then []
    else
      var n := |classes| - 1;
      Sieve(hold, changes, classes[..n], held) +
      if Triggers(hold, Select(changes, classes[n])) == held then [classes[n]] else []
  }

  ghost function HeldClasses(hold: HoldReason, changes: seq<BranchChange>, edges: seq<Edge>): seq<set<nat>> {
    Sieve(hold, changes, Classes(changes, edges), true)
  }

  ghost function ClearedClasses(hold: HoldReason, changes: seq<BranchChange>, edges: seq<Edge>): seq<set<nat>> {
    Sieve(hold, changes, Classes(changes, edges), false)
  }

  function Names(g: seq<BranchChange>): (names: seq<string>)
    ensures |names| == |g|
  {
    seq(|g|, k requires 0 <= k < |g| => g[k].branch)
  }

  lemma {:induction false} SieveMembers(hold: HoldReason, changes: seq<BranchChange>, classes: seq<set<nat>>, held: bool, c: set<nat>)
    ensures c in Sieve(hold, changes, classes, held) <==> c in classes && Triggers(hold, Select(changes, c)) == held
  {
    if classes != [] {
      SieveMembers(hold, changes, classes[..|classes| - 1], held, c);
      assert classes == classes[..|classes| - 1] + [classes[|classes| - 1]];
    }
  }

  /** Held and cleared branches together are the batch: nothing lost, nothing twice. */
  lemma HoldbackSplits(hold: HoldReason, changes: seq<BranchChange>, edges: seq<Edge>)
    ensures multiset(Regrouped(changes, HeldClasses(hold, changes, edges))) +
            multiset(Regrouped(changes, ClearedClasses(hold, changes, edges))) == multiset(changes)
  {
    hide Classes, Sieve;
    ClassesSplit(changes, edges);
    SplitPermutes(changes, Classes(changes, edges));
    SieveSplits(hold, changes, Classes(changes, edges));
  }

  lemma ConcatSnoc<T>(xss: seq<seq<T>>, xs: seq<T>)
    ensures Concat(xss + [xs]) == Concat(xss) + xs
  {
    assert (xss + [xs])[..|xss|] == xss;
  }

  lemma RegroupedSnoc(changes: seq<BranchChange>, classes: seq<set<nat>>, c: set<nat>)
    ensures Regrouped(changes, classes + [c]) == Regrouped(changes, classes) + Select(changes, c)
  {
    assert SelectAll(changes, classes + [c]) == SelectAll(changes, classes) + [Select(changes, c)];
    ConcatSnoc(SelectAll(changes, classes), Select(changes, c));
  }

  /** One more class goes to one side, whole. */
  lemma SieveSnoc(hold: HoldReason, changes: seq<BranchChange>, classes: seq<set<nat>>, held: bool)
    requires classes != []
    ensures var n := |classes| - 1;
            var before := Regrouped(changes, Sieve(hold, changes, classes[..n], held));
            Regrouped(changes, Sieve(hold, changes, classes, held)) ==
            before + if Triggers(hold, Select(changes, classes[n])) == held then Select(changes, classes[n]) else []
  {
    hide Select, Triggers, Regrouped;
    var n := |classes| - 1;
    var front := Sieve(hold, changes, classes[..n], held);
    RegroupedSnoc(changes, front, classes[n]);
    assert front + [] == front;
  }

  /** Every element of `all` is in one of the two lists, as often as in `all`. */
  ghost predicate Shared<T>(a: seq<T>, b: seq<T>, all: seq<T>) {
    multiset(a) + multiset(b) == multiset(all)
  }

  lemma ShareGrows<T>(a: seq<T>, b: seq<T>, all: seq<T>, more: seq<T>)
    requires Shared(a, b, all)
    ensures Shared(a + more, b + [], all + more)
    ensures Shared(a + [], b + more, all + more)
  {
    assert a + [] == a && b + [] == b;
  }

  lemma SharedAtFirst(hold: HoldReason, changes: seq<BranchChange>)
    ensures Shared(Regrouped(changes, Sieve(hold, changes, [], true)),
                   Regrouped(changes, Sieve(hold, changes, [], false)), Regrouped(changes, []))
  {
  }

  lemma {:induction false} SieveSplits(hold: HoldReason, changes: seq<BranchChange>, classes: seq<set<nat>>)
    ensures Shared(Regrouped(changes, Sieve(hold, changes, classes, true)),
                   Regrouped(changes, Sieve(hold, changes, classes, false)), Regrouped(changes, classes))
  {
    hide *;
    if classes == [] {
      SharedAtFirst(hold, changes);
    } else {
      var n := |classes| - 1;
      var front, g := classes[..n], Select(changes, classes[n]);
      SieveSplits(hold, changes, front);
      assert classes == front + [classes[n]];
      RegroupedSnoc(changes, front, classes[n]);
      SieveSnoc(hold, changes, classes, true);
      SieveSnoc(hold, changes, classes, false);
      ShareGrows(Regrouped(changes, Sieve(hold, changes, front, true)),
                 Regrouped(changes, Sieve(hold, changes, front, false)), Regrouped(changes, front), g);
    }
  }

  ghost predicate InClasses(i: nat, classes: seq<set<nat>>) {
    exists c :: c in classes && i in c
  }

  /** A branch is held iff some branch of its overlap component triggers. */
  lemma HeldIffComponentTriggers(hold: HoldReason, changes: seq<BranchChange>, edges: seq<Edge>, i: nat)
    requires i < |changes|
    ensures InClasses(i, HeldClasses(hold, changes, edges)) <==>
            exists j: nat :: j < |changes| && Connected(changes, edges, i, j) && hold(changes[j].writeSet).Some?
    ensures InClasses(i, ClearedClasses(hold, changes, edges)) <==> !InClasses(i, HeldClasses(hold, changes, edges))
  {
    hide Classes, Connected, Sieve;
    var c := ClassOf(changes, edges, i);
    ConnectedReflexive(changes, edges, i);
    OwnClass(changes, edges, i);
    SieveMembers(hold, changes, Classes(changes, edges), true, c);
    SieveMembers(hold, changes, Classes(changes, edges), false, c);
    ComponentTriggers(hold, changes, edges, i);
    forall held, d | d in Sieve(hold, changes, Classes(changes, edges), held) && i in d
      ensures d == c
    {
      SieveMembers(hold, changes, Classes(changes, edges), held, d);
      OnlyClass(changes, edges, i, d);
    }
  }

  lemma OwnClass(changes: seq<BranchChange>, edges: seq<Edge>, i: nat)
    requires i < |changes|
    ensures ClassOf(changes, edges, i) in Classes(changes, edges) && i in ClassOf(changes, edges, i)
  {
    ConnectedReflexive(changes, edges, i);
    var l := LeaderExists(changes, edges, i);
    ClassesEqual(changes, edges, l, i);
    ClassesBelowShape(changes, edges, |changes|, ClassOf(changes, edges, i));
  }

  lemma OnlyClass(changes: seq<BranchChange>, edges: seq<Edge>, i: nat, d: set<nat>)
    requires d in Classes(changes, edges) && i in d
    ensures i < |changes| && d == ClassOf(changes, edges, i)
  {
    ClassesBelowShape(changes, edges, |changes|, d);
    var l: nat :| l < |changes| && d == ClassOf(changes, edges, l);
    assert i in ClassOf(changes, edges, l);
    ClassesEqual(changes, edges, l, i);
  }

  lemma ComponentTriggers(hold: HoldReason, changes: seq<BranchChange>, edges: seq<Edge>, i: nat)
    ensures Triggers(hold, Select(changes, ClassOf(changes, edges, i))) <==>
            exists j: nat :: j < |changes| && Connected(changes, edges, i, j) && hold(changes[j].writeSet).Some?
  {
    hide Connected;
    var c := ClassOf(changes, edges, i);
    var g := Select(changes, c);
    if Triggers(hold, g) {
      var k :| 0 <= k < |g| && hold(g[k].writeSet).Some?;
      SelectMembers(changes, c, g[k]);
    }
    if j: nat :| j < |changes| && Connected(changes, edges, i, j) && hold(changes[j].writeSet).Some? {
      SelectMembers(changes, c, changes[j]);
      var k :| 0 <= k < |g| && g[k] == changes[j];
    }
  }

  /** No path is shared between a held and a cleared branch. */
  lemma HeldAndClearedShareNoPath(hold: HoldReason, changes: seq<BranchChange>, edges: seq<Edge>, i: nat, j: nat)
    requires i < |changes| && j < |changes|
    requires InClasses(i, HeldClasses(hold, changes, edges)) && InClasses(j, ClearedClasses(hold, changes, edges))
    ensures changes[i].writeSet !! changes[j].writeSet
  {
    hide Classes, Sieve;
    var c :| c in HeldClasses(hold, changes, edges) && i in c;
    var d :| d in ClearedClasses(hold, changes, edges) && j in d;
    SieveMembers(hold, changes, Classes(changes, edges), true, c);
    SieveMembers(hold, changes, Classes(changes, edges), false, d);
    if j in c {
      OnlyClass(changes, edges, j, c);
      OnlyClass(changes, edges, j, d);
    }
    var k :| 0 <= k < |Classes(changes, edges)| && Classes(changes, edges)[k] == c;
    ClassesPathDisjoint(changes, edges, k, i, j);
  }

  // ---- integrating what is cleared ----

  lemma {:induction false} SieveSeparate(base: Commit, tips: Tips, hold: HoldReason, changes: seq<BranchChange>, classes: seq<set<nat>>, held: bool)
    requires Resolves(tips, changes) && Separate(base, tips, changes, classes)
    ensures Separate(base, tips, changes, Sieve(hold, changes, classes, held))
  {
    hide Select, Triggers, Apart;
    if classes != [] {
      var n := |classes| - 1;
      SieveSeparate(base, tips, hold, changes, classes[..n], held);
      var front := Sieve(hold, changes, classes[..n], held);
      forall j | 0 <= j < |front|
        ensures front[j] !! classes[n]
      {
        SieveMembers(hold, changes, classes[..n], held, front[j]);
        var k :| 0 <= k < n && classes[k] == front[j];
      }
    }
  }

  /** Integrating the cleared branches alone, regrouped as they are, gives each
      the outcome it would have had in the full batch, and the full batch's tree
      wherever one of them landed a change. */
  lemma ClearedDoTheirPart(e: Engine, base: Commit, tips: Tips, changes: seq<BranchChange>, edges: seq<Edge>, hold: HoldReason)
    requires Compatible(base, tips, changes, edges)
    ensures DoesItsPart(e, base, tips, changes, ClearedClasses(hold, changes, edges))
  {
    hide Classes, Sieve, Separate, DoesItsPart;
    ClassesSeparate(base, tips, changes, edges);
    SieveSeparate(base, tips, hold, changes, Classes(changes, edges), false);
    RegroupedDoesItsPart(e, base, tips, changes, ClearedClasses(hold, changes, edges));
  }

  // ---- the operation ----

  /** A hold always comes with a reason. */
  ghost predicate Explains(hold: HoldReason) {
    forall w :: hold(w).Some? ==> hold(w).value.reason != ""
  }

  /** The judgement of one group: its first trigger's reason, its kind, and an
      entry for each member. */
  datatype Judged = Judged(reason: Option<string>, kind: Option<HoldKind>, entries: seq<HeldBranch>, matched: map<Path, string>)

  /** The reason of the first trigger. */
  ghost predicate ReasonOf(hold: HoldReason, g: seq<BranchChange>, reason: string) {
    exists i :: 0 <= i < |g| && hold(g[i].writeSet).Some? && hold(g[i].writeSet).value.reason == reason
      && forall k :: 0 <= k < i ==> hold(g[k].writeSet).None?
  }

  ghost predicate Matches(hold: HoldReason, g: seq<BranchChange>, i: nat, p: Path) {
    i < |g| && hold(g[i].writeSet).Some? && p in hold(g[i].writeSet).value.matched
  }

  /** The paths any of the first n matched, each with the glob the last of them names. */
  ghost predicate MatchedUpTo(hold: HoldReason, g: seq<BranchChange>, n: nat, m: map<Path, string>) {
    && (forall p :: p in m <==> exists i: nat :: i < n && Matches(hold, g, i, p))
    && forall i: nat, p :: i < n && Matches(hold, g, i, p) && (forall k: nat :: i < k < n ==> !Matches(hold, g, k, p)) ==>
         m[p] == hold(g[i].writeSet).value.matched[p]
  }

  ghost predicate MatchedBy(hold: HoldReason, g: seq<BranchChange>, m: map<Path, string>) {
    MatchedUpTo(hold, g, |g|, m)
  }

  lemma MatchedNext(hold: HoldReason, g: seq<BranchChange>, n: nat, m: map<Path, string>)
    requires n < |g| && MatchedUpTo(hold, g, n, m)
    ensures MatchedUpTo(hold, g, n + 1, if hold(g[n].writeSet).Some? then m + hold(g[n].writeSet).value.matched else m)
  {
    var m' := if hold(g[n].writeSet).Some? then m + hold(g[n].writeSet).value.matched else m;
    assert forall p :: p in m' <==> p in m || Matches(hold, g, n, p);
    forall i: nat, p | i < n + 1 && Matches(hold, g, i, p) && (forall k: nat :: i < k < n + 1 ==> !Matches(hold, g, k, p))
      ensures p in m' && m'[p] == hold(g[i].writeSet).value.matched[p]
    {
      if i < n {
        assert !Matches(hold, g, n, p) && p in m && m[p] == m'[p];
      }
    }
  }

  ghost predicate HasKind(hold: HoldReason, g: seq<BranchChange>, kind: HoldKind) {
    exists i :: 0 <= i < |g| && hold(g[i].writeSet).Some? && hold(g[i].writeSet).value.kind == kind
  }

  /** The entry of one member: its own reason, or else the group's. */
  ghost predicate EntryFor(hold: HoldReason, bc: BranchChange, entry: HeldBranch, fallback: string) {
    && entry.branch == bc.branch
    && entry.reason == (if hold(bc.writeSet).Some? then hold(bc.writeSet).value.reason else fallback)
    && entry.paths == (if hold(bc.writeSet).Some? then hold(bc.writeSet).value.matched.Keys else {})
  }

  method JudgeGroup(g: seq<BranchChange>, hold: HoldReason) returns (j: Judged)
    requires Explains(hold)
    ensures j.reason.Some? <==> Triggers(hold, g)
    ensures j.reason.Some? ==> ReasonOf(hold, g, j.reason.value)
    ensures j.reason.Some? <==> j.kind.Some?
    ensures j.kind.Some? ==> j.kind.value == if HasKind(hold, g, PolicyModified) then PolicyModified else AckPath
    ensures MatchedBy(hold, g, j.matched)
    ensures |j.entries| == |g|
    ensures forall i :: 0 <= i < |g| ==> EntryFor(hold, g[i], j.entries[i], if j.reason.Some? then j.reason.value else "")
  {
    hide Triggers, HasKind, ReasonOf, MatchedUpTo;
    var reason: Option<string>, kind: Option<HoldKind> := None, None;
    var entries: seq<HeldBranch>, matched: map<Path, string> := [], map[];
    JudgeNothing(hold, g);
    for i := 0 to |g|
      invariant reason.Some? <==> Triggers(hold, g[..i])
      invariant reason.Some? ==> ReasonOf(hold, g[..i], reason.value)
      invariant reason.Some? <==> kind.Some?
      invariant kind.Some? ==> kind.value == if HasKind(hold, g[..i], PolicyModified) then PolicyModified else AckPath
      invariant MatchedUpTo(hold, g, i, matched)
      invariant |entries| == i && forall k :: 0 <= k < i ==> EntryFor(hold, g[k], entries[k], "")
    {
      var h := hold(g[i].writeSet);
      JudgeNext(hold, g, i);
      MatchedNext(hold, g, i, matched);
      if h.Some? && reason.None? {
        reason := Some(h.value.reason);
      }
      if h.Some? && (h.value.kind == PolicyModified || kind.None?) {
        kind := Some(h.value.kind);
      }
      if h.Some? {
        matched := matched + h.value.matched;
      }
      entries := entries + [HeldBranch(g[i].branch, if h.Some? then h.value.matched.Keys else {}, if h.Some? then h.value.reason else "")];
    }
    assert g[..|g|] == g;
    if reason.Some? {
      entries := Explain(hold, g, entries, reason.value);
    }
    j := Judged(reason, kind, entries, matched);
  }

  /** A member held only by entanglement carries the group's reason. */
  method Explain(ghost hold: HoldReason, ghost g: seq<BranchChange>, entries0: seq<HeldBranch>, reason: string)
    returns (entries: seq<HeldBranch>)
    requires |entries0| == |g| && forall k :: 0 <= k < |g| ==> EntryFor(hold, g[k], entries0[k], "")
    requires Explains(hold)
    ensures |entries| == |g| && forall k :: 0 <= k < |g| ==> EntryFor(hold, g[k], entries[k], reason)
  {
    entries := entries0;
    for i := 0 to |entries|
      invariant |entries| == |g|
      invariant forall k :: 0 <= k < |g| ==> EntryFor(hold, g[k], entries[k], if k < i then reason else "")
    {
      if entries[i].reason == "" {
        entries := entries[i := entries[i].(reason := reason)];
      }
    }
  }

  lemma JudgeNothing(hold: HoldReason, g: seq<BranchChange>)
    ensures !Triggers(hold, g[..0]) && MatchedUpTo(hold, g, 0, map[])
  {
  }

  lemma JudgeNext(hold: HoldReason, g: seq<BranchChange>, i: nat)
    requires i < |g|
    ensures var h := hold(g[i].writeSet);
            && (Triggers(hold, g[..i + 1]) <==> Triggers(hold, g[..i]) || h.Some?)
            && (forall r :: ReasonOf(hold, g[..i], r) ==> ReasonOf(hold, g[..i + 1], r))
            && (h.Some? && !Triggers(hold, g[..i]) ==> ReasonOf(hold, g[..i + 1], h.value.reason))
            && (HasKind(hold, g[..i + 1], PolicyModified) <==>
                  HasKind(hold, g[..i], PolicyModified) || (h.Some? && h.value.kind == PolicyModified))
            && (HasKind(hold, g[..i], PolicyModified) ==> Triggers(hold, g[..i]))
  {
    var xs, ys := g[..i], g[..i + 1];
    assert ys[i] == g[i];
    assert forall k :: 0 <= k < i ==> ys[k] == xs[k];
    forall r | ReasonOf(hold, xs, r)
      ensures ReasonOf(hold, ys, r)
    {
      var k :| 0 <= k < |xs| && hold(xs[k].writeSet).Some? && hold(xs[k].writeSet).value.reason == r
               && forall m :: 0 <= m < k ==> hold(xs[m].writeSet).None?;
      assert ys[k] == xs[k];
    }
    if Triggers(hold, xs) {
      var k :| 0 <= k < |xs| && hold(xs[k].writeSet).Some?;
      assert hold(ys[k].writeSet).Some?;
    }
    if HasKind(hold, xs, PolicyModified) {
      var k :| 0 <= k < |xs| && hold(xs[k].writeSet).Some? && hold(xs[k].writeSet).value.kind == PolicyModified;
      assert ys[k] == xs[k];
    }
  }

  function HeldNames(held: seq<HeldBranch>): seq<string> {
    seq(|held|, k requires 0 <= k < |held| => held[k].branch)
  }

  function ParkedNames(groups: seq<ParkGroup>): seq<seq<string>> {
    seq(|groups|, k requires 0 <= k < |groups| => groups[k].branches)
  }

  ghost predicate HoldsApart(hold: HoldReason, changes: seq<BranchChange>, classes: seq<set<nat>>,
                          clear: seq<string>, held: seq<HeldBranch>, groups: seq<ParkGroup>) {
    && clear == Names(Regrouped(changes, Sieve(hold, changes, classes, false)))
    && HeldNames(held) == Names(Regrouped(changes, Sieve(hold, changes, classes, true)))
    && Concat(ParkedNames(groups)) == HeldNames(held)
    && |groups| == |Sieve(hold, changes, classes, true)|
  }

  /** One held group: its branches, policy edits before ack paths as its kind, the
      paths matched, and an entry for each branch with its own reason or else the
      first trigger's. */
  ghost predicate ParksGroup(hold: HoldReason, g: seq<BranchChange>, pg: ParkGroup, entries: seq<HeldBranch>) {
    && pg.branches == Names(g) && pg.kind == (if HasKind(hold, g, PolicyModified) then PolicyModified else AckPath)
    && MatchedBy(hold, g, pg.matched)
    && |entries| == |g| && exists reason :: ReasonOf(hold, g, reason) && forall i :: 0 <= i < |g| ==> EntryFor(hold, g[i], entries[i], reason)
  }

  /** The held entries and the park groups, group by group. */
  ghost predicate ParksAll(hold: HoldReason, changes: seq<BranchChange>, classes: seq<set<nat>>,
                           held: seq<HeldBranch>, groups: seq<ParkGroup>, lists: seq<seq<HeldBranch>>) {
    var heldClasses := Sieve(hold, changes, classes, true);
    && held == Concat(lists) && |lists| == |groups| == |heldClasses|
    && forall k :: 0 <= k < |groups| ==> ParksGroup(hold, Select(changes, heldClasses[k]), groups[k], lists[k])
  }

  lemma ParksNext(hold: HoldReason, changes: seq<BranchChange>, cs: seq<set<nat>>, k: nat,
                  held: seq<HeldBranch>, groups: seq<ParkGroup>, lists: seq<seq<HeldBranch>>, pg: ParkGroup, entries: seq<HeldBranch>)
    requires k < |cs| && ParksAll(hold, changes, cs[..k], held, groups, lists)
    requires Triggers(hold, Select(changes, cs[k])) ==> ParksGroup(hold, Select(changes, cs[k]), pg, entries)
    ensures if Triggers(hold, Select(changes, cs[k])) then ParksAll(hold, changes, cs[..k + 1], held + entries, groups + [pg], lists + [entries])
            else ParksAll(hold, changes, cs[..k + 1], held, groups, lists)
  {
    hide Triggers, Select, ParksGroup;
    assert cs[..k + 1][..k] == cs[..k];
    SieveSnoc(hold, changes, cs[..k + 1], true);
    ConcatSnoc(lists, entries);
  }

  /** policyHoldback. Without a policy everything is cleared, in its own order. */
  method PolicyHoldback(present: bool, changes: seq<BranchChange>, edges: seq<Edge>, hold: HoldReason)
    returns (clear: seq<string>, held: seq<HeldBranch>, groups: seq<ParkGroup>, ghost lists: seq<seq<HeldBranch>>)
    requires Explains(hold)
    ensures !present || changes == [] ==> clear == Names(changes) && held == [] && groups == []
    ensures present && changes != [] ==> HoldsApart(hold, changes, Classes(changes, edges), clear, held, groups)
    ensures present && changes != [] ==> ParksAll(hold, changes, Classes(changes, edges), held, groups, lists)
  {
    hide Classes, Select, Triggers, Regrouped, ParksGroup, HasKind, ReasonOf, MatchedBy;
    lists := [];
    if !present || |changes| == 0 {
      return Names(changes), [], [], [];
    }
    var parts := PartitionSemantic(changes, edges);
    ghost var cs := Classes(changes, edges);
    clear, held, groups := [], [], [];
    NothingSplit(hold, changes, cs);
    for k := 0 to |parts|
      invariant HoldsApart(hold, changes, cs[..k], clear, held, groups)
      invariant ParksAll(hold, changes, cs[..k], held, groups, lists)
    {
      var g := parts[k];
      assert g == Select(changes, cs[k]);
      var j := JudgeGroup(g, hold);
      SplitNext(hold, changes, cs, k, clear, held, groups, j);
      ghost var pg := if j.kind.Some? then ParkGroup(Names(g), j.kind.value, j.matched) else ParkGroup([], AckPath, map[]);
      if Triggers(hold, g) {
        assert ParksGroup(hold, g, pg, j.entries) by {
          GroupParked(hold, g, j);
        }
      }
      ParksNext(hold, changes, cs, k, held, groups, lists, pg, j.entries);
      if j.reason.None? {
        clear := clear + Names(g);
      } else {
        held := held + j.entries;
        lists := lists + [j.entries];
        groups := groups + [ParkGroup(Names(g), j.kind.value, j.matched)];
      }
    }
    assert cs[..|cs|] == cs;
  }

  lemma GroupParked(hold: HoldReason, g: seq<BranchChange>, j: Judged)
    requires j.reason.Some? && j.kind.Some? && ReasonOf(hold, g, j.reason.value) && MatchedBy(hold, g, j.matched)
    requires j.kind.value == if HasKind(hold, g, PolicyModified) then PolicyModified else AckPath
    requires |j.entries| == |g| && forall i :: 0 <= i < |g| ==> EntryFor(hold, g[i], j.entries[i], j.reason.value)
    ensures ParksGroup(hold, g, ParkGroup(Names(g), j.kind.value, j.matched), j.entries)
  {
    hide ReasonOf, MatchedBy, HasKind, EntryFor;
  }

  lemma NothingSplit(hold: HoldReason, changes: seq<BranchChange>, cs: seq<set<nat>>)
    ensures HoldsApart(hold, changes, cs[..0], [], [], []) && ParksAll(hold, changes, cs[..0], [], [], [])
  {
  }

  lemma SplitNext(hold: HoldReason, changes: seq<BranchChange>, cs: seq<set<nat>>, k: nat,
                  clear: seq<string>, held: seq<HeldBranch>, groups: seq<ParkGroup>, j: Judged)
    requires k < |cs| && HoldsApart(hold, changes, cs[..k], clear, held, groups)
    requires j.reason.Some? <==> j.kind.Some?
    requires j.reason.Some? <==> Triggers(hold, Select(changes, cs[k]))
    requires HeldNames(j.entries) == Names(Select(changes, cs[k]))
    ensures var g := Select(changes, cs[k]);
            if j.reason.None? then HoldsApart(hold, changes, cs[..k + 1], clear + Names(g), held, groups)
            else HoldsApart(hold, changes, cs[..k + 1], clear, held + j.entries, groups + [ParkGroup(Names(g), j.kind.value, j.matched)])
  {
    hide Select, Triggers, Regrouped, Concat;
    var g := Select(changes, cs[k]);
    assert cs[..k + 1][..k] == cs[..k];
    SieveSnoc(hold, changes, cs[..k + 1], true);
    SieveSnoc(hold, changes, cs[..k + 1], false);
    NamesAppend(Regrouped(changes, Sieve(hold, changes, cs[..k], true)), g);
    NamesAppend(Regrouped(changes, Sieve(hold, changes, cs[..k], false)), g);
    if j.reason.Some? {
      var next := ParkGroup(Names(g), j.kind.value, j.matched);
      assert ParkedNames(groups + [next]) == ParkedNames(groups) + [Names(g)];
      ConcatSnoc(ParkedNames(groups), Names(g));
      assert HeldNames(held + j.entries) == HeldNames(held) + HeldNames(j.entries);
    } else {
      assert Names(Regrouped(changes, Sieve(hold, changes, cs[..k], true)) + []) == HeldNames(held);
    }
  }

  lemma NamesAppend(xs: seq<BranchChange>, ys: seq<BranchChange>)
    ensures Names(xs + ys) == Names(xs) + Names(ys)
  {
  }

  // ---- what a hold does not see ----

  /** A branch that contains base is judged as its diff would be, by every policy
      and even by every single matcher of paths, exactly when git paired no rename. */
  lemma HoldSeesAllIff(base: Commit, tip: Commit, bc: BranchChange, renames: map<Path, Path>)
    requires IsAncestor(base, tip) && ThreeDot(base, tip, bc, renames)
    ensures (forall hold: HoldReason :: hold(bc.writeSet) == hold(DiffPaths(base.tree, tip.tree))) <==> renames == map[]
    ensures (forall on: Path -> bool :: Touches(on, bc.writeSet) <==> Touches(on, DiffPaths(base.tree, tip.tree))) <==> renames == map[]
  {
    hide ThreeDot, DiffPaths, IsAncestor;
    ContainedRecord(base, tip, bc, renames);
    var diff := DiffPaths(base.tree, tip.tree);
    RecordShowsAllIff(base.tree, tip.tree, renames);
    assert bc.writeSet == NamesChanged(base.tree, tip.tree, renames);
    if renames != map[] {
      var hold: HoldReason := w => if w == diff then Some(Hold(AckPath, "held", map[])) else None;
      assert hold(bc.writeSet) != hold(diff);
    }
  }

  /** A branch that renames the held path "f" away is cleared: its record has only
      the new name. */
  lemma RenamedHeldPathIsCleared(hold: HoldReason)
    requires forall w :: hold(w).Some? <==> "f" in w
    ensures IsAncestor(BASE, MOVED) && ThreeDot(BASE, MOVED, MOVE_CHANGES[0], map["f" := "g"])
    ensures hold(DiffPaths(BASE.tree, MOVED.tree)).Some? && !Triggers(hold, [MOVE_CHANGES[0]])
  {
    hide ThreeDot, IsAncestor, DiffPaths;
    MoveIsRecorded();
    assert RecordedAt(BASE, MOVE_TIPS, MOVE_CHANGES, MOVE_RENAMES, 0);
    assert MOVE_CHANGES[0] in MOVE_CHANGES && MOVE_TIPS["move"] == MOVED;
    MoveDiffs();
    assert "f" != "g";
  }
}
