/** Ref-level safety with no mutual exclusion at all. */
module ParkSafety {
  import opened Git
  import opened Park

  /** A record names a commit that passed its gate on the head it names. */
  ghost predicate RecordOk(r: Record, green: set<Landing>) {
    Landing(r.baseSHA, r.verified) in green
  }

  ghost predicate PhaseOk(ph: Phase, green: set<Landing>) {
    match ph
    case AckRecord(pk) => RecordOk(pk, green)
    case Ready(job) => JobOk(job, green)
    case Created(job) => JobOk(job, green)
    case Claimed(job) => JobOk(job, green)
    case StatusOk(job) => JobOk(job, green)
    case Rechecked(job, raw) => JobOk(job, green) && RecordOk(raw, green)
    case Compared(job, raw, next) => JobOk(job, green) && RecordOk(next, green)
    case Written(next) => RecordOk(next, green)
    case Refused(next) => RecordOk(next, green)
    case Reopening(seen) => RecordOk(seen, green)
    case ReopenCompared(seen) => RecordOk(seen, green)
    case _ => true
  }

  ghost predicate JobOk(job: Job, green: set<Landing>) {
    job.Reverify? && job.green.Some? ==> Landing(job.current, job.green.value) in green
  }

  ghost predicate Safe(s: State) {
    && RecordOk(s.record, s.green)
    && (forall id <- s.actors :: PhaseOk(s.actors[id], s.green))
    && (forall l <- s.green :: IsAncestor(l.from, l.to))
    && (forall l <- s.landings :: l in s.green && IsAncestor(l.to, s.base))
  }

  lemma PhaseOkGrows(ph: Phase, green: set<Landing>, green': set<Landing>)
    requires PhaseOk(ph, green) && green <= green'
    ensures PhaseOk(ph, green')
  {
  }

  /** What a step keeps about the record and its actor. */
  ghost predicate StepKeeps(s: State, s': State, id: nat) {
    && id in s'.actors
    && RecordOk(s'.record, s'.green) && PhaseOk(s'.actors[id], s'.green)
    && s.green <= s'.green
    && (forall l <- s'.green :: l in s.green || IsAncestor(l.from, l.to))
    && s'.actors == s.actors[id := s'.actors[id]]
  }

  lemma ReadKeeps(s: State, id: nat, c: Choice)
    requires Safe(s) && Enabled(s, Act(id, c), false) && Reading(s.actors[id])
    ensures StepKeeps(s, ReadStep(s, id, c), id)
  {
    hide IsAncestor;
    assert PhaseOk(s.actors[id], s.green);
  }

  lemma ClaimKeeps(s: State, id: nat, c: Choice, exclusive: bool)
    requires Safe(s) && id in s.actors && Claiming(s.actors[id])
    ensures StepKeeps(s, ClaimStep(s, id, c, exclusive), id)
  {
    hide IsAncestor, ValidLanding;
    assert PhaseOk(s.actors[id], s.green);
  }

  lemma CommitKeeps(s: State, id: nat, c: Choice)
    requires Safe(s) && id in s.actors
    ensures StepKeeps(s, CommitStep(s, id, c), id)
  {
    hide IsAncestor;
    assert PhaseOk(s.actors[id], s.green);
    assert s.actors == s.actors[id := s.actors[id]];
  }

  lemma RefuseKeeps(s: State, id: nat, c: Choice)
    requires Safe(s) && id in s.actors && Refusing(s.actors[id])
    ensures StepKeeps(s, RefuseStep(s, id, c), id)
  {
    hide IsAncestor;
    assert PhaseOk(s.actors[id], s.green);
  }

  lemma StepSafe(s: State, id: nat, c: Choice, exclusive: bool)
    requires Safe(s) && Enabled(s, Act(id, c), exclusive)
    ensures Safe(Step(s, id, c, exclusive))
  {
    hide IsAncestor, PhaseOk, ReadStep, ClaimStep, CommitStep, RefuseStep;
    var s' := Step(s, id, c, exclusive);
    if Reading(s.actors[id]) {
      ReadKeeps(s, id, c);
    } else if Claiming(s.actors[id]) {
      ClaimKeeps(s, id, c, exclusive);
    } else if Refusing(s.actors[id]) {
      RefuseKeeps(s, id, c);
    } else {
      CommitKeeps(s, id, c);
    }
    forall i <- s'.actors
      ensures PhaseOk(s'.actors[i], s'.green)
    {
      if i != id {
        PhaseOkGrows(s.actors[i], s.green, s'.green);
      }
    }
    LandingsSurvive(s, id, c, exclusive);
  }

  /** Only the swap moves the base or adds to what was landed. */
  lemma OnlySwapMoves(s: State, id: nat, c: Choice, exclusive: bool)
    requires id in s.actors
    ensures var s' := Step(s, id, c, exclusive);
            if s.actors[id].Written? && c.ok && s.base == s.actors[id].next.baseSHA then
              && s'.base == s.actors[id].next.verified && s'.green == s.green
              && s'.landings == s.landings + [Landing(s.base, s'.base)]
            else
              s'.base == s.base && s'.landings == s.landings && s.green <= s'.green
  {
    hide Proposed;
  }

  /** The base moves only by the swap, from the head the record names to the
      commit that passed there, so everything landed stays below it. */
  lemma LandingsSurvive(s: State, id: nat, c: Choice, exclusive: bool)
    requires Safe(s) && id in s.actors
    ensures var s' := Step(s, id, c, exclusive);
            && (forall l <- s'.landings :: l in s'.green && IsAncestor(l.to, s'.base))
            && IsAncestor(s.base, s'.base)
            && (s'.base != s.base ==> Landing(s.base, s'.base) in s.green && s'.landings == s.landings + [Landing(s.base, s'.base)])
  {
    hide Step;
    var s' := Step(s, id, c, exclusive);
    OnlySwapMoves(s, id, c, exclusive);
    if s.actors[id].Written? && c.ok && s.base == s.actors[id].next.baseSHA {
      assert PhaseOk(s.actors[id], s.green);
      forall l <- s'.landings
        ensures l in s'.green && IsAncestor(l.to, s'.base)
      {
        if l in s.landings {
          AncestorTransitive(l.to, s.base, s'.base);
        } else {
          assert l == Landing(s.base, s'.base);
        }
      }
    }
  }

  lemma NextSafe(s: State, ev: Event, exclusive: bool)
    requires Safe(s) && Enabled(s, ev, exclusive)
    ensures Safe(Next(s, ev, exclusive))
  {
    hide Step;
    match ev
    case Act(id, c) => StepSafe(s, id, c, exclusive);
    case Foreign(to) =>
      forall l <- s.landings
        ensures IsAncestor(l.to, to)
      {
        AncestorTransitive(l.to, s.base, to);
      }
    case _ =>
  }

  lemma {:induction false} RunSafe(run: seq<State>, exclusive: bool)
    requires IsRun(run, exclusive)
    ensures Safe(run[|run| - 1])
  {
    var n := |run| - 1;
    if n > 0 {
      assert IsRun(run[..n], exclusive);
      RunSafe(run[..n], exclusive);
      assert Follows(run[n - 1], run[n - 1 + 1], exclusive);
      var ev :| Enabled(run[n - 1], ev, exclusive) && run[n] == Next(run[n - 1], ev, exclusive);
      NextSafe(run[n - 1], ev, exclusive);
    }
  }

  /** In every interleaving, with any claim lost at any time and a crash at any
      step: an actor moves the base only from exactly the head its commit was
      verified on, to a commit that descends from that head and passed there. */
  lemma AckMovesOnlyVerified(run: seq<State>, exclusive: bool, id: nat, c: Choice)
    requires IsRun(run, exclusive) && Enabled(run[|run| - 1], Act(id, c), exclusive)
    ensures var s, s' := run[|run| - 1], Next(run[|run| - 1], Act(id, c), exclusive);
            s'.base != s.base ==>
              && Landing(s.base, s'.base) in s.green
              && IsAncestor(s.base, s'.base)
              && s'.landings == s.landings + [Landing(s.base, s'.base)]
  {
    hide Step, Safe;
    RunSafe(run, exclusive);
    LandingsSurvive(run[|run| - 1], id, c, exclusive);
  }

  lemma {:induction false} BaseOnlyGrows(run: seq<State>, exclusive: bool, j: nat)
    requires IsRun(run, exclusive) && j < |run|
    ensures IsAncestor(run[j].base, run[|run| - 1].base)
  {
    hide Step, Safe;
    var n := |run| - 1;
    if j < n {
      assert IsRun(run[..n], exclusive);
      BaseOnlyGrows(run[..n], exclusive, j);
      RunSafe(run[..n], exclusive);
      assert Follows(run[n - 1], run[n - 1 + 1], exclusive);
      var ev :| Enabled(run[n - 1], ev, exclusive) && run[n] == Next(run[n - 1], ev, exclusive);
      if ev.Act? {
        LandingsSurvive(run[n - 1], ev.id, ev.choice, exclusive);
      }
      AncestorTransitive(run[j].base, run[n - 1].base, run[n].base);
    }
  }

  /** No landed commit, and no head the base ever had, leaves its history. */
  lemma NothingLandedIsLost(run: seq<State>, exclusive: bool, j: nat)
    requires IsRun(run, exclusive) && j < |run|
    ensures IsAncestor(run[j].base, run[|run| - 1].base)
    ensures forall l <- run[j].landings :: IsAncestor(l.from, l.to) && IsAncestor(l.to, run[|run| - 1].base)
  {
    BaseOnlyGrows(run, exclusive, j);
    assert IsRun(run[..j + 1], exclusive);
    RunSafe(run[..j + 1], exclusive);
    forall l <- run[j].landings
      ensures IsAncestor(l.from, l.to) && IsAncestor(l.to, run[|run| - 1].base)
    {
      AncestorTransitive(l.to, run[j].base, run[|run| - 1].base);
    }
  }
}
