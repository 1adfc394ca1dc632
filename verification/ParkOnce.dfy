/** A park is resolved at most once, while a claim is removed only by its live
    owner or after that owner crashed. */
module ParkOnce {
  import opened Git
  import opened Park
  import ParkSafety

  // ---- the invariant ----

  /** Nothing has been decided yet. */
  predicate Undecided(s: State) {
    s.landings == [] && s.rejections == 0
  }

  /** What was decided is what the record says, and only once. */
  ghost predicate Settled(s: State) {
    && |s.landings| + s.rejections <= 1
    && (s.landings != [] ==> s.record.resolvedAt.Some? && s.record.landed == Some(s.landings[0].to))
    && (s.rejections > 0 ==> s.record.resolvedAt.Some? && s.record.landed.None?)
    && (s.record.resolvedAt.None? ==> s.record.landed.None?)
    && (s.status == Done ==> s.landings != [])
    && (s.status == Rejected ==> s.rejections > 0)
  }

  /** Where the claim's owner is, against what is on disk. */
  ghost predicate OwnerOk(s: State, ph: Phase) {
    match ph
    case Rechecked(job, raw) => s.record == raw && raw.resolvedAt.None?
    case Compared(job, raw, next) =>
      && s.record == raw && raw.resolvedAt.None?
      && (if job.Reverify? && job.green.None? then next.resolvedAt.None? && next.landed.None?
          else if job.Reject? then next.resolvedAt.Some? && next.landed.None?
          else next.resolvedAt.Some? && next.landed == Some(next.verified) && TreeOk(next))
    case Written(next) => s.record == next && next.resolvedAt.Some? && next.landed == Some(next.verified) && TreeOk(next) && Undecided(s)
    case Refused(next) => s.record == next && next.resolvedAt.Some? && TreeOk(next) && Undecided(s)
    case Reopening(seen) => s.record == seen && seen.resolvedAt.Some? && TreeOk(seen) && Undecided(s)
    case ReopenCompared(seen) => s.record == seen && seen.resolvedAt.Some? && TreeOk(seen) && Undecided(s)
    case Marking(st) =>
      && (st == Done ==> s.landings != [])
      && (st == Rejected ==> s.rejections > 0)
      && (st == Awaiting ==> s.record.resolvedAt.None?)
      && st != Running
    case _ => true
  }

  ghost predicate Once(s: State) {
    && Settled(s)
    && (forall id <- s.actors :: Critical(s.actors[id]) ==> s.claim == Some(id) && OwnerOk(s, s.actors[id]))
    && (s.claim.Some? ==> s.claim.value in s.actors && (Critical(s.actors[s.claim.value]) || s.actors[s.claim.value].Crashed?))
  }

  lemma UnresolvedUndecided(s: State)
    requires Settled(s) && s.record.resolvedAt.None?
    ensures Undecided(s)
  {
  }

  // ---- preservation ----

  /** What a step must show about itself: the global part, its own phase, and
      that only the claim's owner touches record, status or verdicts. */
  ghost predicate StepOnce(s: State, s': State, id: nat) {
    && id in s'.actors && s'.actors == s.actors[id := s'.actors[id]]
    && Settled(s')
    && (Critical(s'.actors[id]) ==> s'.claim == Some(id) && OwnerOk(s', s'.actors[id]))
    && (s'.claim == s.claim || (s.claim.None? && s'.claim == Some(id)) || (s.claim == Some(id) && s'.claim.None?))
    && (s'.claim == Some(id) ==> Critical(s'.actors[id]) || s'.actors[id].Crashed?)
    && (s.claim != Some(id) ==>
          s'.record == s.record && s'.status == s.status && s'.landings == s.landings && s'.rejections == s.rejections)
  }

  /** A read moves only its actor, and not into the critical section. */
  lemma ReadOnlyReads(s: State, id: nat, c: Choice) returns (ph: Phase, green: set<Landing>)
    requires id in s.actors && Reading(s.actors[id])
    ensures ReadStep(s, id, c) == s.(actors := s.actors[id := ph], green := green) && !Critical(ph)
  {
    var s' := ReadStep(s, id, c);
    ph, green := s'.actors[id], s'.green;
  }

  lemma ReadOnce(s: State, id: nat, c: Choice)
    requires Once(s) && id in s.actors && Reading(s.actors[id])
    ensures StepOnce(s, ReadStep(s, id, c), id)
  {
    hide OwnerOk, ReadStep;
    assert s.claim != Some(id);
    var ph, green := ReadOnlyReads(s, id, c);
  }

  lemma ClaimOnce(s: State, id: nat, c: Choice)
    requires Once(s) && id in s.actors && Claiming(s.actors[id])
    ensures StepOnce(s, ClaimStep(s, id, c, true), id)
  {
    hide IsAncestor;
  }

  lemma WriteOnce(s: State, id: nat, c: Choice)
    requires Once(s) && id in s.actors && s.actors[id].Compared?
    ensures StepOnce(s, CommitStep(s, id, c), id)
  {
    UnresolvedUndecided(s);
  }

  lemma SwapOnce(s: State, id: nat, c: Choice)
    requires Once(s) && id in s.actors && s.actors[id].Written?
    ensures StepOnce(s, CommitStep(s, id, c), id)
  {
  }

  lemma MarkOnce(s: State, id: nat, c: Choice)
    requires Once(s) && id in s.actors && (s.actors[id].Marking? || s.actors[id].Releasing?)
    ensures StepOnce(s, CommitStep(s, id, c), id)
  {
  }

  lemma CommitOnce(s: State, id: nat, c: Choice)
    requires Once(s) && id in s.actors && !Reading(s.actors[id]) && !Claiming(s.actors[id]) && !Refusing(s.actors[id])
    ensures StepOnce(s, CommitStep(s, id, c), id)
  {
    match s.actors[id]
    case Compared(_, _, _) => WriteOnce(s, id, c);
    case Written(_) => SwapOnce(s, id, c);
    case Gone =>
      assert s.actors == s.actors[id := s.actors[id]];
    case Crashed =>
      assert s.actors == s.actors[id := s.actors[id]];
    case _ => MarkOnce(s, id, c);
  }

  lemma RefuseOnce(s: State, id: nat, c: Choice)
    requires Once(s) && id in s.actors && Refusing(s.actors[id])
    ensures StepOnce(s, RefuseStep(s, id, c), id)
  {
  }

  lemma StepKeepsOnce(s: State, id: nat, c: Choice)
    requires Once(s) && id in s.actors
    ensures Once(Step(s, id, c, true)) && StepOnce(s, Step(s, id, c, true), id)
  {
    hide ReadStep, ClaimStep, CommitStep, RefuseStep, Settled;
    var s' := Step(s, id, c, true);
    if Reading(s.actors[id]) {
      ReadOnce(s, id, c);
    } else if Claiming(s.actors[id]) {
      ClaimOnce(s, id, c);
    } else if Refusing(s.actors[id]) {
      RefuseOnce(s, id, c);
    } else {
      CommitOnce(s, id, c);
    }
    OthersOnce(s, s', id);
  }

  /** A step of one actor leaves the others' place in the protocol intact. */
  lemma OthersOnce(s: State, s': State, id: nat)
    requires Once(s) && id in s.actors && StepOnce(s, s', id)
    ensures Once(s')
  {
    forall i <- s'.actors | Critical(s'.actors[i])
      ensures s'.claim == Some(i) && OwnerOk(s', s'.actors[i])
    {
      if i != id {
        assert s.actors[i] == s'.actors[i] && s.claim == Some(i);
      }
    }
  }

  lemma NextKeepsOnce(s: State, ev: Event)
    requires Once(s) && Enabled(s, ev, true)
    ensures Once(Next(s, ev, true))
  {
    hide Step;
    match ev
    case Act(id, c) => StepKeepsOnce(s, id, c);
    case _ =>
  }

  lemma {:induction false} RunOnce(run: seq<State>)
    requires IsRun(run, true)
    ensures Once(run[|run| - 1])
  {
    hide Once, Next;
    var n := |run| - 1;
    if n > 0 {
      assert IsRun(run[..n], true);
      RunOnce(run[..n]);
      assert Follows(run[n - 1], run[n - 1 + 1], true);
      var ev :| Enabled(run[n - 1], ev, true) && run[n] == Next(run[n - 1], ev, true);
      NextKeepsOnce(run[n - 1], ev);
    } else {
      InitOnce(run[0]);
    }
  }

  lemma InitOnce(s: State)
    requires Init(s)
    ensures Once(s)
  {
  }

  // ---- what it means ----

  /** A decision nobody is still taking back: resolved, and no live actor is
      between writing a landing and learning whether the swap went through. */
  ghost predicate Terminal(s: State) {
    && s.record.resolvedAt.Some?
    && forall id <- s.actors :: !s.actors[id].Written? && !Refusing(s.actors[id])
  }

  ghost predicate SameDecision(s: State, s': State) {
    s'.record == s.record && s'.landings == s.landings && s'.rejections == s.rejections
  }

  lemma TerminalStepStays(s: State, id: nat, c: Choice)
    requires Once(s) && Terminal(s) && id in s.actors
    ensures Terminal(Step(s, id, c, true)) && SameDecision(s, Step(s, id, c, true))
  {
    hide Proposed, Settled;
    var s' := Step(s, id, c, true);
    assert !s.actors[id].Compared? && !s.actors[id].Rechecked?;
    forall i <- s'.actors
      ensures !s'.actors[i].Written? && !Refusing(s'.actors[i])
    {
      assert i != id ==> s'.actors[i] == s.actors[i];
    }
  }

  lemma TerminalNextStays(s: State, ev: Event)
    requires Once(s) && Terminal(s) && Enabled(s, ev, true)
    ensures Terminal(Next(s, ev, true)) && SameDecision(s, Next(s, ev, true))
  {
    hide Step, Once;
    match ev
    case Act(id, c) => TerminalStepStays(s, id, c);
    case _ =>
  }

  /** A terminal decision is final: the record, the landing and the rejection
      never change again. */
  lemma {:induction false} TerminalForever(run: seq<State>, j: nat)
    requires IsRun(run, true) && j < |run| && Terminal(run[j])
    ensures Terminal(run[|run| - 1]) && SameDecision(run[j], run[|run| - 1])
  {
    hide Once, Next, Terminal;
    var n := |run| - 1;
    if j < n {
      assert IsRun(run[..n], true);
      TerminalForever(run[..n], j);
      RunOnce(run[..n]);
      assert Follows(run[n - 1], run[n - 1 + 1], true);
      var ev :| Enabled(run[n - 1], ev, true) && run[n] == Next(run[n - 1], ev, true);
      TerminalNextStays(run[n - 1], ev);
    }
  }

  /** In every run a park lands at most once, is rejected at most once, and never
      both. */
  lemma ResolvedAtMostOnce(run: seq<State>)
    requires IsRun(run, true)
    ensures |run[|run| - 1].landings| + run[|run| - 1].rejections <= 1
  {
    RunOnce(run);
  }

  lemma DecidedIsTerminal(s: State)
    requires Once(s) && !Undecided(s)
    ensures Terminal(s)
  {
    forall id <- s.actors
      ensures !s.actors[id].Written? && !Refusing(s.actors[id])
    {
      assert Critical(s.actors[id]) ==> OwnerOk(s, s.actors[id]);
    }
  }

  /** Once rejected, nothing of this park ever lands. */
  lemma RejectedNeverLands(run: seq<State>, j: nat)
    requires IsRun(run, true) && j < |run| && (run[j].rejections > 0 || run[j].status == Rejected)
    ensures run[|run| - 1].landings == [] && run[|run| - 1].rejections == 1
    ensures run[|run| - 1].record.resolvedAt.Some? && run[|run| - 1].record.landed.None?
  {
    hide Next;
    assert IsRun(run[..j + 1], true);
    RunOnce(run[..j + 1]);
    DecidedIsTerminal(run[j]);
    TerminalForever(run, j);
    RunOnce(run);
  }

  /** Once landed, it stays recorded as landed and is never rejected or landed
      again. */
  lemma LandedStaysLanded(run: seq<State>, j: nat)
    requires IsRun(run, true) && j < |run| && run[j].landings != []
    ensures run[|run| - 1].landings == run[j].landings && |run[j].landings| == 1
    ensures run[|run| - 1].rejections == 0
    ensures run[|run| - 1].record.landed == Some(run[j].landings[0].to)
  {
    hide Next;
    assert IsRun(run[..j + 1], true);
    RunOnce(run[..j + 1]);
    DecidedIsTerminal(run[j]);
    TerminalForever(run, j);
    RunOnce(run);
  }

  /** A crash between the record write and the swap leaves a record claiming a
      landing that did not happen; it is never landed again, nor reported. */
  lemma CrashBeforeSwapNeverRelands(run: seq<State>, j: nat, id: nat)
    requires IsRun(run, true) && j + 1 < |run|
    requires id in run[j].actors && run[j].actors[id].Written? && run[j + 1] == Next(run[j], Crash(id), true)
    ensures run[|run| - 1].landings == [] && run[|run| - 1].rejections == 0
    ensures run[|run| - 1].record.resolvedAt.Some?
    ensures AckedLandedSHA(run[|run| - 1]) == None
  {
    hide Next;
    var s, s' := run[j], run[j + 1];
    assert IsRun(run[..j + 1], true);
    RunOnce(run[..j + 1]);
    assert s' == s.(actors := s.actors[id := Crashed]) by {
      CrashIs(s, id);
    }
    forall i <- s'.actors
      ensures !s'.actors[i].Written? && !Refusing(s'.actors[i])
    {
      assert i != id ==> s'.actors[i] == s.actors[i];
      assert Critical(s.actors[i]) ==> s.claim == Some(i);
    }
    assert Terminal(s');
    TerminalForever(run, j + 1);
    RunOnce(run);
  }

  lemma CrashIs(s: State, id: nat)
    requires id in s.actors
    ensures Next(s, Crash(id), true) == s.(actors := s.actors[id := Crashed])
  {
  }

  /** A commit reported as acked is one the base really moved to, once, and it is
      still in the base's history. */
  lemma AckedLandedSHAIsTrue(run: seq<State>, sha: Commit)
    requires IsRun(run, true) && AckedLandedSHA(run[|run| - 1]) == Some(sha)
    ensures |run[|run| - 1].landings| == 1 && run[|run| - 1].landings[0].to == sha
    ensures IsAncestor(sha, run[|run| - 1].base)
  {
    RunOnce(run);
    ParkSafety.RunSafe(run, true);
    var s := run[|run| - 1];
    assert s.landings[0] in s.landings;
    assert s.landings == [s.landings[0]];
  }

  // ---- an actor left alone ----

  ghost function Solo(s: State, id: nat, c: Choice, exclusive: bool, n: nat): (s': State)
    requires id in s.actors
    ensures id in s'.actors
  {
    if n == 0 then s else Step(Solo(s, id, c, exclusive, n - 1), id, c, exclusive)
  }

  lemma {:induction false} SoloAdd(s: State, id: nat, c: Choice, exclusive: bool, m: nat, n: nat)
    requires id in s.actors
    ensures id in Solo(s, id, c, exclusive, m).actors
    ensures Solo(s, id, c, exclusive, m + n) == Solo(Solo(s, id, c, exclusive, m), id, c, exclusive, n)
  {
    hide Step;
    if n > 0 {
      SoloAdd(s, id, c, exclusive, m, n - 1);
    }
  }

  lemma PutPut(s: State, id: nat, a: Phase, b: Phase)
    ensures Put(Put(s, id, a), id, b) == Put(s, id, b)
  {
    assert s.actors[id := a][id := b] == s.actors[id := b];
  }

  /** One more step of the actor. */
  lemma SoloNext(s: State, id: nat, c: Choice, exclusive: bool, n: nat, u: State, t: State)
    requires id in s.actors && Solo(s, id, c, exclusive, n) == u && Step(u, id, c, exclusive) == t
    ensures Solo(s, id, c, exclusive, n + 1) == t
  {
    hide Step;
  }

  lemma SoloNone(s: State, id: nat, c: Choice, exclusive: bool)
    requires id in s.actors
    ensures Solo(s, id, c, exclusive, 0) == s
  {
  }

  // One step of an actor at each place, with everything else in `t`.

  lemma AtReady(t: State, id: nat, c: Choice, exclusive: bool, job: Job)
    requires t.claim.None?
    ensures Step(Put(t, id, Ready(job)), id, c, exclusive) == Put(t.(claim := Some(id)), id, Created(job))
  {
    PutPut(t.(claim := Some(id)), id, Ready(job), Created(job));
  }

  lemma AtCreated(t: State, id: nat, c: Choice, exclusive: bool, job: Job)
    requires t.claim == Some(id)
    ensures Step(Put(t, id, Created(job)), id, c, exclusive) == Put(t, id, Claimed(job))
  {
    PutPut(t, id, Created(job), Claimed(job));
  }

  lemma AtClaimed(t: State, id: nat, c: Choice, exclusive: bool, job: Job)
    requires ReadsAwaiting(t.status)
    ensures Step(Put(t, id, Claimed(job)), id, c, exclusive) == Put(t, id, StatusOk(job))
  {
    PutPut(t, id, Claimed(job), StatusOk(job));
  }

  lemma AtStatusOk(t: State, id: nat, c: Choice, exclusive: bool, job: Job)
    requires t.record.resolvedAt.None?
    ensures Step(Put(t, id, StatusOk(job)), id, c, exclusive) == Put(t, id, Rechecked(job, t.record))
  {
    PutPut(t, id, StatusOk(job), Rechecked(job, t.record));
  }

  lemma AtRechecked(t: State, id: nat, c: Choice, exclusive: bool, job: Job, next: Record)
    requires Proposed(job, t.record, c) == Some(next)
    ensures Step(Put(t, id, Rechecked(job, t.record)), id, c, exclusive) == Put(t, id, Compared(job, t.record, next))
  {
    hide Proposed;
    PutPut(t, id, Rechecked(job, t.record), Compared(job, t.record, next));
  }

  lemma AtLandingCompared(t: State, id: nat, c: Choice, exclusive: bool, job: Job, raw: Record, next: Record)
    requires c.ok && !job.Reject? && (job.Reverify? ==> job.green.Some?)
    ensures Step(Put(t, id, Compared(job, raw, next)), id, c, exclusive) == Put(t.(record := next), id, Written(next))
  {
    PutPut(t.(record := next), id, Compared(job, raw, next), Written(next));
  }

  lemma AtRejectCompared(t: State, id: nat, c: Choice, exclusive: bool, timeout: bool, raw: Record, next: Record)
    requires c.ok
    ensures Step(Put(t, id, Compared(Reject(timeout), raw, next)), id, c, exclusive) ==
            Put(t.(record := next, rejections := t.rejections + 1), id, Marking(Rejected))
  {
    PutPut(t.(record := next, rejections := t.rejections + 1), id, Compared(Reject(timeout), raw, next), Marking(Rejected));
  }

  lemma AtWritten(t: State, id: nat, c: Choice, exclusive: bool, next: Record)
    requires c.ok && t.base == next.baseSHA
    ensures Step(Put(t, id, Written(next)), id, c, exclusive) ==
            Put(t.(base := next.verified, landings := t.landings + [Landing(t.base, next.verified)]), id, Marking(Done))
  {
    PutPut(t.(base := next.verified, landings := t.landings + [Landing(t.base, next.verified)]), id, Written(next), Marking(Done));
  }

  lemma AtMarking(t: State, id: nat, c: Choice, exclusive: bool, st: Status)
    requires c.ok
    ensures Step(Put(t, id, Marking(st)), id, c, exclusive) == Put(t.(status := st), id, Releasing)
  {
    PutPut(t.(status := st), id, Marking(st), Releasing);
  }

  lemma AtReleasing(t: State, id: nat, c: Choice, exclusive: bool)
    ensures Step(Put(t, id, Releasing), id, c, exclusive) == Put(t.(claim := None), id, Gone)
  {
    PutPut(t.(claim := None), id, Releasing, Gone);
  }

  lemma AtRefused(t: State, id: nat, c: Choice, exclusive: bool)
    ensures Step(Put(t, id, Refused(t.record)), id, c, exclusive) == Put(t, id, Reopening(t.record))
  {
    PutPut(t, id, Refused(t.record), Reopening(t.record));
  }

  lemma AtReopening(t: State, id: nat, c: Choice, exclusive: bool)
    ensures Step(Put(t, id, Reopening(t.record)), id, c, exclusive) == Put(t, id, ReopenCompared(t.record))
  {
    PutPut(t, id, Reopening(t.record), ReopenCompared(t.record));
  }

  lemma AtReopenCompared(t: State, id: nat, c: Choice, exclusive: bool)
    requires c.ok
    ensures Step(Put(t, id, ReopenCompared(t.record)), id, c, exclusive) ==
            Put(t.(record := t.record.(landed := None, resolvedAt := None)), id, Marking(Awaiting))
  {
    PutPut(t.(record := t.record.(landed := None, resolvedAt := None)), id, ReopenCompared(t.record), Marking(Awaiting));
  }

  lemma PutSame(s: State, id: nat)
    requires id in s.actors
    ensures Put(s, id, s.actors[id]) == s
  {
    assert s.actors[id := s.actors[id]] == s.actors;
  }

  /** Five undisturbed steps claim an open park and pass the record compare. */
  lemma ClaimToCompared(s: State, id: nat, c: Choice, exclusive: bool, job: Job, next: Record)
    requires id in s.actors && s.actors[id] == Ready(job) && s.claim.None?
    requires ReadsAwaiting(s.status) && s.record.resolvedAt.None? && Proposed(job, s.record, c) == Some(next)
    ensures Solo(s, id, c, exclusive, 5) == Put(s.(claim := Some(id)), id, Compared(job, s.record, next))
  {
    hide Step, Proposed, Put, Solo, ReadsAwaiting;
    var t := s.(claim := Some(id));
    PutSame(s, id);
    SoloNone(s, id, c, exclusive);
    AtReady(s, id, c, exclusive, job);
    SoloNext(s, id, c, exclusive, 0, s, Put(t, id, Created(job)));
    AtCreated(t, id, c, exclusive, job);
    SoloNext(s, id, c, exclusive, 1, Put(t, id, Created(job)), Put(t, id, Claimed(job)));
    AtClaimed(t, id, c, exclusive, job);
    SoloNext(s, id, c, exclusive, 2, Put(t, id, Claimed(job)), Put(t, id, StatusOk(job)));
    AtStatusOk(t, id, c, exclusive, job);
    SoloNext(s, id, c, exclusive, 3, Put(t, id, StatusOk(job)), Put(t, id, Rechecked(job, s.record)));
    AtRechecked(t, id, c, exclusive, job, next);
    SoloNext(s, id, c, exclusive, 4, Put(t, id, Rechecked(job, s.record)), Put(t, id, Compared(job, s.record, next)));
  }

  lemma AtStart(t: State, id: nat, c: Choice, exclusive: bool)
    requires ReadsAwaiting(t.status)
    ensures Step(Put(t, id, Start(AckRun)), id, c, exclusive) == Put(t, id, AckStatus)
    ensures Step(Put(t, id, AckStatus), id, c, exclusive) == Put(t, id, AckRecord(t.record))
  {
    PutPut(t, id, Start(AckRun), AckStatus);
    PutPut(t, id, AckStatus, AckRecord(t.record));
  }

  lemma AtAckRecord(t: State, id: nat, c: Choice, exclusive: bool)
    ensures Step(Put(t, id, AckRecord(t.record)), id, c, exclusive) ==
            Put(t, id, if t.base == t.record.baseSHA then Ready(Direct) else Verifying(t.base))
  {
    PutPut(t, id, AckRecord(t.record), if t.base == t.record.baseSHA then Ready(Direct) else Verifying(t.base));
  }

  lemma AtVerifying(t: State, id: nat, c: Choice, exclusive: bool)
    requires c.green.Some?
    ensures Step(Put(t, id, Verifying(t.base)), id, c, exclusive) ==
            Put(t.(green := t.green + {Landing(t.base, c.green.value)}), id, Ready(Reverify(t.base, c.green)))
  {
    PutPut(t.(green := t.green + {Landing(t.base, c.green.value)}), id, Verifying(t.base), Ready(Reverify(t.base, c.green)));
  }

  /** An ack's reads: three steps on an unmoved base, a verify more on a moved one. */
  lemma AckToReady(t: State, id: nat, c: Choice, exclusive: bool)
    requires ReadsAwaiting(t.status)
    ensures id in Put(t, id, Start(AckRun)).actors
    ensures Solo(Put(t, id, Start(AckRun)), id, c, exclusive, 2) == Put(t, id, AckRecord(t.record))
    ensures t.base == t.record.baseSHA ==> Solo(Put(t, id, Start(AckRun)), id, c, exclusive, 3) == Put(t, id, Ready(Direct))
    ensures t.base != t.record.baseSHA ==> Solo(Put(t, id, Start(AckRun)), id, c, exclusive, 3) == Put(t, id, Verifying(t.base))
    ensures t.base != t.record.baseSHA && c.green.Some? ==>
              Solo(Put(t, id, Start(AckRun)), id, c, exclusive, 4) ==
              Put(t.(green := t.green + {Landing(t.base, c.green.value)}), id, Ready(Reverify(t.base, c.green)))
  {
    var s := Put(t, id, Start(AckRun));
    assert id in s.actors;
    hide Step, Put, Solo, ReadsAwaiting;
    SoloNone(s, id, c, exclusive);
    AtStart(t, id, c, exclusive);
    SoloNext(s, id, c, exclusive, 0, s, Put(t, id, AckStatus));
    SoloNext(s, id, c, exclusive, 1, Put(t, id, AckStatus), Put(t, id, AckRecord(t.record)));
    AtAckRecord(t, id, c, exclusive);
    if t.base == t.record.baseSHA {
      SoloNext(s, id, c, exclusive, 2, Put(t, id, AckRecord(t.record)), Put(t, id, Ready(Direct)));
    } else {
      SoloNext(s, id, c, exclusive, 2, Put(t, id, AckRecord(t.record)), Put(t, id, Verifying(t.base)));
      if c.green.Some? {
        AtVerifying(t, id, c, exclusive);
        SoloNext(s, id, c, exclusive, 3, Put(t, id, Verifying(t.base)),
                 Put(t.(green := t.green + {Landing(t.base, c.green.value)}), id, Ready(Reverify(t.base, c.green))));
      }
    }
  }

  /** From the passed compare on: write, swap, mark, release. */
  lemma ComparedToGone(t: State, id: nat, c: Choice, exclusive: bool, job: Job, raw: Record, next: Record)
    requires c.ok && !job.Reject? && (job.Reverify? ==> job.green.Some?) && t.base == next.baseSHA
    ensures id in Put(t, id, Compared(job, raw, next)).actors
    ensures Solo(Put(t, id, Compared(job, raw, next)), id, c, exclusive, 4) ==
            Put(t.(record := next, base := next.verified, status := Done, claim := None,
                   landings := t.landings + [Landing(t.base, next.verified)]), id, Gone)
  {
    var s := Put(t, id, Compared(job, raw, next));
    assert id in s.actors;
    hide Step, Put, Solo;
    var w := t.(record := next);
    var m := w.(base := next.verified, landings := t.landings + [Landing(t.base, next.verified)]);
    SoloNone(s, id, c, exclusive);
    AtLandingCompared(t, id, c, exclusive, job, raw, next);
    SoloNext(s, id, c, exclusive, 0, s, Put(w, id, Written(next)));
    AtWritten(w, id, c, exclusive, next);
    SoloNext(s, id, c, exclusive, 1, Put(w, id, Written(next)), Put(m, id, Marking(Done)));
    AtMarking(m, id, c, exclusive, Done);
    SoloNext(s, id, c, exclusive, 2, Put(m, id, Marking(Done)), Put(m.(status := Done), id, Releasing));
    AtReleasing(m.(status := Done), id, c, exclusive);
    SoloNext(s, id, c, exclusive, 3, Put(m.(status := Done), id, Releasing), Put(m.(status := Done, claim := None), id, Gone));
  }

  /** The commit a lone ack lands: the recorded one on an unmoved base, the
      freshly verified one otherwise. */
  function Landable(s: State, final: Commit): Commit {
    if s.base == s.record.baseSHA then s.record.verified else final
  }

  function AckSteps(s: State): nat {
    if s.base == s.record.baseSHA then 12 else 13
  }

  /** Everything after the reads: claim, recheck, record, swap, mark, release. */
  lemma ReadyToGone(t: State, id: nat, c: Choice, job: Job, next: Record)
    requires ReadsAwaiting(t.status) && t.record.resolvedAt.None? && t.claim.None? && c.ok
    requires !job.Reject? && (job.Reverify? ==> job.green.Some?)
    requires Proposed(job, t.record, c) == Some(next) && t.base == next.baseSHA
    ensures id in Put(t, id, Ready(job)).actors
    ensures Solo(Put(t, id, Ready(job)), id, c, true, 9) ==
            Put(t.(record := next, base := next.verified, status := Done, claim := None,
                   landings := t.landings + [Landing(t.base, next.verified)]), id, Gone)
  {
    hide Step, Solo, ReadsAwaiting, Proposed;
    var s, claimed := Put(t, id, Ready(job)), t.(claim := Some(id));
    ClaimToCompared(s, id, c, true, job, next);
    PutPut(claimed, id, Ready(job), Compared(job, t.record, next));
    ComparedToGone(claimed, id, c, true, job, t.record, next);
    SoloAdd(s, id, c, true, 5, 4);
  }

  /** The ack has landed `to` on the base it found, and is gone. */
  ghost predicate LandedBy(s: State, s': State, id: nat, to: Commit) {
    && s'.base == to && s'.landings == s.landings + [Landing(s.base, to)] && s'.rejections == s.rejections
    && s'.record.resolvedAt.Some? && s'.record.landed == Some(to)
    && s'.status == Done && s'.claim.None?
    && s'.actors == s.actors[id := Gone]
  }

  lemma DirectProposal(r: Record, c: Choice) returns (next: Record)
    requires ValidLanding(r)
    ensures Proposed(Direct, r, c) == Some(next)
    ensures next.baseSHA == r.baseSHA && next.verified == r.verified && next.landed == Some(r.verified) && next.resolvedAt.Some?
  {
    next := r.(landed := Some(r.verified), resolvedAt := Some(c.stamp));
  }

  lemma ReverifiedProposal(r: Record, base: Commit, c: Choice) returns (next: Record)
    requires c.green.Some?
    ensures Proposed(Reverify(base, c.green), r, c) == Some(next)
    ensures next.baseSHA == base && next.verified == c.green.value && next.landed == c.green && next.resolvedAt.Some?
  {
    next := Proposed(Reverify(base, c.green), r, c).value;
  }

  lemma DirectAckLands(s: State, id: nat, c: Choice)
    requires s.record.resolvedAt.None? && ReadsAwaiting(s.status) && s.claim.None? && c.ok
    requires s.base == s.record.baseSHA && ValidLanding(s.record)
    ensures id in Put(s, id, Start(AckRun)).actors
    ensures LandedBy(s, Solo(Put(s, id, Start(AckRun)), id, c, true, 12), id, s.record.verified)
  {
    hide Step, Solo, ReadsAwaiting, Proposed, ValidLanding;
    var next := DirectProposal(s.record, c);
    AckToReady(s, id, c, true);
    ReadyToGone(s, id, c, Direct, next);
    SoloAdd(Put(s, id, Start(AckRun)), id, c, true, 3, 9);
  }

  lemma ReverifiedAckLands(s: State, id: nat, c: Choice)
    requires s.record.resolvedAt.None? && ReadsAwaiting(s.status) && s.claim.None? && c.ok
    requires s.base != s.record.baseSHA && c.green.Some?
    ensures id in Put(s, id, Start(AckRun)).actors
    ensures LandedBy(s, Solo(Put(s, id, Start(AckRun)), id, c, true, 13), id, c.green.value)
  {
    hide Step, Solo, ReadsAwaiting, Proposed;
    var job, t := Reverify(s.base, c.green), s.(green := s.green + {Landing(s.base, c.green.value)});
    var next := ReverifiedProposal(s.record, s.base, c);
    AckToReady(s, id, c, true);
    ReadyToGone(t, id, c, job, next);
    SoloAdd(Put(s, id, Start(AckRun)), id, c, true, 4, 9);
  }

  /** An open, unclaimed park is ackable: one more ack, undisturbed and green,
      lands on the base it found and marks the run done. The recorded landing is
      validated only when the base has not moved. */
  lemma OpenParkIsAckable(s: State, id: nat, final: Commit, stamp: nat)
    requires s.record.resolvedAt.None? && ReadsAwaiting(s.status) && s.claim.None?
    requires s.base == s.record.baseSHA ==> ValidLanding(s.record)
    ensures id in Put(s, id, Start(AckRun)).actors
    ensures LandedBy(s, Solo(Put(s, id, Start(AckRun)), id, Choice(true, Some(final), stamp), true, AckSteps(s)), id, Landable(s, final))
  {
    hide Step, Solo, ReadsAwaiting, ValidLanding, LandedBy;
    var c := Choice(true, Some(final), stamp);
    if s.base == s.record.baseSHA {
      DirectAckLands(s, id, c);
    } else {
      ReverifiedAckLands(s, id, c);
    }
  }

  // ---- the other outcomes of an actor left alone ----

  /** From the passed compare of a rejection on: record, mark, release. */
  lemma RejectToGone(t: State, id: nat, c: Choice, timeout: bool, raw: Record, next: Record)
    requires c.ok
    ensures id in Put(t, id, Compared(Reject(timeout), raw, next)).actors
    ensures Solo(Put(t, id, Compared(Reject(timeout), raw, next)), id, c, true, 3) ==
            Put(t.(record := next, rejections := t.rejections + 1, status := Rejected, claim := None), id, Gone)
  {
    var s := Put(t, id, Compared(Reject(timeout), raw, next));
    assert id in s.actors;
    hide Step, Put, Solo;
    var m := t.(record := next, rejections := t.rejections + 1);
    SoloNone(s, id, c, true);
    AtRejectCompared(t, id, c, true, timeout, raw, next);
    SoloNext(s, id, c, true, 0, s, Put(m, id, Marking(Rejected)));
    AtMarking(m, id, c, true, Rejected);
    SoloNext(s, id, c, true, 1, Put(m, id, Marking(Rejected)), Put(m.(status := Rejected), id, Releasing));
    AtReleasing(m.(status := Rejected), id, c, true);
    SoloNext(s, id, c, true, 2, Put(m.(status := Rejected), id, Releasing), Put(m.(status := Rejected, claim := None), id, Gone));
  }

  lemma AtRejectStart(t: State, id: nat, c: Choice, timeout: bool)
    requires timeout ==> ReadsAwaiting(t.status)
    ensures Step(Put(t, id, Start(if timeout then TimeoutSweep else RejectRun)), id, c, true) == Put(t, id, Ready(Reject(timeout)))
  {
    PutPut(t, id, Start(if timeout then TimeoutSweep else RejectRun), Ready(Reject(timeout)));
  }

  lemma ReadyToCompared(t: State, id: nat, c: Choice, job: Job, next: Record)
    requires t.record.resolvedAt.None? && ReadsAwaiting(t.status) && t.claim.None? && Proposed(job, t.record, c) == Some(next)
    ensures id in Put(t, id, Ready(job)).actors
    ensures Solo(Put(t, id, Ready(job)), id, c, true, 5) == Put(t.(claim := Some(id)), id, Compared(job, t.record, next))
  {
    hide Step, Solo, ReadsAwaiting, Proposed;
    ClaimToCompared(Put(t, id, Ready(job)), id, c, true, job, next);
    PutPut(t.(claim := Some(id)), id, Ready(job), Compared(job, t.record, next));
  }

  lemma RejectProposal(r: Record, c: Choice, timeout: bool)
    requires timeout ==> c.ok
    ensures Proposed(Reject(timeout), r, c) == Some(r.(resolvedAt := Some(c.stamp)))
  {
  }

  lemma ReadyToRejected(t: State, id: nat, c: Choice, timeout: bool)
    requires t.record.resolvedAt.None? && ReadsAwaiting(t.status) && t.claim.None? && c.ok
    ensures id in Put(t, id, Ready(Reject(timeout))).actors
    ensures Solo(Put(t, id, Ready(Reject(timeout))), id, c, true, 8) ==
            Put(t.(record := t.record.(resolvedAt := Some(c.stamp)), rejections := t.rejections + 1, status := Rejected), id, Gone)
  {
    hide Step, Solo, Put, ReadsAwaiting, Proposed;
    var next, claimed := t.record.(resolvedAt := Some(c.stamp)), t.(claim := Some(id));
    RejectProposal(t.record, c, timeout);
    assert claimed.(record := next, rejections := claimed.rejections + 1, status := Rejected, claim := None) ==
           t.(record := next, rejections := t.rejections + 1, status := Rejected);
    ReadyToCompared(t, id, c, Reject(timeout), next);
    RejectToGone(claimed, id, c, timeout, t.record, next);
    SoloAdd(Put(t, id, Ready(Reject(timeout))), id, c, true, 5, 3);
  }

  /** An open, unclaimed park is rejected by a rejection left alone, or by a sweep
      once its deadline has passed: recorded, marked, released, the base unmoved. */
  lemma OpenParkIsRejectable(s: State, id: nat, c: Choice, timeout: bool)
    requires s.record.resolvedAt.None? && ReadsAwaiting(s.status) && s.claim.None? && c.ok
    ensures var s0 := Put(s, id, Start(if timeout then TimeoutSweep else RejectRun));
            && id in s0.actors
            && Solo(s0, id, c, true, 9) ==
               Put(s.(record := s.record.(resolvedAt := Some(c.stamp)), rejections := s.rejections + 1, status := Rejected), id, Gone)
  {
    var s0 := Put(s, id, Start(if timeout then TimeoutSweep else RejectRun));
    assert id in s0.actors;
    hide Step, Solo, Put, ReadsAwaiting;
    SoloNone(s0, id, c, true);
    AtRejectStart(s, id, c, timeout);
    SoloNext(s0, id, c, true, 0, s0, Put(s, id, Ready(Reject(timeout))));
    ReadyToRejected(s, id, c, timeout);
    SoloAdd(s0, id, c, true, 1, 8);
  }

  lemma AtRedCompared(t: State, id: nat, c: Choice, current: Commit, raw: Record, next: Record)
    requires c.ok
    ensures Step(Put(t, id, Compared(Reverify(current, None), raw, next)), id, c, true) == Put(t.(record := next), id, Marking(Awaiting))
  {
    PutPut(t.(record := next), id, Compared(Reverify(current, None), raw, next), Marking(Awaiting));
  }

  /** From the passed compare of a red re-verify on: record, mark, release. */
  lemma RedToGone(t: State, id: nat, c: Choice, current: Commit, raw: Record, next: Record)
    requires c.ok
    ensures id in Put(t, id, Compared(Reverify(current, None), raw, next)).actors
    ensures Solo(Put(t, id, Compared(Reverify(current, None), raw, next)), id, c, true, 3) ==
            Put(t.(record := next, status := Awaiting, claim := None), id, Gone)
  {
    var s := Put(t, id, Compared(Reverify(current, None), raw, next));
    assert id in s.actors;
    hide Step, Put, Solo;
    var m := t.(record := next);
    SoloNone(s, id, c, true);
    AtRedCompared(t, id, c, current, raw, next);
    SoloNext(s, id, c, true, 0, s, Put(m, id, Marking(Awaiting)));
    AtMarking(m, id, c, true, Awaiting);
    SoloNext(s, id, c, true, 1, Put(m, id, Marking(Awaiting)), Put(m.(status := Awaiting), id, Releasing));
    AtReleasing(m.(status := Awaiting), id, c, true);
    SoloNext(s, id, c, true, 2, Put(m.(status := Awaiting), id, Releasing), Put(m.(status := Awaiting, claim := None), id, Gone));
  }

  lemma AtRedVerifying(t: State, id: nat, c: Choice)
    requires c.green.None?
    ensures Step(Put(t, id, Verifying(t.base)), id, c, true) == Put(t, id, Ready(Reverify(t.base, None)))
  {
    PutPut(t, id, Verifying(t.base), Ready(Reverify(t.base, None)));
  }

  /** An ack that finds the base moved and re-verifies red costs one attempt and
      leaves the park open. */
  lemma RedReverifyStaysOpen(s: State, id: nat, c: Choice)
    requires s.record.resolvedAt.None? && ReadsAwaiting(s.status) && s.claim.None? && c.ok
    requires s.base != s.record.baseSHA && c.green.None?
    ensures var s0 := Put(s, id, Start(AckRun));
            && id in s0.actors
            && Solo(s0, id, c, true, 12) == Put(s.(record := s.record.(attempts := s.record.attempts + 1), status := Awaiting), id, Gone)
  {
    var s0, job := Put(s, id, Start(AckRun)), Reverify(s.base, None);
    var next, ready, claimed := s.record.(attempts := s.record.attempts + 1), Put(s, id, Ready(Reverify(s.base, None))), s.(claim := Some(id));
    assert Proposed(job, s.record, c) == Some(next);
    hide Step, Solo, ReadsAwaiting, Proposed;
    AckToReady(s, id, c, true);
    AtRedVerifying(s, id, c);
    SoloNext(s0, id, c, true, 3, Put(s, id, Verifying(s.base)), ready);
    ReadyToCompared(s, id, c, job, next);
    RedToGone(claimed, id, c, s.base, s.record, next);
    SoloAdd(ready, id, c, true, 5, 3);
    SoloAdd(s0, id, c, true, 4, 8);
  }

  // What turns an actor away.

  lemma AtClosedStart(t: State, id: nat, c: Choice, kind: Kind)
    requires !ReadsAwaiting(t.status) && !kind.RejectRun?
    ensures Step(Put(t, id, Start(kind)), id, c, true) == Put(t, id, Gone)
  {
    PutPut(t, id, Start(kind), Gone);
  }

  lemma AtClosedClaimed(t: State, id: nat, c: Choice, job: Job)
    requires !ReadsAwaiting(t.status)
    ensures Step(Put(t, id, Claimed(job)), id, c, true) == Put(t, id, Releasing)
  {
    PutPut(t, id, Claimed(job), Releasing);
  }

  lemma AtTakenReady(t: State, id: nat, c: Choice, job: Job)
    requires t.claim.Some?
    ensures Step(Put(t, id, Ready(job)), id, c, true) == Put(t, id, Gone)
  {
    PutPut(t, id, Ready(job), Gone);
  }

  /** A park marked done or rejected turns every later ack, rejection and sweep
      away: nothing on disk changes. */
  lemma SettledTurnsAway(s: State, id: nat, c: Choice, kind: Kind)
    requires s.status in {Done, Rejected} && s.claim.None?
    ensures var s0 := Put(s, id, Start(kind));
            id in s0.actors && Solo(s0, id, c, true, if kind.RejectRun? then 5 else 1) == Put(s, id, Gone)
  {
    var s0 := Put(s, id, Start(kind));
    assert id in s0.actors;
    assert !ReadsAwaiting(s.status);
    hide Step, Put, Solo, ReadsAwaiting;
    SoloNone(s0, id, c, true);
    if kind.RejectRun? {
      var t, job := s.(claim := Some(id)), Reject(false);
      AtRejectStart(s, id, c, false);
      SoloNext(s0, id, c, true, 0, s0, Put(s, id, Ready(job)));
      AtReady(s, id, c, true, job);
      SoloNext(s0, id, c, true, 1, Put(s, id, Ready(job)), Put(t, id, Created(job)));
      AtCreated(t, id, c, true, job);
      SoloNext(s0, id, c, true, 2, Put(t, id, Created(job)), Put(t, id, Claimed(job)));
      AtClosedClaimed(t, id, c, job);
      SoloNext(s0, id, c, true, 3, Put(t, id, Claimed(job)), Put(t, id, Releasing));
      AtReleasing(t, id, c, true);
      assert t.(claim := None) == s;
      SoloNext(s0, id, c, true, 4, Put(t, id, Releasing), Put(s, id, Gone));
    } else {
      AtClosedStart(s, id, c, kind);
      SoloNext(s0, id, c, true, 0, s0, Put(s, id, Gone));
    }
  }

  /** A claim held turns everybody else who comes for it away. */
  lemma ClaimTurnsAway(s: State, id: nat, c: Choice, job: Job)
    requires s.claim.Some?
    ensures id in Put(s, id, Ready(job)).actors && Solo(Put(s, id, Ready(job)), id, c, true, 1) == Put(s, id, Gone)
  {
    var s0 := Put(s, id, Ready(job));
    assert id in s0.actors;
    hide Step, Put, Solo;
    SoloNone(s0, id, c, true);
    AtTakenReady(s, id, c, job);
    SoloNext(s0, id, c, true, 0, s0, Put(s, id, Gone));
  }

  lemma AtEarlyRechecked(t: State, id: nat, c: Choice)
    requires !c.ok
    ensures Step(Put(t, id, Rechecked(Reject(true), t.record)), id, c, true) == Put(t, id, Releasing)
  {
    PutPut(t, id, Rechecked(Reject(true), t.record), Releasing);
  }

  /** A sweep before the deadline leaves an open park alone. */
  lemma EarlySweepLeavesAlone(s: State, id: nat, c: Choice)
    requires s.record.resolvedAt.None? && ReadsAwaiting(s.status) && s.claim.None? && !c.ok
    ensures var s0 := Put(s, id, Start(TimeoutSweep));
            id in s0.actors && Solo(s0, id, c, true, 7) == Put(s, id, Gone)
  {
    var s0 := Put(s, id, Start(TimeoutSweep));
    assert id in s0.actors;
    hide Step, Put, Solo, ReadsAwaiting;
    var t, job := s.(claim := Some(id)), Reject(true);
    SoloNone(s0, id, c, true);
    AtRejectStart(s, id, c, true);
    SoloNext(s0, id, c, true, 0, s0, Put(s, id, Ready(job)));
    AtReady(s, id, c, true, job);
    SoloNext(s0, id, c, true, 1, Put(s, id, Ready(job)), Put(t, id, Created(job)));
    AtCreated(t, id, c, true, job);
    SoloNext(s0, id, c, true, 2, Put(t, id, Created(job)), Put(t, id, Claimed(job)));
    AtClaimed(t, id, c, true, job);
    SoloNext(s0, id, c, true, 3, Put(t, id, Claimed(job)), Put(t, id, StatusOk(job)));
    AtStatusOk(t, id, c, true, job);
    SoloNext(s0, id, c, true, 4, Put(t, id, StatusOk(job)), Put(t, id, Rechecked(job, s.record)));
    AtEarlyRechecked(t, id, c);
    SoloNext(s0, id, c, true, 5, Put(t, id, Rechecked(job, s.record)), Put(t, id, Releasing));
    AtReleasing(t, id, c, true);
    assert t.(claim := None) == s;
    SoloNext(s0, id, c, true, 6, Put(t, id, Releasing), Put(s, id, Gone));
  }

  // ---- a refused swap ----

  /** The state once a refusal has been taken back and the claim released. */
  function Reopened(s: State, id: nat): State {
    Put(s.(record := s.record.(landed := None, resolvedAt := None), status := Awaiting, claim := None), id, Gone)
  }

  lemma RefusedToGone(s: State, id: nat, c: Choice)
    requires id in s.actors && s.actors[id] == Refused(s.record) && c.ok
    ensures Solo(s, id, c, true, 5) == Reopened(s, id)
  {
    hide Step, Put, Solo;
    var open := s.(record := s.record.(landed := None, resolvedAt := None));
    PutSame(s, id);
    SoloNone(s, id, c, true);
    AtRefused(s, id, c, true);
    SoloNext(s, id, c, true, 0, s, Put(s, id, Reopening(s.record)));
    AtReopening(s, id, c, true);
    SoloNext(s, id, c, true, 1, Put(s, id, Reopening(s.record)), Put(s, id, ReopenCompared(s.record)));
    AtReopenCompared(s, id, c, true);
    SoloNext(s, id, c, true, 2, Put(s, id, ReopenCompared(s.record)), Put(open, id, Marking(Awaiting)));
    AtMarking(open, id, c, true, Awaiting);
    SoloNext(s, id, c, true, 3, Put(open, id, Marking(Awaiting)), Put(open.(status := Awaiting), id, Releasing));
    AtReleasing(open.(status := Awaiting), id, c, true);
    SoloNext(s, id, c, true, 4, Put(open.(status := Awaiting), id, Releasing), Reopened(s, id));
  }

  /** In any exclusive run, an ack whose swap was refused takes its resolution
      back: no compare on the way can fail, and five steps of its own later the
      park is open again. Unresolved, awaiting, unclaimed, nothing landed or
      rejected, and what it records is still a valid landing. */
  lemma RefusalReopens(run: seq<State>, id: nat, c: Choice)
    requires IsRun(run, true) && id in run[|run| - 1].actors && run[|run| - 1].actors[id].Refused? && c.ok
    ensures var s := run[|run| - 1];
            && Solo(s, id, c, true, 5) == Reopened(s, id)
            && Undecided(Reopened(s, id)) && ValidLanding(Reopened(s, id).record)
  {
    var s := run[|run| - 1];
    RunOnce(run);
    assert OwnerOk(s, s.actors[id]);
    ParkSafety.RunSafe(run, true);
    assert Landing(s.record.baseSHA, s.record.verified) in s.green;
    RefusedToGone(s, id, c);
  }

  lemma Extend(run: seq<State>, exclusive: bool, ev: Event) returns (run': seq<State>)
    requires IsRun(run, exclusive) && Enabled(run[|run| - 1], ev, exclusive)
    ensures IsRun(run', exclusive) && run <= run' && run'[|run'| - 1] == Next(run[|run| - 1], ev, exclusive)
  {
    hide Next, Enabled;
    run' := run + [Next(run[|run| - 1], ev, exclusive)];
    forall k | 0 <= k < |run'| - 1
      ensures Follows(run'[k], run'[k + 1], exclusive)
    {
      if k < |run| - 1 {
        assert Follows(run[k], run[k + 1], exclusive);
      }
    }
  }

  /** After n steps of the actor's own: if it is about to verify, what it will
      find green is built on the head it verifies. */
  ghost predicate VerifiesOnTop(s: State, id: nat, c: Choice, exclusive: bool, n: nat)
    requires id in s.actors
  {
    var ph := Solo(s, id, c, exclusive, n).actors[id];
    ph.Verifying? && c.green.Some? ==> IsAncestor(ph.current, c.green.value)
  }

  /** Let one actor take n steps. */
  lemma {:induction false} ExtendSolo(run: seq<State>, exclusive: bool, s: State, id: nat, c: Choice, n: nat) returns (run': seq<State>)
    requires IsRun(run, exclusive) && run[|run| - 1] == s && id in s.actors
    requires forall m: nat :: m < n ==> VerifiesOnTop(s, id, c, exclusive, m)
    ensures IsRun(run', exclusive) && run <= run' && run'[|run'| - 1] == Solo(s, id, c, exclusive, n)
  {
    hide Step;
    if n == 0 {
      run' := run;
    } else {
      run' := ExtendSolo(run, exclusive, s, id, c, n - 1);
      assert VerifiesOnTop(s, id, c, exclusive, n - 1);
      run' := Extend(run', exclusive, Act(id, c));
    }
  }

  lemma StillPast(s: State, id: nat, c: Choice, exclusive: bool)
    requires id in s.actors && !Reading(s.actors[id])
    ensures !Reading(Step(s, id, c, exclusive).actors[id])
  {
    hide Proposed, ReadsAwaiting, ReadStep;
  }

  /** An actor past its reads no longer verifies. */
  lemma {:induction false} NeverVerifies(s: State, id: nat, c: Choice, exclusive: bool, n: nat)
    requires id in s.actors && !Reading(s.actors[id])
    ensures !Reading(Solo(s, id, c, exclusive, n).actors[id]) && VerifiesOnTop(s, id, c, exclusive, n)
  {
    hide Step;
    if n > 0 {
      NeverVerifies(s, id, c, exclusive, n - 1);
      StillPast(Solo(s, id, c, exclusive, n - 1), id, c, exclusive);
    }
  }

  /** The only verify of an ack is at its fourth step, on the base it found. */
  lemma AckVerifiesOnTop(t: State, id: nat, c: Choice, n: nat)
    requires ReadsAwaiting(t.status) && c.green.Some? && IsAncestor(t.base, c.green.value)
    ensures id in Put(t, id, Start(AckRun)).actors
    ensures VerifiesOnTop(Put(t, id, Start(AckRun)), id, c, true, n)
  {
    var s := Put(t, id, Start(AckRun));
    hide Step, Solo, ReadsAwaiting, IsAncestor;
    AckToReady(t, id, c, true);
    SoloNone(s, id, c, true);
    if n == 1 {
      AtStart(t, id, c, true);
      SoloNext(s, id, c, true, 0, s, Put(t, id, AckStatus));
    } else if n > 3 {
      if t.base == t.record.baseSHA {
        SoloAdd(s, id, c, true, 3, n - 3);
        NeverVerifies(Put(t, id, Ready(Direct)), id, c, true, n - 3);
      } else {
        SoloAdd(s, id, c, true, 4, n - 4);
        NeverVerifies(Solo(s, id, c, true, 4), id, c, true, n - 4);
      }
    }
  }

  /** Let a refused ack finish. */
  lemma FinishRefusal(run: seq<State>, id: nat) returns (run': seq<State>)
    requires IsRun(run, true) && id in run[|run| - 1].actors && run[|run| - 1].actors[id].Refused?
    ensures IsRun(run', true) && run <= run' && run'[|run'| - 1] == Reopened(run[|run| - 1], id)
  {
    var s, c := run[|run| - 1], Choice(true, None, 0);
    RefusalReopens(run, id, c);
    hide Step, Solo, VerifiesOnTop, ValidLanding;
    forall m: nat
      ensures VerifiesOnTop(s, id, c, true, m)
    {
      NeverVerifies(s, id, c, true, m);
    }
    run' := ExtendSolo(run, true, s, id, c, 5);
  }

  /** Let one more ack run on an open park, green on the base it finds. */
  lemma AckOnceMore(run: seq<State>, s: State, id: nat, final: Commit, stamp: nat) returns (run': seq<State>)
    requires IsRun(run, true) && run[|run| - 1] == s && id !in s.actors
    requires s.record.resolvedAt.None? && ReadsAwaiting(s.status) && s.claim.None?
    requires (s.base == s.record.baseSHA ==> ValidLanding(s.record)) && IsAncestor(s.base, final)
    ensures IsRun(run', true) && run <= run' && LandedBy(s, run'[|run'| - 1], id, Landable(s, final))
  {
    var s0, d := Put(s, id, Start(AckRun)), Choice(true, Some(final), stamp);
    SpawnIs(s, id);
    hide Step, Next, Solo, ValidLanding, IsAncestor, ReadsAwaiting, VerifiesOnTop, LandedBy, AckSteps;
    OpenParkIsAckable(s, id, final, stamp);
    forall m: nat
      ensures VerifiesOnTop(s0, id, d, true, m)
    {
      AckVerifiesOnTop(s, id, d, m);
    }
    run' := Extend(run, true, Spawn(id, AckRun));
    run' := ExtendSolo(run', true, s0, id, d, AckSteps(s));
  }

  /** ...and ackable: let the refused ack finish and one more ack run, green on
      the base it finds, and the park is landed, on that base, and reported so. */
  lemma RefusedSwapIsAckable(run: seq<State>, id: nat, again: nat, final: Commit, stamp: nat) returns (run': seq<State>)
    requires IsRun(run, true) && id in run[|run| - 1].actors && run[|run| - 1].actors[id].Refused?
    requires again !in run[|run| - 1].actors && IsAncestor(run[|run| - 1].base, final)
    ensures IsRun(run', true) && run <= run'
    ensures var s, s' := run[|run| - 1], run'[|run'| - 1];
            && s'.base == Landable(s, final) && s'.landings == [Landing(s.base, Landable(s, final))] && s'.rejections == 0
            && AckedLandedSHA(s') == Some(Landable(s, final)) && s'.claim.None?
  {
    var s, c := run[|run| - 1], Choice(true, None, 0);
    hide Solo, ValidLanding, IsAncestor, IsRun;
    RefusalReopens(run, id, c);
    run' := FinishRefusal(run, id);
    run' := AckOnceMore(run', Reopened(s, id), again, final, stamp);
  }

  lemma SpawnIs(s: State, id: nat)
    requires id !in s.actors
    ensures Enabled(s, Spawn(id, AckRun), true) && Next(s, Spawn(id, AckRun), true) == Put(s, id, Start(AckRun))
  {
  }

  // ---- without the exclusion ----

  /** An ack on an unmoved base gets as far as the passed compare. */
  lemma AckReachesCompared(run: seq<State>, c: Choice, next: Record) returns (run': seq<State>)
    requires IsRun(run, false) && c.green.None?
    requires var s := run[|run| - 1];
             && 0 !in s.actors && s.claim.None? && s.record.resolvedAt.None? && ReadsAwaiting(s.status)
             && s.base == s.record.baseSHA && Proposed(Direct, s.record, c) == Some(next)
    ensures IsRun(run', false)
    ensures run'[|run'| - 1] ==
            Put(run[|run| - 1].(claim := Some(0)), 0, Compared(Direct, run[|run| - 1].record, next))
  {
    var s := run[|run| - 1];
    hide IsRun, Proposed, Solo, Step;
    run' := Extend(run, false, Spawn(0, AckRun));
    AckToReady(s, 0, c, false);
    run' := ExtendSolo(run', false, Put(s, 0, Start(AckRun)), 0, c, 3);
    PutPut(s, 0, Start(AckRun), Ready(Direct));
    ClaimToCompared(Put(s, 0, Ready(Direct)), 0, c, false, Direct, next);
    run' := ExtendSolo(run', false, Put(s, 0, Ready(Direct)), 0, c, 5);
    PutPut(s.(claim := Some(0)), 0, Ready(Direct), Compared(Direct, s.record, next));
  }

  /** A rejection of an open, unclaimed park goes through. */
  lemma RejectGoesThrough(run: seq<State>, c: Choice) returns (run': seq<State>)
    requires IsRun(run, false) && c.ok && c.green.None?
    requires var s := run[|run| - 1];
             1 !in s.actors && s.claim.None? && s.record.resolvedAt.None? && ReadsAwaiting(s.status)
    ensures IsRun(run', false)
    ensures run'[|run'| - 1] ==
            Put(run[|run| - 1].(claim := Some(1), record := run[|run| - 1].record.(resolvedAt := Some(c.stamp)),
                                rejections := run[|run| - 1].rejections + 1), 1, Marking(Rejected))
  {
    var s := run[|run| - 1];
    var next, ready, claimed := s.record.(resolvedAt := Some(c.stamp)), Put(s, 1, Ready(Reject(false))), s.(claim := Some(1));
    assert Proposed(Reject(false), s.record, c) == Some(next);
    hide IsRun, Solo, Step, Proposed;
    run' := StartReject(run, c);
    ClaimToCompared(ready, 1, c, false, Reject(false), next);
    run' := ExtendSolo(run', false, ready, 1, c, 5);
    PutPut(claimed, 1, Ready(Reject(false)), Compared(Reject(false), s.record, next));
    AtRejectCompared(claimed, 1, c, false, false, s.record, next);
    run' := Extend(run', false, Act(1, c));
  }

  lemma StartReject(run: seq<State>, c: Choice) returns (run': seq<State>)
    requires IsRun(run, false) && 1 !in run[|run| - 1].actors && c.green.None?
    ensures IsRun(run', false) && run'[|run'| - 1] == Put(run[|run| - 1], 1, Ready(Reject(false)))
  {
    assert run != [];
    hide IsRun;
    run' := Extend(run, false, Spawn(1, RejectRun));
    run' := Extend(run', false, Act(1, c));
    PutPut(run[|run| - 1], 1, Start(RejectRun), Ready(Reject(false)));
  }

  /** A compare already passed is acted on, whoever holds the claim by then. */
  lemma ComparedAckLands(run: seq<State>, c: Choice, raw: Record, next: Record) returns (run': seq<State>)
    requires IsRun(run, false) && c.ok && c.green.None?
    requires var s := run[|run| - 1];
             0 in s.actors && s.actors[0] == Compared(Direct, raw, next) && s.base == next.baseSHA
    ensures IsRun(run', false)
    ensures run'[|run'| - 1].landings == run[|run| - 1].landings + [Landing(next.baseSHA, next.verified)]
    ensures run'[|run'| - 1].rejections == run[|run| - 1].rejections
  {
    var s := run[|run| - 1];
    hide IsRun, Solo, Step;
    PutSame(s, 0);
    ComparedToGone(s, 0, c, false, Direct, raw, next);
    run' := ExtendSolo(run, false, s, 0, c, 4);
  }

  lemma LoseClaim(run: seq<State>) returns (run': seq<State>)
    requires IsRun(run, false)
    ensures IsRun(run', false) && run'[|run'| - 1] == run[|run| - 1].(claim := None)
  {
    run' := Extend(run, false, RemoveClaim);
  }

  /** The assumption is needed: let one claim be taken from a live owner, and a
      park that was rejected lands after all. */
  lemma StolenClaimLandsARejection() returns (run: seq<State>)
    ensures IsRun(run, false)
    ensures run[|run| - 1].rejections == 1 && |run[|run| - 1].landings| == 1
  {
    var b := Commit(map[], [], "base");
    var v := Commit(map[], [b], "verified");
    assert IsAncestor(b, v) by {
      assert v.parents[0] == b && IsAncestor(b, v.parents[0]);
    }
    var c := Choice(true, None, 1);
    var r := Record(v, map[], b, 1, None, None);
    var s := State(b, r, Awaiting, None, map[], {Landing(b, v)}, [], 0);
    assert IsRun([s], false);
    var landed := r.(landed := Some(v), resolvedAt := Some(1));
    assert Proposed(Direct, r, c) == Some(landed);
    hide IsRun, Proposed, IsAncestor;
    run := AckReachesCompared([s], c, landed);
    run := LoseClaim(run);
    run := RejectGoesThrough(run, c);
    run := ComparedAckLands(run, c, r, landed);
  }
}
