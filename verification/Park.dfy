/** The ack protocol of a parked landing, as a state machine: a base ref moved
    only by compare-and-swap, a park record, a status marker and a one-shot
    claim, stepped by any number of acks, rejections, timeout sweeps and foreign
    landings, one on-disk action at a time, with a crash possible anywhere. */
module Park {
  import opened Git

  /** status.json's phase; Running stands for every non-parked phase. */
  datatype Status = Running | Awaiting | Done | Rejected

  /** park.json. A record is resolved once resolvedAt is set, and then landed or
      rejected according to `landed`. */
  datatype Record = Record(
    verified: Commit, verifiedTree: Tree, baseSHA: Commit, attempts: nat,
    resolvedAt: Option<nat>, landed: Option<Commit>)

  /** What an actor is claiming the park for. Reverify carries the head it
      verified on and, when green, the commit that passed there. */
  datatype Job = Direct | Reverify(current: Commit, green: Option<Commit>) | Reject(timeout: bool)

  datatype Kind = AckRun | RejectRun | TimeoutSweep

  /** How far an actor has got, with what it has read so far. */
  datatype Phase =
    | Start(kind: Kind)
    | AckStatus
    | AckRecord(pk: Record)
    | Verifying(current: Commit)
    | Ready(job: Job)
    | Created(job: Job)
    | Claimed(job: Job)
    | StatusOk(job: Job)
    | Rechecked(job: Job, raw: Record)
    | Compared(job: Job, raw: Record, next: Record)
    | Written(next: Record)
    | Refused(next: Record)
    | Reopening(seen: Record)
    | ReopenCompared(seen: Record)
    | Marking(status: Status)
    | Releasing
    | Gone
    | Crashed

  datatype Landing = Landing(from: Commit, to: Commit)

  /** On disk: base, record, status, claim. In memory: the actors. For the
      statements only: what passed its gate where, what acks landed, and how
      many rejections were recorded. */
  datatype State = State(
    base: Commit, record: Record, status: Status, claim: Option<nat>,
    actors: map<nat, Phase>,
    green: set<Landing>, landings: seq<Landing>, rejections: nat)

  /** The outcomes the model leaves open: whether a write or swap goes through
      at all, what a verify produced, the time stamped on a record. */
  datatype Choice = Choice(ok: bool, green: Option<Commit>, stamp: nat)

  datatype Event =
    | Spawn(id: nat, kind: Kind)
    | Act(id: nat, choice: Choice)
    | Crash(id: nat)
    | Foreign(to: Commit)
    | RemoveClaim

  /** The status check. A marker that names no park phase is outranked by an
      unresolved record, which every caller re-reads before acting on it. */
  predicate ReadsAwaiting(st: Status) {
    st == Awaiting || st == Running
  }

  /** The recorded tree is the recorded commit's. */
  predicate TreeOk(r: Record) {
    r.verified.tree == r.verifiedTree
  }

  /** The ack-time validation of a recorded landing against live objects. */
  ghost predicate ValidLanding(r: Record) {
    TreeOk(r) && IsAncestor(r.baseSHA, r.verified)
  }

  /** The record a job wants to publish over `raw`, if it wants to publish one. */
  ghost function Proposed(job: Job, raw: Record, c: Choice): Option<Record> {
    match job
    case Direct =>
      if ValidLanding(raw) then Some(raw.(landed := Some(raw.verified), resolvedAt := Some(c.stamp))) else None
    case Reverify(current, None) =>
      Some(raw.(attempts := raw.attempts + 1))
    case Reverify(current, Some(final)) =>
      Some(raw.(attempts := raw.attempts + 1, verified := final, verifiedTree := final.tree, baseSHA := current,
                landed := Some(final), resolvedAt := Some(c.stamp)))
    case Reject(timeout) =>
      // a sweep that finds the deadline not passed leaves the park alone
      if timeout && !c.ok then None else Some(raw.(resolvedAt := Some(c.stamp)))
  }

  function Put(s: State, id: nat, ph: Phase): State {
    s.(actors := s.actors[id := ph])
  }

  /** Up to the claim: ackRun's reads, the sweep's pre-check, and the verify an
      ack runs when the base has moved. */
  ghost function ReadStep(s: State, id: nat, c: Choice): State
    requires id in s.actors
  {
    match s.actors[id]
    case Start(AckRun) => Put(s, id, if ReadsAwaiting(s.status) then AckStatus else Gone)
    case Start(RejectRun) => Put(s, id, Ready(Reject(false)))
    case Start(TimeoutSweep) => Put(s, id, if ReadsAwaiting(s.status) then Ready(Reject(true)) else Gone)
    case AckStatus => Put(s, id, AckRecord(s.record))
    case AckRecord(pk) => Put(s, id, if s.base == pk.baseSHA then Ready(Direct) else Verifying(s.base))
    case Verifying(current) =>
      Put(if c.green.Some? then s.(green := s.green + {Landing(current, c.green.value)}) else s,
          id, Ready(Reverify(current, c.green)))
    case _ => s
  }

  /** claimPark, then recheckResolvable and the record compare under the claim.
      `exclusive` switches off the vestigial tidy-up, which removes a claim it
      does not own. */
  ghost function ClaimStep(s: State, id: nat, c: Choice, exclusive: bool): State
    requires id in s.actors
  {
    match s.actors[id]
    case Ready(job) =>
      if s.claim.None? then Put(s.(claim := Some(id)), id, Created(job))
      else if !exclusive && s.record.resolvedAt.Some? then Put(s.(claim := None), id, Gone)
      else Put(s, id, Gone)
    case Created(job) => Put(s, id, if s.claim == Some(id) then Claimed(job) else Gone)
    case Claimed(job) => Put(s, id, if ReadsAwaiting(s.status) then StatusOk(job) else Releasing)
    case StatusOk(job) => Put(s, id, if s.record.resolvedAt.Some? then Releasing else Rechecked(job, s.record))
    case Rechecked(job, raw) =>
      var next := Proposed(job, raw, c);
      Put(s, id, if next.Some? && s.record == raw then Compared(job, raw, next.value) else Releasing)
    case _ => s
  }

  /** The record write, the swap of the base ref, and the status marker. */
  ghost function CommitStep(s: State, id: nat, c: Choice): State
    requires id in s.actors
  {
    match s.actors[id]
    case Compared(job, raw, next) =>
      if !c.ok then Put(s, id, Releasing)
      else if job.Reject? then
        Put(s.(record := next, rejections := s.rejections + 1), id, Marking(Rejected))
      else if job.Reverify? && job.green.None? then
        Put(s.(record := next), id, Marking(Awaiting))
      else
        Put(s.(record := next), id, Written(next))
    case Written(next) =>
      // landRef: the swap applies only while the base still holds baseSHA
      if !c.ok then Put(s, id, Releasing)
      else if s.base == next.baseSHA then
        Put(s.(base := next.verified, landings := s.landings + [Landing(s.base, next.verified)]), id, Marking(Done))
      else Put(s, id, Refused(next))
    case Marking(st) => Put(if c.ok then s.(status := st) else s, id, Releasing)
    case Releasing => Put(s.(claim := None), id, Gone)
    case _ => s
  }

  /** refuseAck: a refused swap takes the resolution back. */
  ghost function RefuseStep(s: State, id: nat, c: Choice): State
    requires id in s.actors
  {
    match s.actors[id]
    case Refused(next) =>
      Put(s, id, if s.record.resolvedAt == next.resolvedAt && s.record.landed == next.landed then Reopening(s.record) else Releasing)
    case Reopening(seen) => Put(s, id, if s.record == seen then ReopenCompared(seen) else Releasing)
    case ReopenCompared(seen) =>
      if !c.ok then Put(s, id, Releasing)
      else Put(s.(record := seen.(landed := None, resolvedAt := None)), id, Marking(Awaiting))
    case _ => s
  }

  predicate Reading(ph: Phase) {
    ph.Start? || ph.AckStatus? || ph.AckRecord? || ph.Verifying?
  }

  predicate Claiming(ph: Phase) {
    ph.Ready? || ph.Created? || ph.Claimed? || ph.StatusOk? || ph.Rechecked?
  }

  predicate Refusing(ph: Phase) {
    ph.Refused? || ph.Reopening? || ph.ReopenCompared?
  }

  /** One on-disk action of actor `id`. */
  ghost function Step(s: State, id: nat, c: Choice, exclusive: bool): State
    requires id in s.actors
  {
    var ph := s.actors[id];
    if Reading(ph) then ReadStep(s, id, c)
    else if Claiming(ph) then ClaimStep(s, id, c, exclusive)
    else if Refusing(ph) then RefuseStep(s, id, c)
    else CommitStep(s, id, c)
  }

  /** An actor that may still write: it holds, or believes it holds, the claim. */
  predicate Critical(ph: Phase) {
    ph.Created? || ph.Claimed? || ph.StatusOk? || ph.Rechecked? || ph.Compared? || ph.Written? ||
    ph.Refused? || ph.Reopening? || ph.ReopenCompared? || ph.Marking? || ph.Releasing?
  }

  /** Which events may happen. A verify is green only on a commit built on top
      of the head it was given; a foreign landing is a fast-forward. With
      exclusion, a claim is removed by others only after its owner crashed. */
  ghost predicate Enabled(s: State, ev: Event, exclusive: bool) {
    match ev
    case Spawn(id, _) => id !in s.actors
    case Act(id, c) =>
      && id in s.actors
      && (s.actors[id].Verifying? && c.green.Some? ==> IsAncestor(s.actors[id].current, c.green.value))
    case Crash(id) => id in s.actors
    case Foreign(to) => IsAncestor(s.base, to)
    case RemoveClaim =>
      exclusive ==> s.claim.Some? && s.claim.value in s.actors && s.actors[s.claim.value].Crashed?
  }

  ghost function Next(s: State, ev: Event, exclusive: bool): State
    requires Enabled(s, ev, exclusive)
  {
    match ev
    case Spawn(id, kind) => Put(s, id, Start(kind))
    case Act(id, c) => Step(s, id, c, exclusive)
    case Crash(id) => Put(s, id, Crashed)
    case Foreign(to) => s.(base := to)
    case RemoveClaim => s.(claim := None)
  }

  /** A park as it is first recorded: verified on baseSHA, unresolved. */
  ghost predicate Init(s: State) {
    && s.record.resolvedAt.None? && s.record.landed.None?
    && s.status in {Awaiting, Running} && s.claim.None? && s.actors == map[]
    && s.green == {Landing(s.record.baseSHA, s.record.verified)}
    && IsAncestor(s.record.baseSHA, s.record.verified)
    && s.landings == [] && s.rejections == 0
  }

  /** A run: states, each the result of an enabled event on the one before. */
  ghost predicate Follows(s: State, s': State, exclusive: bool) {
    exists ev :: Enabled(s, ev, exclusive) && s' == Next(s, ev, exclusive)
  }

  ghost predicate IsRun(run: seq<State>, exclusive: bool) {
    && run != [] && Init(run[0])
    && forall k :: 0 <= k < |run| - 1 ==> Follows(run[k], run[k + 1], exclusive)
  }

  /** The commit an ack landed, as every reader derives it: only a record under
      a "done" status counts. */
  function AckedLandedSHA(s: State): Option<Commit> {
    if s.status == Done && s.record.resolvedAt.Some? then s.record.landed else None
  }
}
