/** The recurring-intent scheduler: which intent fires at a tick, and what that
    amounts to over a whole run of ticks. Times are nanoseconds, zero for never. */
module Schedule {
  import opened Git

  /** `schedule`: at most once per this long; not positive: never. */
  datatype Intent = Intent(id: string, schedule: int)

  /** Last recorded fire by intent id; an absent id reads as zero. */
  type Ledger = map<string, int>

  /** One hour. */
  const SKEW := 3_600_000_000_000

  function LastFired(fired: Ledger, id: string): int {
    if id in fired then fired[id] else 0
  }

  /** A stamp too far ahead of the clock is no fire at all. */
  function EffectiveFiredAt(last: int, now: int): int {
    if last > now + SKEW then 0 else last
  }

  predicate IntentDue(it: Intent, last: int, now: int) {
    it.schedule > 0 &&
    var eff := EffectiveFiredAt(last, now);
    eff == 0 || now >= eff + it.schedule
  }

  predicate DueAt(intents: seq<Intent>, fired: Ledger, now: int, i: nat)
    requires i < |intents|
  {
    IntentDue(intents[i], EffectiveFiredAt(LastFired(fired, intents[i].id), now), now)
  }

  function EffectiveAt(intents: seq<Intent>, fired: Ledger, now: int, i: nat): int
    requires i < |intents|
  {
    EffectiveFiredAt(LastFired(fired, intents[i].id), now)
  }

  /** An intent is due when it is scheduled and was never fired, or its stamp is
      more than an hour ahead of the clock, or at least its schedule back. */
  lemma DueExactly(intents: seq<Intent>, fired: Ledger, now: int, i: nat)
    requires i < |intents|
    ensures DueAt(intents, fired, now, i) <==>
            && intents[i].schedule > 0
            && (intents[i].id !in fired || fired[intents[i].id] == 0 || fired[intents[i].id] > now + 3_600_000_000_000
                || now - fired[intents[i].id] >= intents[i].schedule)
    ensures EffectiveAt(intents, fired, now, i) ==
            if intents[i].id !in fired || fired[intents[i].id] > now + 3_600_000_000_000 then 0 else fired[intents[i].id]
  {
  }

  /** The pick: the least recently fired of the due ones, the earliest listed on
      a tie; none only when none is due. */
  ghost predicate IsPick(intents: seq<Intent>, fired: Ledger, now: int, r: Option<nat>) {
    match r
    case None => forall i: nat :: i < |intents| ==> !DueAt(intents, fired, now, i)
    case Some(p) =>
      && p < |intents| && DueAt(intents, fired, now, p)
      && forall j: nat :: j < |intents| && DueAt(intents, fired, now, j) ==>
           && EffectiveAt(intents, fired, now, p) <= EffectiveAt(intents, fired, now, j)
           && (j < p ==> EffectiveAt(intents, fired, now, p) < EffectiveAt(intents, fired, now, j))
  }

  lemma PickUnique(intents: seq<Intent>, fired: Ledger, now: int, r: Option<nat>, s: Option<nat>)
    requires IsPick(intents, fired, now, r) && IsPick(intents, fired, now, s)
    ensures r == s
  {
  }

  /** The pick among the first n. */
  function PickOf(intents: seq<Intent>, fired: Ledger, now: int, n: nat): (r: Option<nat>)
    requires n <= |intents|
    ensures r.Some? ==> r.value < n
  {
    if n == 0 then None
    else
      var r := PickOf(intents, fired, now, n - 1);
      if !DueAt(intents, fired, now, n - 1) then r
      else if r.None? || EffectiveAt(intents, fired, now, n - 1) < EffectiveAt(intents, fired, now, r.value) then Some(n - 1)
      else r
  }

  lemma {:induction false} PickOfBest(intents: seq<Intent>, fired: Ledger, now: int, n: nat)
    requires n <= |intents|
    ensures match PickOf(intents, fired, now, n)
            case None => forall i: nat :: i < n ==> !DueAt(intents, fired, now, i)
            case Some(p) =>
              && DueAt(intents, fired, now, p)
              && forall j: nat :: j < n && DueAt(intents, fired, now, j) ==>
                   && EffectiveAt(intents, fired, now, p) <= EffectiveAt(intents, fired, now, j)
                   && (j < p ==> EffectiveAt(intents, fired, now, p) < EffectiveAt(intents, fired, now, j))
  {
    hide DueAt, EffectiveAt;
    if n > 0 {
      PickOfBest(intents, fired, now, n - 1);
    }
  }

  function Pick(intents: seq<Intent>, fired: Ledger, now: int): Option<nat> {
    PickOf(intents, fired, now, |intents|)
  }

  lemma PickIsPick(intents: seq<Intent>, fired: Ledger, now: int)
    ensures IsPick(intents, fired, now, Pick(intents, fired, now))
  {
    PickOfBest(intents, fired, now, |intents|);
  }

  function Picked(intents: seq<Intent>, r: Option<nat>): Option<Intent>
    requires r.Some? ==> r.value < |intents|
  {
    if r.None? then None else Some(intents[r.value])
  }

  /** By itself an intent is picked exactly when it is due. */
  lemma AlonePickedIff(it: Intent, fired: Ledger, now: int)
    ensures Pick([it], fired, now) == Some(0) <==>
            && it.schedule > 0
            && (it.id !in fired || fired[it.id] == 0 || fired[it.id] > now + 3_600_000_000_000 || now - fired[it.id] >= it.schedule)
    ensures Pick([it], fired, now) != Some(0) ==> Pick([it], fired, now) == None
  {
    DueExactly([it], fired, now, 0);
    PickIsPick([it], fired, now);
  }

  /** dueIntent. It picks nothing exactly when nothing is due. */
  method DueIntent(intents: seq<Intent>, fired: Ledger, now: int) returns (pick: Option<Intent>)
    ensures pick.Some? <==> exists i: nat :: i < |intents| && var it := intents[i];
              && it.schedule > 0
              && (it.id !in fired || fired[it.id] == 0 || fired[it.id] > now + 3_600_000_000_000 || now - fired[it.id] >= it.schedule)
    ensures pick == Picked(intents, Pick(intents, fired, now))
    ensures forall r :: IsPick(intents, fired, now, r) ==> pick == Picked(intents, r)
    ensures exists r :: IsPick(intents, fired, now, r)
  {
    pick := None;
    var pickAt := 0;
    for i := 0 to |intents|
      invariant pick == Picked(intents, PickOf(intents, fired, now, i))
      invariant pick.Some? ==> pickAt == EffectiveAt(intents, fired, now, PickOf(intents, fired, now, i).value)
    {
      var it := intents[i];
      var last := EffectiveFiredAt(LastFired(fired, it.id), now);
      if IntentDue(it, last, now) && (pick.None? || last < pickAt) {
        pick, pickAt := Some(it), last;
      }
    }
    PickIsPick(intents, fired, now);
    forall i: nat | i < |intents|
      ensures DueAt(intents, fired, now, i) <==> var it := intents[i];
                && it.schedule > 0
                && (it.id !in fired || fired[it.id] == 0 || fired[it.id] > now + 3_600_000_000_000 || now - fired[it.id] >= it.schedule)
    {
      DueExactly(intents, fired, now, i);
    }
    forall r | IsPick(intents, fired, now, r)
      ensures r == Pick(intents, fired, now)
    {
      PickUnique(intents, fired, now, r, Pick(intents, fired, now));
    }
  }

  // ---- a run of ticks ----

  ghost predicate Increasing(ticks: seq<int>) {
    && (forall k :: 0 <= k < |ticks| ==> ticks[k] > 0)
    && forall j, k :: 0 <= j < k < |ticks| ==> ticks[j] < ticks[k]
  }

  ghost predicate IdsDistinct(intents: seq<Intent>) {
    forall i, j :: 0 <= i < j < |intents| ==> intents[i].id != intents[j].id
  }

  /** The ledger after the ticks, every pick recorded as fired at its tick. */
  function After(intents: seq<Intent>, fired: Ledger, ticks: seq<int>): Ledger {
    if ticks == [] then fired
    else
      var n := |ticks| - 1;
      var before := After(intents, fired, ticks[..n]);
      var p := Pick(intents, before, ticks[n]);
      if p.None? then before else before[intents[p.value].id := ticks[n]]
  }

  function PickAtTick(intents: seq<Intent>, fired: Ledger, ticks: seq<int>, k: nat): Option<nat>
    requires k < |ticks|
  {
    Pick(intents, After(intents, fired, ticks[..k]), ticks[k])
  }

  ghost predicate FiresWithin(intents: seq<Intent>, fired: Ledger, ticks: seq<int>, x: nat, n: nat) {
    exists k: nat :: k < n && k < |ticks| && PickAtTick(intents, fired, ticks, k) == Some(x)
  }

  function Scheduled(intents: seq<Intent>): set<nat> {
    set i: nat | i < |intents| && intents[i].schedule > 0
  }

  lemma AfterNext(intents: seq<Intent>, fired: Ledger, ticks: seq<int>, k: nat)
    requires k < |ticks|
    ensures After(intents, fired, ticks[..k + 1]) ==
            var before, p := After(intents, fired, ticks[..k]), PickAtTick(intents, fired, ticks, k);
            if p.None? then before else before[intents[p.value].id := ticks[k]]
  {
    assert ticks[..k + 1][..k] == ticks[..k];
  }

  // ---- fairness ----

  /** The intents fired in the first k ticks, all different, all since x. */
  ghost predicate Passed(intents: seq<Intent>, ledger: Ledger, x: nat, last: int, upTo: int, picked: set<nat>)
    requires x < |intents|
  {
    && picked <= Scheduled(intents) - {x}
    && LastFired(ledger, intents[x].id) == last
    && forall y <- picked :: last < LastFired(ledger, intents[y].id) <= upTo
  }

  lemma PassOne(intents: seq<Intent>, ledger: Ledger, x: nat, last: int, upTo: int, now: int, picked: set<nat>, y: nat)
    requires IdsDistinct(intents) && x < |intents| && y < |intents| && y != x
    requires Passed(intents, ledger, x, last, upTo, picked)
    requires upTo < now && 0 <= last < now && DueAt(intents, ledger, now, x)
    requires IsPick(intents, ledger, now, Some(y))
    ensures y !in picked && Passed(intents, ledger[intents[y].id := now], x, last, now, picked + {y})
  {
    assert intents[x].id != intents[y].id;
    assert EffectiveAt(intents, ledger, now, y) <= EffectiveAt(intents, ledger, now, x);
    assert EffectiveAt(intents, ledger, now, x) == last;
    forall z | z in picked + {y}
      ensures last < LastFired(ledger[intents[y].id := now], intents[z].id) <= now
    {
      assert z != y ==> intents[z].id != intents[y].id;
    }
  }

  /** Until x fires, every tick fires some other scheduled intent, never the same
      one twice. */
  lemma {:induction false} OthersFireOnce(intents: seq<Intent>, fired: Ledger, ticks: seq<int>, x: nat, k: nat) returns (picked: set<nat>)
    requires IdsDistinct(intents) && Increasing(ticks) && x < |intents| && k <= |ticks|
    requires ticks != [] && 0 <= LastFired(fired, intents[x].id) <= ticks[0] + SKEW && DueAt(intents, fired, ticks[0], x)
    requires !FiresWithin(intents, fired, ticks, x, k)
    ensures |picked| == k
    ensures Passed(intents, After(intents, fired, ticks[..k]), x, LastFired(fired, intents[x].id), if k == 0 then 0 else ticks[k - 1], picked)
  {
    hide IsPick, PickOf;
    picked := {};
    if k > 0 {
      picked := OthersFireOnce(intents, fired, ticks, x, k - 1);
      AfterNext(intents, fired, ticks, k - 1);
      var ledger, now, last := After(intents, fired, ticks[..k - 1]), ticks[k - 1], LastFired(fired, intents[x].id);
      assert DueAt(intents, ledger, now, x) && last < now;
      PickIsPick(intents, ledger, now);
      var p := PickAtTick(intents, fired, ticks, k - 1);
      SomethingDue(intents, ledger, now, x, p);
      var y := p.value;
      PassOne(intents, ledger, x, last, if k == 1 then 0 else ticks[k - 2], now, picked, y);
      picked := picked + {y};
    }
  }

  lemma SomethingDue(intents: seq<Intent>, ledger: Ledger, now: int, x: nat, p: Option<nat>)
    requires x < |intents| && DueAt(intents, ledger, now, x) && IsPick(intents, ledger, now, p)
    ensures p.Some? && p.value < |intents|
  {
  }

  lemma {:induction false} SubsetSmaller<T>(s: set<T>, t: set<T>)
    requires s <= t
    ensures |s| <= |t|
  {
    if s != {} {
      var x :| x in s;
      SubsetSmaller(s - {x}, t - {x});
    }
  }

  /** Nobody starves: an intent that is due, on a stamp the clock believes, fires
      within as many ticks as there are scheduled intents. */
  lemma DueFiresInTime(intents: seq<Intent>, fired: Ledger, ticks: seq<int>, x: nat)
    requires IdsDistinct(intents) && Increasing(ticks) && x < |intents|
    requires 1 <= |Scheduled(intents)| <= |ticks| && DueAt(intents, fired, ticks[0], x)
    requires 0 <= LastFired(fired, intents[x].id) <= ticks[0] + SKEW
    ensures FiresWithin(intents, fired, ticks, x, |Scheduled(intents)|)
  {
    var m := |Scheduled(intents)|;
    if !FiresWithin(intents, fired, ticks, x, m) {
      var picked := OthersFireOnce(intents, fired, ticks, x, m);
      assert x in Scheduled(intents);
      SubsetSmaller(picked, Scheduled(intents) - {x});
      assert false;
    }
  }

  // ---- a stamp from the future ----

  /** Some intent listed before x is due as never fired. */
  ghost predicate Preempted(intents: seq<Intent>, fired: Ledger, now: int, x: nat)
    requires x <= |intents|
  {
    exists y: nat :: y < x && intents[y].schedule > 0 && EffectiveAt(intents, fired, now, y) == 0
  }

  lemma FirstUnfiredPicked(intents: seq<Intent>, fired: Ledger, now: int, x: nat, p: Option<nat>)
    requires x < |intents| && DueAt(intents, fired, now, x) && IsPick(intents, fired, now, p)
    requires forall i: nat :: i < |intents| ==> LastFired(fired, intents[i].id) >= 0
    requires EffectiveAt(intents, fired, now, x) == 0 && !Preempted(intents, fired, now, x)
    ensures p == Some(x)
  {
  }

  /** A due intent whose stamp is not believed fires at once when no intent
      listed before it also reads as never fired. */
  lemma FirstUnfiredFires(intents: seq<Intent>, fired: Ledger, ticks: seq<int>, x: nat)
    requires ticks != [] && x < |intents| && DueAt(intents, fired, ticks[0], x)
    requires forall i: nat :: i < |intents| ==> LastFired(fired, intents[i].id) >= 0
    requires EffectiveAt(intents, fired, ticks[0], x) == 0 && !Preempted(intents, fired, ticks[0], x)
    ensures FiresWithin(intents, fired, ticks, x, 1)
  {
    PickIsPick(intents, fired, ticks[0]);
    assert ticks[..0] == [];
    assert PickAtTick(intents, fired, ticks, 0) == Pick(intents, fired, ticks[0]);
    FirstUnfiredPicked(intents, fired, ticks[0], x, Pick(intents, fired, ticks[0]));
  }

  /** The clock that strands x: right after the first tick it steps to where x's
      stamp is just believed, and then crawls. */
  function Stranding(start: int, stamp: int, n: nat): seq<int> {
    seq(n, k requires 0 <= k < n => if k == 0 then start else stamp - SKEW + k - 1)
  }

  lemma {:induction false} StrandedStays(intents: seq<Intent>, fired: Ledger, ticks: seq<int>, x: nat, k: nat)
    requires IdsDistinct(intents) && x < |intents| && ticks != [] && k <= |ticks|
    requires intents[x].schedule > 0 && LastFired(fired, intents[x].id) > ticks[0] + SKEW
    requires forall i: nat :: i < |intents| ==> LastFired(fired, intents[i].id) >= 0
    requires ticks[0] > 0 && Preempted(intents, fired, ticks[0], x)
    requires forall j :: 1 <= j < |ticks| ==> LastFired(fired, intents[x].id) - SKEW <= ticks[j] < LastFired(fired, intents[x].id)
    ensures !FiresWithin(intents, fired, ticks, x, k)
    ensures LastFired(After(intents, fired, ticks[..k]), intents[x].id) == LastFired(fired, intents[x].id)
  {
    hide PickOf;
    if k > 0 {
      StrandedStays(intents, fired, ticks, x, k - 1);
      AfterNext(intents, fired, ticks, k - 1);
      var ledger, now := After(intents, fired, ticks[..k - 1]), ticks[k - 1];
      PickIsPick(intents, ledger, now);
      var p := PickAtTick(intents, fired, ticks, k - 1);
      if k == 1 {
        assert ticks[..0] == [];
        var y: nat :| y < x && intents[y].schedule > 0 && EffectiveAt(intents, fired, now, y) == 0;
        assert DueAt(intents, fired, now, y);
      } else {
        assert !DueAt(intents, ledger, now, x);
      }
      assert p != Some(x);
      assert p.Some? ==> intents[p.value].id != intents[x].id;
    }
  }

  /** Within as many ticks as there are scheduled intents, whatever the clock. */
  ghost predicate AlwaysInTime(intents: seq<Intent>, fired: Ledger, start: int, x: nat) {
    forall ticks :: Increasing(ticks) && |ticks| >= 1 && ticks[0] == start && |ticks| >= |Scheduled(intents)| ==>
      FiresWithin(intents, fired, ticks, x, |Scheduled(intents)|)
  }

  /** The promise "a due intent fires within m ticks" holds exactly when its
      stamp is believed, or it is the first listed of those that read as never
      fired. Otherwise the clock can come to believe the stamp in between. */
  lemma DueFiresInTimeIff(intents: seq<Intent>, fired: Ledger, start: int, x: nat)
    requires IdsDistinct(intents) && x < |intents| && start > 0 && DueAt(intents, fired, start, x)
    requires forall i: nat :: i < |intents| ==> LastFired(fired, intents[i].id) >= 0
    requires |intents| <= SKEW
    ensures AlwaysInTime(intents, fired, start, x) <==>
            LastFired(fired, intents[x].id) <= start + SKEW || !Preempted(intents, fired, start, x)
  {
    hide FiresWithin, Preempted;
    var m, stamp := |Scheduled(intents)|, LastFired(fired, intents[x].id);
    assert x in Scheduled(intents) && m >= 1;
    ScheduledCount(intents);
    if stamp <= start + SKEW || !Preempted(intents, fired, start, x) {
      forall ticks | Increasing(ticks) && |ticks| >= 1 && ticks[0] == start && |ticks| >= m
        ensures FiresWithin(intents, fired, ticks, x, m)
      {
        if stamp <= start + SKEW {
          DueFiresInTime(intents, fired, ticks, x);
        } else {
          FirstUnfiredFires(intents, fired, ticks, x);
          WithinMore(intents, fired, ticks, x, 1, m);
        }
      }
    } else {
      var ticks := Stranding(start, stamp, m);
      StrandedStays(intents, fired, ticks, x, m);
      assert Increasing(ticks) && ticks[0] == start;
    }
  }

  lemma WithinMore(intents: seq<Intent>, fired: Ledger, ticks: seq<int>, x: nat, n: nat, m: nat)
    requires FiresWithin(intents, fired, ticks, x, n) && n <= m
    ensures FiresWithin(intents, fired, ticks, x, m)
  {
  }

  lemma {:induction false} ScheduledCount(intents: seq<Intent>)
    ensures |Scheduled(intents)| <= |intents|
  {
    if intents != [] {
      var n := |intents| - 1;
      ScheduledCount(intents[..n]);
      assert Scheduled(intents) == Scheduled(intents[..n]) + if intents[n].schedule > 0 then {n} else {};
    }
  }

  // ---- missed windows ----

  lemma {:induction false} RecordedUntilNext(intents: seq<Intent>, fired: Ledger, ticks: seq<int>, x: nat, j: nat, k: nat)
    requires IdsDistinct(intents) && x < |intents| && j < k <= |ticks|
    requires PickAtTick(intents, fired, ticks, j) == Some(x)
    requires forall i: nat :: j < i < k ==> PickAtTick(intents, fired, ticks, i) != Some(x)
    ensures LastFired(After(intents, fired, ticks[..k]), intents[x].id) == ticks[j]
  {
    hide PickOf;
    AfterNext(intents, fired, ticks, k - 1);
    if k > j + 1 {
      RecordedUntilNext(intents, fired, ticks, x, j, k - 1);
      PickIsPick(intents, After(intents, fired, ticks[..k - 1]), ticks[k - 1]);
    }
  }

  /** A missed stretch fires an intent once, however many windows it spans: two
      fires of one intent are always at least its schedule apart. */
  lemma FiresAreSpaced(intents: seq<Intent>, fired: Ledger, ticks: seq<int>, x: nat, j: nat, k: nat)
    requires IdsDistinct(intents) && Increasing(ticks) && x < |intents| && j < k < |ticks|
    requires PickAtTick(intents, fired, ticks, j) == Some(x) && PickAtTick(intents, fired, ticks, k) == Some(x)
    requires forall i: nat :: j < i < k ==> PickAtTick(intents, fired, ticks, i) != Some(x)
    ensures ticks[k] >= ticks[j] + intents[x].schedule
  {
    hide PickOf;
    RecordedUntilNext(intents, fired, ticks, x, j, k);
    PickIsPick(intents, After(intents, fired, ticks[..k]), ticks[k]);
  }

  lemma {:induction false} AfterSplits(intents: seq<Intent>, fired: Ledger, xs: seq<int>, ys: seq<int>)
    ensures After(intents, fired, xs + ys) == After(intents, After(intents, fired, xs), ys)
  {
    if ys == [] {
      assert xs + ys == xs;
    } else {
      var n := |ys| - 1;
      assert (xs + ys)[..|xs + ys| - 1] == xs + ys[..n];
      AfterSplits(intents, fired, xs, ys[..n]);
    }
  }

  /** And conversely: from the first tick at least its schedule after its last
      fire, an intent fires again within as many ticks as there are scheduled ones. */
  lemma FiresAgainInTime(intents: seq<Intent>, fired: Ledger, ticks: seq<int>, x: nat, j: nat, d: nat) returns (k: nat)
    requires IdsDistinct(intents) && Increasing(ticks) && x < |intents| && intents[x].schedule > 0
    requires j < d < |ticks| && d + |Scheduled(intents)| <= |ticks| && ticks[d] >= ticks[j] + intents[x].schedule
    requires PickAtTick(intents, fired, ticks, j) == Some(x)
    requires forall i: nat :: j < i < d ==> PickAtTick(intents, fired, ticks, i) != Some(x)
    ensures d <= k < d + |Scheduled(intents)| && PickAtTick(intents, fired, ticks, k) == Some(x)
  {
    hide PickOf;
    RecordedUntilNext(intents, fired, ticks, x, j, d);
    var ledger, rest := After(intents, fired, ticks[..d]), ticks[d..];
    assert x in Scheduled(intents);
    OneAtLeast(Scheduled(intents), x);
    assert rest[0] == ticks[d];
    DueExactly(intents, ledger, rest[0], x);
    DueFiresInTime(intents, ledger, rest, x);
    var m: nat :| m < |Scheduled(intents)| && m < |rest| && PickAtTick(intents, ledger, rest, m) == Some(x);
    k := d + m;
    assert ticks[..k] == ticks[..d] + rest[..m] && rest[m] == ticks[k];
    AfterSplits(intents, fired, ticks[..d], rest[..m]);
  }

  lemma OneAtLeast(s: set<nat>, x: nat)
    requires x in s
    ensures |s| >= 1
  {
  }
}
