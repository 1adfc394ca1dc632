/** Salvaging a red batch, on values: find the groups that verify green by
    probing blocks of groups and halving the red ones. */
module GroupSearch {
  import Combine

  // ---- specification of the search ----

  /** One probe: a block of group indices and its verdict. */
  datatype Probe = Probe(block: seq<nat>, ok: bool)

  /** What the n-th probe answers: any sequence of answers, so two probes of one
      block may disagree. */
  type Verdicts = nat -> bool

  datatype Search = Search(good: seq<nat>, log: seq<Probe>)

  /** A green block is kept whole; a red one is halved; a lone red is dropped. */
  function Split(v: Verdicts, s: seq<nat>, log: seq<Probe>): (r: Search)
    ensures log <= r.log
    ensures s != [] ==> |r.log| - |log| <= 2 * |s| - 1
    decreases |s|
  {
    if s == [] then Search([], log)
    else
      var ok := v(|log|);
      var log' := log + [Probe(s, ok)];
      if ok then Search(s, log')
      else if |s| == 1 then Search([], log')
      else
        var mid := |s| / 2;
        var l := Split(v, s[..mid], log');
        var r := Split(v, s[mid..], l.log);
        Search(l.good + r.good, r.log)
  }

  ghost predicate InGreenBlock(log: seq<Probe>, x: nat) {
    exists j :: 0 <= j < |log| && log[j].ok && x in log[j].block
  }

  ghost predicate LoneRed(log: seq<Probe>, x: nat) {
    exists j :: 0 <= j < |log| && !log[j].ok && log[j].block == [x]
  }

  ghost predicate Ascending(s: seq<nat>) {
    forall i, j :: 0 <= i < j < |s| ==> s[i] < s[j]
  }

  lemma LogGrows(log: seq<Probe>, log': seq<Probe>)
    requires log <= log'
    ensures forall x: nat :: InGreenBlock(log, x) ==> InGreenBlock(log', x)
    ensures forall x: nat :: LoneRed(log, x) ==> LoneRed(log', x)
  {
    forall x: nat | InGreenBlock(log, x)
      ensures InGreenBlock(log', x)
    {
      var j :| 0 <= j < |log| && log[j].ok && x in log[j].block;
      assert log'[j] == log[j];
    }
    forall x: nat | LoneRed(log, x)
      ensures LoneRed(log', x)
    {
      var j :| 0 <= j < |log| && !log[j].ok && log[j].block == [x];
      assert log'[j] == log[j];
    }
  }

  /** What the search keeps and drops of an ascending block. */
  ghost predicate Sifted(s: seq<nat>, r: Search) {
    && Ascending(r.good)
    && (forall x <- r.good :: x in s && InGreenBlock(r.log, x))
    && (forall x <- s :: x !in r.good ==> LoneRed(r.log, x))
  }

  /** Ascending, duplicate-free; every kept index inside a block that verified
      green, every dropped index a lone red. */
  lemma {:induction false} SplitSorts(v: Verdicts, s: seq<nat>, log: seq<Probe>)
    requires Ascending(s)
    ensures Sifted(s, Split(v, s, log))
    decreases |s|
  {
    if s != [] {
      var ok := v(|log|);
      var log' := log + [Probe(s, ok)];
      assert log'[|log|] == Probe(s, ok);
      if !ok && |s| > 1 {
        var mid := |s| / 2;
        var l := Split(v, s[..mid], log');
        var r := Split(v, s[mid..], l.log);
        SplitSorts(v, s[..mid], log');
        SplitSorts(v, s[mid..], l.log);
        LogGrows(l.log, r.log);
        SortedHalves(s, mid, l, r);
      }
    }
  }

  lemma SortedHalves(s: seq<nat>, mid: nat, l: Search, r: Search)
    requires Ascending(s) && mid <= |s|
    requires Sifted(s[..mid], l) && Sifted(s[mid..], r)
    requires forall x: nat :: InGreenBlock(l.log, x) ==> InGreenBlock(r.log, x)
    requires forall x: nat :: LoneRed(l.log, x) ==> LoneRed(r.log, x)
    ensures Sifted(s, Search(l.good + r.good, r.log))
  {
    var good := l.good + r.good;
    forall i, j | 0 <= i < j < |good|
      ensures good[i] < good[j]
    {
      if i < |l.good| && j >= |l.good| {
        assert good[i] in l.good && good[j] in r.good;
        var a :| 0 <= a < mid && s[a] == good[i];
        var b :| mid <= b < |s| && s[b] == good[j];
      }
    }
    assert s == s[..mid] + s[mid..];
  }

  const BISECT_ALONE_MAX := 6

  /** Each group probed alone, in order. */
  function Alone(v: Verdicts, k: nat, log: seq<Probe>): (r: Search)
    ensures log <= r.log && |r.log| == |log| + k
  {
    if k == 0 then Search([], log)
    else
      var before := Alone(v, k - 1, log);
      var ok := v(|before.log|);
      Search(before.good + if ok then [k - 1] else [], before.log + [Probe([k - 1], ok)])
  }

  function Indices(k: nat): seq<nat> {
    seq<nat>(k, i => i)
  }

  /** The search over k groups, known red together. */
  function GoodGroups(v: Verdicts, k: nat): (r: Search) {
    if k <= BISECT_ALONE_MAX then Alone(v, k, [])
    else
      var l := Split(v, Indices(k)[..k / 2], []);
      var r := Split(v, Indices(k)[k / 2..], l.log);
      Search(l.good + r.good, r.log)
  }

  /** Probes before the union check: k up to six groups, at most 2k-2 above. */
  lemma ProbeBound(v: Verdicts, k: nat)
    ensures k <= BISECT_ALONE_MAX ==> |GoodGroups(v, k).log| == k
    ensures k > BISECT_ALONE_MAX ==> |GoodGroups(v, k).log| <= 2 * k - 2
  {
  }

  lemma {:induction false} AloneSorts(v: Verdicts, k: nat)
    ensures Sifted(Indices(k), Alone(v, k, []))
  {
    if k > 0 {
      AloneSorts(v, k - 1);
      var before, r := Alone(v, k - 1, []), Alone(v, k, []);
      LogGrows(before.log, r.log);
      OneMore(k - 1, before, r);
    }
  }

  lemma OneMore(n: nat, before: Search, r: Search)
    requires Sifted(Indices(n), before) && before.log <= r.log && |r.log| == |before.log| + 1
    requires r.log[|before.log|].block == [n]
    requires r.good == before.good + if r.log[|before.log|].ok then [n] else []
    requires forall x: nat :: InGreenBlock(before.log, x) ==> InGreenBlock(r.log, x)
    requires forall x: nat :: LoneRed(before.log, x) ==> LoneRed(r.log, x)
    ensures Sifted(Indices(n + 1), r)
  {
    assert Indices(n + 1) == Indices(n) + [n];
    assert n in r.log[|before.log|].block;
    forall i | 0 <= i < |before.good|
      ensures before.good[i] < n
    {
      assert before.good[i] in before.good && before.good[i] in Indices(n);
    }
  }

  lemma GoodGroupsSorts(v: Verdicts, k: nat)
    ensures Sifted(Indices(k), GoodGroups(v, k))
  {
    if k <= BISECT_ALONE_MAX {
      AloneSorts(v, k);
    } else {
      var s, mid := Indices(k), k / 2;
      var l := Split(v, s[..mid], []);
      var r := Split(v, s[mid..], l.log);
      SplitSorts(v, s[..mid], []);
      SplitSorts(v, s[mid..], l.log);
      LogGrows(l.log, r.log);
      SortedHalves(s, mid, l, r);
    }
  }

  // ---- groups that do not interact ----

  ghost predicate AllGreen(block: seq<nat>, green: nat -> bool) {
    forall i <- block :: green(i)
  }

  /** Groups do not interact: a block probed green iff each of its groups is
      green by itself. */
  ghost predicate NonInteracting(log: seq<Probe>, green: nat -> bool) {
    forall probe <- log :: probe.ok <==> AllGreen(probe.block, green)
  }

  /** Then the search finds exactly the green groups, so no set of green groups
      is larger. */
  lemma LargestGreenSubset(v: Verdicts, k: nat, green: nat -> bool)
    requires NonInteracting(GoodGroups(v, k).log, green)
    ensures forall i: nat :: i in GoodGroups(v, k).good <==> i < k && green(i)
  {
    hide GoodGroups;
    var r := GoodGroups(v, k);
    GoodGroupsSorts(v, k);
    forall i: nat
      ensures i in r.good <==> i < k && green(i)
    {
      assert i in Indices(k) <==> i < k by {
        assert i < k ==> Indices(k)[i] == i;
      }
      if i in r.good {
        var j :| 0 <= j < |r.log| && r.log[j].ok && i in r.log[j].block;
        assert r.log[j] in r.log;
      } else if i < k {
        var j :| 0 <= j < |r.log| && !r.log[j].ok && r.log[j].block == [i];
        assert r.log[j] in r.log;
        var x :| x in r.log[j].block && !green(x);
        assert x == i;
      }
    }
  }

  // ---- few bad groups, few probes ----

  /** How many of the block's groups are not green. */
  function Reds(s: seq<nat>, green: nat -> bool): (n: nat)
    ensures n == 0 <==> AllGreen(s, green)
  {
    if s == [] then 0
    else
      assert s == s[..|s| - 1] + [s[|s| - 1]];
      Reds(s[..|s| - 1], green) + if green(s[|s| - 1]) then 0 else 1
  }

  lemma {:induction false} RedsConcat(a: seq<nat>, b: seq<nat>, green: nat -> bool)
    ensures Reds(a + b, green) == Reds(a, green) + Reds(b, green)
  {
    if b == [] {
      assert a + b == a;
    } else {
      assert (a + b)[..|a + b| - 1] == a + b[..|b| - 1];
      RedsConcat(a, b[..|b| - 1], green);
    }
  }

  lemma {:induction false} LevelsMonotone(m: nat, n: nat)
    requires m <= n
    ensures Combine.Levels(m) <= Combine.Levels(n)
  {
    if m > 1 {
      LevelsMonotone((m + 1) / 2, (n + 1) / 2);
    }
  }

  /** The halves of a block of n are one level down. */
  lemma HalvesBelow(n: nat, m: nat)
    requires n > 1 && m <= (n + 1) / 2
    ensures Combine.Levels(m) <= Combine.Levels(n) - 1
  {
    LevelsMonotone(m, (n + 1) / 2);
  }

  /** Probes down a tree of depth at most d with a reds left and b right. */
  lemma ProbeSum(a: nat, b: nat, l: nat, r: nat, d: nat)
    requires a + b >= 1 && l <= d && r <= d
    ensures 2 * a * l + 1 + 2 * b * r + 1 <= 2 * (a + b) * (d + 1)
  {
    assert a * l <= a * d && b * r <= b * d;
    assert (a + b) * (d + 1) == a * d + b * d + a + b;
  }

  lemma SomeNonInteract(some: seq<Probe>, all: seq<Probe>, green: nat -> bool)
    requires NonInteracting(all, green) && forall p <- some :: p in all
    ensures NonInteracting(some, green)
  {
  }

  lemma RedShows(log: seq<Probe>, s: seq<nat>, green: nat -> bool)
    requires NonInteracting(log, green) && Probe(s, false) in log
    ensures Reds(s, green) >= 1
  {
  }

  /** What a red block's two halves log, and what that says of them. */
  lemma HalvesLog(v: Verdicts, s: seq<nat>, log: seq<Probe>, green: nat -> bool)
    requires |s| > 1 && !v(|log|) && NonInteracting(Split(v, s, log).log[|log|..], green)
    ensures var log', mid := log + [Probe(s, false)], |s| / 2;
            var l := Split(v, s[..mid], log');
            var r := Split(v, s[mid..], l.log);
            && Split(v, s, log).log == r.log && |log| < |log'| <= |l.log| <= |r.log|
            && NonInteracting(l.log[|log'|..], green) && NonInteracting(r.log[|l.log|..], green)
            && Reds(s, green) == Reds(s[..mid], green) + Reds(s[mid..], green) >= 1
  {
    hide Split, Reds, NonInteracting;
    var log', mid := log + [Probe(s, false)], |s| / 2;
    var l := Split(v, s[..mid], log');
    var r := Split(v, s[mid..], l.log);
    SplitRed(v, s, log);
    var all := r.log[|log|..];
    assert all[0] == log'[|log|] == Probe(s, false);
    assert Probe(s, false) in all;
    RedShows(all, s, green);
    TailsOf(log, log', l.log, r.log);
    SomeNonInteract(l.log[|log'|..], all, green);
    SomeNonInteract(r.log[|l.log|..], all, green);
    assert s == s[..mid] + s[mid..];
    RedsConcat(s[..mid], s[mid..], green);
  }

  lemma OneProbe(v: Verdicts, s: seq<nat>, log: seq<Probe>, a: nat, b: nat)
    requires |s| <= 1 || v(|log|)
    ensures |Split(v, s, log).log| - |log| <= 1 <= 2 * a * b + 1
  {
    assert a * b >= 0;
  }

  /** When groups do not interact, searching a block costs at most two probes per
      bad group and level, and one more: logarithmic for a handful of bad groups. */
  lemma {:induction false} FewBadFewProbes(v: Verdicts, s: seq<nat>, log: seq<Probe>, green: nat -> bool)
    requires NonInteracting(Split(v, s, log).log[|log|..], green)
    ensures |Split(v, s, log).log| - |log| <= 2 * Reds(s, green) * Combine.Levels(|s|) + 1
    decreases |s|
  {
    hide Split, Reds, NonInteracting, Combine.Levels;
    if |s| <= 1 || v(|log|) {
      OneProbe(v, s, log, Reds(s, green), Combine.Levels(|s|));
    } else {
      HalvesLog(v, s, log, green);
      var log', mid := log + [Probe(s, false)], |s| / 2;
      var l := Split(v, s[..mid], log');
      FewBadFewProbes(v, s[..mid], log', green);
      FewBadFewProbes(v, s[mid..], l.log, green);
      HalvesBelow(|s|, mid);
      HalvesBelow(|s|, |s| - mid);
      ProbeSum(Reds(s[..mid], green), Reds(s[mid..], green), Combine.Levels(mid), Combine.Levels(|s| - mid), Combine.Levels(|s|) - 1);
    }
  }

  lemma TailsOf(a: seq<Probe>, b: seq<Probe>, c: seq<Probe>, d: seq<Probe>)
    requires a <= b <= c <= d
    ensures forall p <- c[|b|..] :: p in d[|a|..]
    ensures forall p <- d[|c|..] :: p in d[|a|..]
  {
    forall p | p in c[|b|..]
      ensures p in d[|a|..]
    {
      var k :| 0 <= k < |c[|b|..]| && c[|b|..][k] == p;
      assert d[|a|..][|b| - |a| + k] == p;
    }
    forall p | p in d[|c|..]
      ensures p in d[|a|..]
    {
      var k :| 0 <= k < |d[|c|..]| && d[|c|..][k] == p;
      assert d[|a|..][|c| - |a| + k] == p;
    }
  }

  /** Over all the groups, above six, known red together. */
  lemma FewBadGroups(v: Verdicts, k: nat, green: nat -> bool)
    requires k > 6 && NonInteracting(GoodGroups(v, k).log, green) && !AllGreen(Indices(k), green)
    ensures |GoodGroups(v, k).log| <= 2 * Reds(Indices(k), green) * Combine.Levels(k)
  {
    hide Split, Reds, NonInteracting, AllGreen, Combine.Levels;
    var s, mid := Indices(k), k / 2;
    var l := Split(v, s[..mid], []);
    var r := Split(v, s[mid..], l.log);
    assert GoodGroups(v, k).log == r.log;
    hide Indices, GoodGroups;
    TailsOf([], [], l.log, r.log);
    assert r.log[0..] == r.log && l.log[0..] == l.log;
    SomeNonInteract(l.log, r.log, green);
    SomeNonInteract(r.log[|l.log|..], r.log, green);
    FewBadFewProbes(v, s[..mid], [], green);
    FewBadFewProbes(v, s[mid..], l.log, green);
    assert s == s[..mid] + s[mid..];
    RedsConcat(s[..mid], s[mid..], green);
    HalvesBelow(k, mid);
    HalvesBelow(k, k - mid);
    ProbeSum(Reds(s[..mid], green), Reds(s[mid..], green), Combine.Levels(mid), Combine.Levels(k - mid), Combine.Levels(k) - 1);
  }

  // ---- the answers a search has read ----

  /** The answers recorded in a log. */
  function Replay(log: seq<Probe>): Verdicts {
    n => 0 <= n < |log| && log[n].ok
  }

  /** A search reads only the answers it logs. */
  lemma {:induction false} SplitReads(v: Verdicts, w: Verdicts, s: seq<nat>, log: seq<Probe>)
    requires forall n: nat :: n < |Split(v, s, log).log| ==> v(n) == w(n)
    ensures Split(v, s, log) == Split(w, s, log)
    decreases |s|
  {
    if s != [] {
      var log' := log + [Probe(s, v(|log|))];
      assert log' <= Split(v, s, log).log;
      if !v(|log|) && |s| > 1 {
        var l := Split(v, s[..|s| / 2], log');
        SplitReads(v, w, s[..|s| / 2], log');
        SplitReads(v, w, s[|s| / 2..], l.log);
      }
    }
  }

  lemma {:induction false} AloneReads(v: Verdicts, w: Verdicts, k: nat)
    requires forall n: nat :: n < k ==> v(n) == w(n)
    ensures Alone(v, k, []) == Alone(w, k, [])
  {
    if k > 0 {
      AloneReads(v, w, k - 1);
    }
  }

  lemma SplitGreen(v: Verdicts, s: seq<nat>, log: seq<Probe>)
    requires s != [] && v(|log|)
    ensures Split(v, s, log) == Search(s, log + [Probe(s, true)])
  {
  }

  lemma SplitLoneRed(v: Verdicts, s: seq<nat>, log: seq<Probe>)
    requires |s| == 1 && !v(|log|)
    ensures Split(v, s, log) == Search([], log + [Probe(s, false)])
  {
  }

  lemma SplitRed(v: Verdicts, s: seq<nat>, log: seq<Probe>)
    requires |s| > 1 && !v(|log|)
    ensures var l := Split(v, s[..|s| / 2], log + [Probe(s, false)]);
            var r := Split(v, s[|s| / 2..], l.log);
            Split(v, s, log) == Search(l.good + r.good, r.log)
  {
  }

  lemma SplitEmpty(v: Verdicts, log: seq<Probe>)
    ensures Split(v, [], log) == Search([], log)
  {
  }

  lemma {:induction false} GoodFits(v: Verdicts, s: seq<nat>, log: seq<Probe>)
    ensures |Split(v, s, log).good| <= |s|
    decreases |s|
  {
    if s != [] && !v(|log|) && |s| > 1 {
      var mid, log' := |s| / 2, log + [Probe(s, v(|log|))];
      GoodFits(v, s[..mid], log');
      GoodFits(v, s[mid..], Split(v, s[..mid], log').log);
    }
  }
}
