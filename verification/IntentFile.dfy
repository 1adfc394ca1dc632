/** Intent files: the key schema on top of the flat-file lexer, and the issue
    importer that prints what it reads back. */
module IntentFile {
  import opened Git
  import opened Seqs
  import opened GoText
  import opened FlatFile
  import opened Plan

  datatype IntentSpec = IntentSpec(id: string, goal: string, files: seq<string>, acceptance: string, priority: int, schedule: int, issue: int)

  datatype IntentError =
    | BadId
    | BadConfig(error: ConfigError)
    | Duplicate(line: nat)
    | BadValue(line: nat)
    | UnknownKey(line: nat)
    | GoalRequired

  /** time.ParseDuration: a positive length of time, or None. */
  type Durations = string -> Option<int>

  // ---- integers ----

  const MAX_INT := 0x7FFF_FFFF_FFFF_FFFF

  predicate IsDigit(c: char) {
    '0' <= c <= '9'
  }

  function DigitOf(n: nat): char
    requires n < 10
  {
    ['0', '1', '2', '3', '4', '5', '6', '7', '8', '9'][n]
  }

  function Digits(n: nat): (s: string)
    ensures s != "" && forall c <- s :: IsDigit(c)
  {
    if n < 10 then [DigitOf(n)] else Digits(n / 10) + [DigitOf(n % 10)]
  }

  function DigitValue(c: char): nat
    requires IsDigit(c)
  {
    c as int - '0' as int
  }

  function Value(s: string): nat
    requires forall c <- s :: IsDigit(c)
  {
    if s == "" then 0
    else
      assert s[|s| - 1] in s && IsDigit(s[|s| - 1]);
      10 * Value(s[..|s| - 1]) + DigitValue(s[|s| - 1])
  }

  lemma {:induction false} ValueOfDigits(n: nat)
    ensures Value(Digits(n)) == n
  {
    if n >= 10 {
      ValueOfDigits(n / 10);
      assert Digits(n)[..|Digits(n)| - 1] == Digits(n / 10);
    } else {
      assert Digits(n)[..0] == "";
    }
  }

  /** Digits weigh tens from the right. */
  lemma {:induction false} ValueConcat(s: string, t: string)
    requires forall c <- s :: IsDigit(c)
    requires forall c <- t :: IsDigit(c)
    ensures (forall c <- s + t :: IsDigit(c)) && Value(s + t) == Value(s) * Pow10(|t|) + Value(t)
  {
    if t == "" {
      assert s + t == s;
    } else {
      var t', c := t[..|t| - 1], t[|t| - 1];
      assert t == t' + [c] && s + t == s + t' + [c] && c in t;
      assert forall d <- t' :: d in t;
      ValueConcat(s, t');
      OneMoreDigit(t', c);
      OneMoreDigit(s + t', c);
      TimesTen(Value(s), Pow10(|t'|));
      hide Value;
    }
  }

  lemma OneMoreDigit(s: string, c: char)
    requires IsDigit(c) && forall d <- s :: IsDigit(d)
    ensures (forall d <- s + [c] :: IsDigit(d)) && Value(s + [c]) == 10 * Value(s) + DigitValue(c)
  {
    assert (s + [c])[..|s|] == s;
  }

  lemma TimesTen(a: nat, b: nat)
    ensures 10 * (a * b) == a * (10 * b)
  {
  }

  function Pow10(k: nat): nat {
    if k == 0 then 1 else 10 * Pow10(k - 1)
  }

  lemma OneDigit(c: char)
    requires IsDigit(c)
    ensures (forall d <- [c] :: IsDigit(d)) && Value([c]) == if c == '0' then 0 else if c == '1' then 1 else if c == '2' then 2 else if c == '3' then 3
            else if c == '4' then 4 else if c == '5' then 5 else if c == '6' then 6 else if c == '7' then 7 else if c == '8' then 8 else 9
  {
    assert [c][..0] == "";
  }

  /** strconv.Atoi: an optional sign, digits, within a 64-bit int. */
  function Atoi(s: string): Option<int> {
    var body := if s != "" && (s[0] == '+' || s[0] == '-') then s[1..] else s;
    if body == "" || exists c <- body :: !IsDigit(c) then None
    else
      var magnitude: int := Value(body);
      var n := if s[0] == '-' then -magnitude else magnitude;
      if -MAX_INT - 1 <= n <= MAX_INT then Some(n) else None
  }

  lemma AtoiOfDigits(n: nat)
    requires n <= MAX_INT
    ensures Atoi(Digits(n)) == Some(n) && Tight(Digits(n)) && Digits(n)[0] != '#'
  {
    ValueOfDigits(n);
    assert Digits(n)[0] in Digits(n) && Digits(n)[|Digits(n)| - 1] in Digits(n);
  }

  lemma {:induction false} LeadingZero(s: string)
    requires forall c <- s :: IsDigit(c)
    ensures (forall c <- "0" + s :: IsDigit(c)) && Value("0" + s) == Value(s)
  {
    var z := "0" + s;
    if s == "" {
      assert z[..0] == "";
    } else {
      assert z[..|z| - 1] == "0" + s[..|s| - 1];
      assert forall c <- s[..|s| - 1] :: c in s;
      LeadingZero(s[..|s| - 1]);
    }
  }

  /** One optional sign and then digits. */
  lemma AtoiIs(s: string, body: string)
    requires body != "" && forall c <- body :: IsDigit(c)
    requires s == body || s == "+" + body || s == "-" + body
    ensures var m: int := if s[0] == '-' then 0 - Value(body) else Value(body);
            Atoi(s) == if -9_223_372_036_854_775_808 <= m <= 9_223_372_036_854_775_807 then Some(m) else None
  {
    assert body[0] in body && IsDigit(body[0]);
    assert ("+" + body)[1..] == body && ("-" + body)[1..] == body;
    hide Value;
  }

  /** Signed numbers, leading zeros and all, within 64 bits. */
  lemma AtoiReads(n: nat)
    ensures Atoi(Digits(n)) == Atoi("+" + Digits(n)) == if n <= 9_223_372_036_854_775_807 then Some(n) else None
    ensures var m: int := 0 - (n as int); Atoi("-" + Digits(n)) == if n <= 9_223_372_036_854_775_808 then Some(m) else None
    ensures Atoi("0" + Digits(n)) == Atoi(Digits(n))
  {
    ValueOfDigits(n);
    LeadingZero(Digits(n));
    hide Atoi, Digits, Value;
    var s := Digits(n);
    assert s[0] in s && s[0] != '-';
    AtoiIs(s, s);
    AtoiIs("+" + s, s);
    AtoiIs("-" + s, s);
    AtoiIs("0" + s, "0" + s);
  }

  /** Only digits after at most one sign make a number. */
  lemma AtoiNeedsDigits(s: string)
    requires Atoi(s).Some?
    ensures s != "" && (IsDigit(s[0]) || (s[0] in "+-" && |s| > 1)) && forall k :: 1 <= k < |s| ==> IsDigit(s[k])
  {
    var body := if s != "" && (s[0] == '+' || s[0] == '-') then s[1..] else s;
    assert forall k :: 0 <= k < |body| ==> body[k] in body;
    assert body == s || (|s| == |body| + 1 && forall k :: 1 <= k < |s| ==> s[k] == body[k - 1]);
  }

  // ---- parsing ----

  /** What has been read so far. */
  datatype Reading = Reading(goal: seq<string>, files: seq<string>, acceptance: Option<string>, priority: Option<int>, schedule: Option<int>, issue: Option<int>)

  const NOTHING_READ := Reading([], [], None, None, None, None)

  const GOAL := "goal"
  const FILES := "files"
  const ACCEPTANCE := "acceptance"
  const PRIORITY := "priority"
  const SCHEDULE := "schedule"
  const ISSUE := "issue"

  function TrimHash(s: string): string {
    if s != "" && s[0] == '#' then s[1..] else s
  }

  function IssueOf(value: string): Option<int> {
    Atoi(TrimSpace(TrimHash(TrimSpace(value))))
  }

  /** The comma-separated paths, trimmed, empties dropped. */
  function PathsIn(parts: seq<string>): seq<string> {
    if parts == [] then []
    else
      var p := TrimSpace(parts[|parts| - 1]);
      PathsIn(parts[..|parts| - 1]) + if p != "" then [p] else []
  }

  /** Path lists are read piece by piece: trimmed, in order, blanks dropped. */
  lemma {:induction false} PathsRead(a: seq<string>, b: seq<string>, x: string)
    ensures PathsIn([x]) == if AllSpace(x) then [] else [TrimSpace(x)]
    ensures PathsIn(a + b) == PathsIn(a) + PathsIn(b)
  {
    TrimEmptyIffSpace(x);
    assert [x][..0] == [];
    if b == [] {
      assert a + b == a;
    } else {
      assert (a + b)[..|a + b| - 1] == a + b[..|b| - 1];
      PathsRead(a, b[..|b| - 1], x);
    }
  }

  /** Trimming a text with no space at its edges takes off just what is around it. */
  lemma TightTrims(left: string, s: string, right: string)
    requires AllSpace(left) && AllSpace(right) && s != "" && !IsSpace(s[0]) && !IsSpace(s[|s| - 1])
    ensures TrimSpace(left + s + right) == s && TrimSpace(s) == s && TrimSpace(left + s) == s
  {
    TrimPadded(left, s, right);
    TrimPadded("", s, "");
    TrimPadded(left, s, "");
    assert "" + s + "" == s && left + s + "" == left + s;
  }

  /** What is left of an issue value is read as a number. */
  lemma IssueIs(value: string, core: string, s: string)
    requires TrimSpace(value) == core && core != ""
    requires if core[0] == '#' then TrimSpace(core[1..]) == s else core == s && TrimSpace(s) == s
    ensures IssueOf(value) == Atoi(s)
  {
  }

  lemma NumberEdges(n: nat)
    ensures var s := Digits(n); s != "" && !IsSpace(s[0]) && !IsSpace(s[|s| - 1]) && s[0] != '#'
  {
    var s := Digits(n);
    assert s[0] in s && s[|s| - 1] in s;
  }

  /** An issue is its number, space around it or not... */
  lemma PlainIssueReads(left: string, n: nat, right: string)
    requires AllSpace(left) && AllSpace(right)
    ensures IssueOf(left + Digits(n) + right) == Atoi(Digits(n))
  {
    NumberEdges(n);
    hide TrimSpace, Digits, Atoi, IsSpace, AllSpace, IssueOf;
    TightTrims(left, Digits(n), right);
    IssueIs(left + Digits(n) + right, Digits(n), Digits(n));
  }

  /** ...with one '#' before it or not... */
  lemma HashedIssueReads(left: string, gap: string, n: nat, right: string)
    requires AllSpace(left) && AllSpace(gap) && AllSpace(right)
    ensures IssueOf(left + ("#" + gap + Digits(n)) + right) == Atoi(Digits(n))
  {
    NumberEdges(n);
    HashIsNoSpace();
    hide TrimSpace, Digits, Atoi, IsSpace, AllSpace, IssueOf;
    var s := Digits(n);
    var hashed := "#" + gap + s;
    assert hashed[0] == '#' && hashed[|hashed| - 1] == s[|s| - 1] && hashed[1..] == gap + s;
    TightTrims(left, hashed, right);
    TightTrims(gap, s, right);
    IssueIs(left + hashed + right, hashed, s);
  }

  /** ...but not with two. */
  lemma TwoHashesRefused(n: nat)
    ensures IssueOf("##" + Digits(n)).None?
  {
    NumberEdges(n);
    HashIsNoSpace();
    hide TrimSpace, Digits, Atoi, IsSpace, AllSpace, IssueOf;
    var s := Digits(n);
    var once, twice := "#" + s, "##" + s;
    assert once[0] == '#' && once[|once| - 1] == s[|s| - 1];
    assert twice[0] == '#' && twice[|twice| - 1] == s[|s| - 1] && twice[1..] == once;
    assert AllSpace("") by {
      NoSpaceIsAllSpace();
    }
    TightTrims("", once, "");
    TightTrims("", twice, "");
    IssueIs(twice, twice, once);
    if Atoi(once).Some? {
      AtoiNeedsDigits(once);
    }
  }

  lemma NoSpaceIsAllSpace()
    ensures AllSpace("")
  {
  }

  lemma HashIsNoSpace()
    ensures !IsSpace('#')
  {
  }

  function ReadEntry(durations: Durations, r: Reading, e: ConfigEntry): Result<Reading, IntentError> {
    if e.key == GOAL then Ok(r.(goal := r.goal + [e.value]))
    else if e.key == FILES then
      var paths := PathsIn(Split(e.value, ','));
      if paths == [] || exists p <- paths :: !RelSafe(p) then Err(BadValue(e.line)) else Ok(r.(files := r.files + paths))
    else if e.key == ACCEPTANCE then
      if r.acceptance.Some? then Err(Duplicate(e.line))
      else if TrimSpace(e.value) == "" then Err(BadValue(e.line))
      else Ok(r.(acceptance := Some(e.value)))
    else if e.key == PRIORITY then
      if r.priority.Some? then Err(Duplicate(e.line))
      else if Atoi(TrimSpace(e.value)).None? then Err(BadValue(e.line))
      else Ok(r.(priority := Atoi(TrimSpace(e.value))))
    else if e.key == SCHEDULE then
      if r.schedule.Some? then Err(Duplicate(e.line))
      else
        var d := durations(TrimSpace(e.value));
        if d.None? || d.value <= 0 then Err(BadValue(e.line)) else Ok(r.(schedule := d))
    else if e.key == ISSUE then
      if r.issue.Some? then Err(Duplicate(e.line))
      else
        var n := IssueOf(e.value);
        if n.None? || n.value <= 0 then Err(BadValue(e.line)) else Ok(r.(issue := n))
    else Err(UnknownKey(e.line))
  }

  function ReadEntries(durations: Durations, entries: seq<ConfigEntry>): Result<Reading, IntentError> {
    if entries == [] then Ok(NOTHING_READ)
    else
      var before := ReadEntries(durations, entries[..|entries| - 1]);
      if before.Err? then before else ReadEntry(durations, before.value, entries[|entries| - 1])
  }

  function OrZero(n: Option<int>): int {
    if n.Some? then n.value else 0
  }

  function Finish(id: string, r: Reading): Result<IntentSpec, IntentError> {
    var goal := TrimSpace(JoinWith(r.goal, '\n'));
    if goal == "" then Err(GoalRequired)
    else
      Ok(IntentSpec(id, goal, r.files, if r.acceptance.Some? then r.acceptance.value else "",
                    OrZero(r.priority), OrZero(r.schedule), OrZero(r.issue)))
  }

  /** What a file with these entries says. */
  function IntentOf(durations: Durations, id: string, read: Result<seq<ConfigEntry>, ConfigError>): Result<IntentSpec, IntentError> {
    if !SlugSafe(id) then Err(BadId)
    else if read.Err? then Err(BadConfig(read.error))
    else
      var r := ReadEntries(durations, read.value);
      if r.Err? then Err(r.error) else Finish(id, r.value)
  }

  lemma {:induction false} FirstErrorWins(durations: Durations, entries: seq<ConfigEntry>, i: nat)
    requires i <= |entries|
    ensures ReadEntries(durations, entries[..i]).Err? ==> ReadEntries(durations, entries) == ReadEntries(durations, entries[..i])
  {
    hide ReadEntry;
    if i < |entries| {
      var n := |entries| - 1;
      assert entries[..n][..i] == entries[..i];
      FirstErrorWins(durations, entries[..n], i);
    } else {
      assert entries[..i] == entries;
    }
  }

  lemma OneMoreEntry(durations: Durations, entries: seq<ConfigEntry>, i: nat)
    requires i < |entries| && ReadEntries(durations, entries[..i]).Ok?
    ensures ReadEntries(durations, entries[..i + 1]) == ReadEntry(durations, ReadEntries(durations, entries[..i]).value, entries[i])
    ensures ReadEntries(durations, entries[..i + 1]).Err? ==> ReadEntries(durations, entries) == ReadEntries(durations, entries[..i + 1])
  {
    hide ReadEntry;
    assert entries[..i + 1][..i] == entries[..i];
    FirstErrorWins(durations, entries, i + 1);
  }

  // ---- what is accepted, and what it means ----

  /** The values given to a key, in order. */
  function ValuesOf(key: string, entries: seq<ConfigEntry>): seq<string> {
    if entries == [] then []
    else
      var n := |entries| - 1;
      ValuesOf(key, entries[..n]) + if entries[n].key == key then [entries[n].value] else []
  }

  /** The files the entries list, in order. */
  function FilesOf(entries: seq<ConfigEntry>): seq<string> {
    if entries == [] then []
    else
      var n := |entries| - 1;
      FilesOf(entries[..n]) + if entries[n].key == FILES then FilesIn(entries[n].value) else []
  }

  lemma ValuesSnoc(key: string, entries: seq<ConfigEntry>, e: ConfigEntry)
    ensures ValuesOf(key, entries + [e]) == ValuesOf(key, entries) + if e.key == key then [e.value] else []
  {
    assert (entries + [e])[..|entries|] == entries;
  }

  function ScheduleOf(durations: Durations, value: string): Option<int> {
    durations(TrimSpace(value))
  }

  predicate Positive(n: Option<int>) {
    n.Some? && n.value > 0
  }

  function FilesIn(value: string): seq<string> {
    PathsIn(Split(value, ','))
  }

  /** A known key with a value of its kind. */
  predicate GoodEntry(durations: Durations, e: ConfigEntry) {
    if e.key == GOAL then true
    else if e.key == FILES then FilesIn(e.value) != [] && forall p <- FilesIn(e.value) :: RelSafe(p)
    else if e.key == ACCEPTANCE then TrimSpace(e.value) != ""
    else if e.key == PRIORITY then Atoi(TrimSpace(e.value)).Some?
    else if e.key == SCHEDULE then Positive(ScheduleOf(durations, e.value))
    else e.key == ISSUE && Positive(IssueOf(e.value))
  }

  predicate Scalar(key: string) {
    key == ACCEPTANCE || key == PRIORITY || key == SCHEDULE || key == ISSUE
  }

  /** Only known keys with good values, and no scalar twice. */
  ghost predicate WellFormedEntries(durations: Durations, entries: seq<ConfigEntry>) {
    && (forall k :: 0 <= k < |entries| ==> GoodEntry(durations, entries[k]))
    && forall key :: Scalar(key) ==> |ValuesOf(key, entries)| <= 1
  }

  /** The value of a key given at most once. */
  function ValueOf(key: string, entries: seq<ConfigEntry>): Option<string> {
    var values := ValuesOf(key, entries);
    if values == [] then None else Some(values[0])
  }

  function PriorityIn(entries: seq<ConfigEntry>): Option<int> {
    var v := ValueOf(PRIORITY, entries);
    if v.None? then None else Atoi(TrimSpace(v.value))
  }

  function ScheduleIn(durations: Durations, entries: seq<ConfigEntry>): Option<int> {
    var v := ValueOf(SCHEDULE, entries);
    if v.None? then None else ScheduleOf(durations, v.value)
  }

  function IssueIn(entries: seq<ConfigEntry>): Option<int> {
    var v := ValueOf(ISSUE, entries);
    if v.None? then None else IssueOf(v.value)
  }

  /** The reading holds exactly what the entries give. */
  ghost predicate Holds(durations: Durations, entries: seq<ConfigEntry>, r: Reading) {
    && r.goal == ValuesOf(GOAL, entries)
    && r.files == FilesOf(entries) && (forall p <- r.files :: RelSafe(p))
    && r.acceptance == ValueOf(ACCEPTANCE, entries)
    && r.priority == PriorityIn(entries) && (r.priority.None? <==> ValueOf(PRIORITY, entries).None?)
    && r.schedule == ScheduleIn(durations, entries) && (r.schedule.None? <==> ValueOf(SCHEDULE, entries).None?)
    && r.issue == IssueIn(entries) && (r.issue.None? <==> ValueOf(ISSUE, entries).None?)
    && (r.schedule.Some? ==> r.schedule.value > 0) && (r.issue.Some? ==> r.issue.value > 0)
  }

  /** Whether the next entry is one too many of its key. */
  predicate Taken(r: Reading, key: string) {
    || (key == ACCEPTANCE && r.acceptance.Some?) || (key == PRIORITY && r.priority.Some?)
    || (key == SCHEDULE && r.schedule.Some?) || (key == ISSUE && r.issue.Some?)
  }

  lemma EntryAccepted(durations: Durations, r: Reading, e: ConfigEntry)
    ensures ReadEntry(durations, r, e).Ok? <==> GoodEntry(durations, e) && !Taken(r, e.key)
    ensures ReadEntry(durations, r, e).Ok? ==>
              ReadEntry(durations, r, e).value ==
              if e.key == GOAL then r.(goal := r.goal + [e.value])
              else if e.key == FILES then r.(files := r.files + FilesIn(e.value))
              else if e.key == ACCEPTANCE then r.(acceptance := Some(e.value))
              else if e.key == PRIORITY then r.(priority := Atoi(TrimSpace(e.value)))
              else if e.key == SCHEDULE then r.(schedule := ScheduleOf(durations, e.value))
              else r.(issue := IssueOf(e.value))
  {
    hide TrimSpace, Atoi, IssueOf, RelSafe, PathsIn, Split;
  }

  lemma ValueSnoc(key: string, entries: seq<ConfigEntry>, e: ConfigEntry)
    ensures ValueOf(key, entries).None? <==> ValuesOf(key, entries) == []
    ensures e.key != key ==> ValueOf(key, entries + [e]) == ValueOf(key, entries)
    ensures e.key == key && ValuesOf(key, entries) == [] ==> ValueOf(key, entries + [e]) == Some(e.value)
  {
    hide ValuesOf;
    ValuesSnoc(key, entries, e);
    assert ValuesOf(key, entries) + [] == ValuesOf(key, entries);
  }

  lemma ScalarsSnoc(durations: Durations, entries: seq<ConfigEntry>, e: ConfigEntry)
    ensures e.key != PRIORITY ==> PriorityIn(entries + [e]) == PriorityIn(entries)
    ensures e.key != SCHEDULE ==> ScheduleIn(durations, entries + [e]) == ScheduleIn(durations, entries)
    ensures e.key != ISSUE ==> IssueIn(entries + [e]) == IssueIn(entries)
    ensures e.key == PRIORITY && ValuesOf(PRIORITY, entries) == [] ==> PriorityIn(entries + [e]) == Atoi(TrimSpace(e.value))
    ensures e.key == SCHEDULE && ValuesOf(SCHEDULE, entries) == [] ==> ScheduleIn(durations, entries + [e]) == ScheduleOf(durations, e.value)
    ensures e.key == ISSUE && ValuesOf(ISSUE, entries) == [] ==> IssueIn(entries + [e]) == IssueOf(e.value)
  {
    hide ValuesOf, ValueOf, Atoi, TrimSpace, ScheduleOf, IssueOf;
    ValueSnoc(PRIORITY, entries, e);
    ValueSnoc(SCHEDULE, entries, e);
    ValueSnoc(ISSUE, entries, e);
  }

  lemma TextSnoc(entries: seq<ConfigEntry>, e: ConfigEntry)
    ensures ValuesOf(GOAL, entries + [e]) == if e.key == GOAL then ValuesOf(GOAL, entries) + [e.value] else ValuesOf(GOAL, entries)
    ensures FilesOf(entries + [e]) == if e.key == FILES then FilesOf(entries) + FilesIn(e.value) else FilesOf(entries)
  {
    hide ValuesOf, FilesIn;
    ValuesSnoc(GOAL, entries, e);
    assert (entries + [e])[..|entries|] == entries;
    assert FilesOf(entries) + [] == FilesOf(entries) && ValuesOf(GOAL, entries) + [] == ValuesOf(GOAL, entries);
  }

  lemma KeysDiffer()
    ensures GOAL != FILES && GOAL != ACCEPTANCE && GOAL != PRIORITY && GOAL != SCHEDULE && GOAL != ISSUE
    ensures FILES != ACCEPTANCE && FILES != PRIORITY && FILES != SCHEDULE && FILES != ISSUE
    ensures ACCEPTANCE != PRIORITY && ACCEPTANCE != SCHEDULE && ACCEPTANCE != ISSUE
    ensures PRIORITY != SCHEDULE && PRIORITY != ISSUE && SCHEDULE != ISSUE
  {
    assert |GOAL| == 4 && |FILES| == 5 && |ISSUE| == 5 && |ACCEPTANCE| == 10 && |PRIORITY| == 8 && |SCHEDULE| == 8;
    assert FILES[0] == 'f' && ISSUE[0] == 'i' && PRIORITY[0] == 'p' && SCHEDULE[0] == 's';
  }

  /** An accepted entry keeps the reading what the entries give. */
  lemma HoldsNext(durations: Durations, entries: seq<ConfigEntry>, r: Reading, e: ConfigEntry)
    requires Holds(durations, entries, r) && ReadEntry(durations, r, e).Ok?
    ensures Holds(durations, entries + [e], ReadEntry(durations, r, e).value)
  {
    KeysDiffer();
    EntryAccepted(durations, r, e);
    TextSnoc(entries, e);
    ValueSnoc(ACCEPTANCE, entries, e);
    ValueSnoc(PRIORITY, entries, e);
    ValueSnoc(SCHEDULE, entries, e);
    ValueSnoc(ISSUE, entries, e);
    ScalarsSnoc(durations, entries, e);
    hide ReadEntry, TrimSpace, Atoi, IssueOf, RelSafe, ScheduleOf, FilesIn, ValuesOf, ValueOf, FilesOf, PriorityIn, ScheduleIn, IssueIn,
         GOAL, FILES, ACCEPTANCE, PRIORITY, SCHEDULE, ISSUE;
  }

  /** An entry is one too many exactly when its scalar key was given before. */
  lemma TakenIff(durations: Durations, entries: seq<ConfigEntry>, r: Reading, e: ConfigEntry)
    requires Holds(durations, entries, r)
    ensures Taken(r, e.key) <==> Scalar(e.key) && ValuesOf(e.key, entries) != []
  {
    KeysDiffer();
    ValueSnoc(e.key, entries, e);
    hide ValuesOf, ValueOf, FilesOf, PriorityIn, ScheduleIn, IssueIn, RelSafe, GOAL, FILES, ACCEPTANCE, PRIORITY, SCHEDULE, ISSUE;
  }

  lemma WellFormedSnoc(durations: Durations, entries: seq<ConfigEntry>, e: ConfigEntry)
    ensures WellFormedEntries(durations, entries + [e]) <==>
            WellFormedEntries(durations, entries) && GoodEntry(durations, e) && (Scalar(e.key) ==> ValuesOf(e.key, entries) == [])
  {
    hide GoodEntry, ValuesOf, Scalar;
    var all := entries + [e];
    forall key
      ensures ValuesOf(key, all) == ValuesOf(key, entries) + if e.key == key then [e.value] else []
    {
      ValuesSnoc(key, entries, e);
    }
    if WellFormedEntries(durations, all) {
      forall k | 0 <= k < |entries|
        ensures GoodEntry(durations, entries[k])
      {
        assert GoodEntry(durations, all[k]);
      }
      assert GoodEntry(durations, all[|entries|]);
      forall key | Scalar(key)
        ensures |ValuesOf(key, entries)| <= 1
      {
        assert |ValuesOf(key, all)| <= 1;
      }
      assert Scalar(e.key) ==> |ValuesOf(e.key, all)| <= 1;
    }
  }

  /** The entries read iff they are well formed, and then to what they give. */
  lemma {:induction false} EntriesReadIff(durations: Durations, entries: seq<ConfigEntry>)
    ensures ReadEntries(durations, entries).Ok? <==> WellFormedEntries(durations, entries)
    ensures ReadEntries(durations, entries).Ok? ==> Holds(durations, entries, ReadEntries(durations, entries).value)
  {
    if entries == [] {
      NothingHolds(durations);
    } else {
      hide ReadEntry, WellFormedEntries, Holds, GoodEntry, Taken, Scalar, ValuesOf;
      var n := |entries| - 1;
      var front, e := entries[..n], entries[n];
      assert entries == front + [e];
      EntriesReadIff(durations, front);
      WellFormedSnoc(durations, front, e);
      if ReadEntries(durations, front).Ok? {
        var r := ReadEntries(durations, front).value;
        EntryAccepted(durations, r, e);
        TakenIff(durations, front, r, e);
        if ReadEntry(durations, r, e).Ok? {
          HoldsNext(durations, front, r, e);
        }
      }
    }
  }

  /** What is wrong with the first entry that cannot be taken, and its line. */
  lemma FirstBadEntry(durations: Durations, entries: seq<ConfigEntry>, k: nat)
    requires k < |entries| && WellFormedEntries(durations, entries[..k]) && !WellFormedEntries(durations, entries[..k + 1])
    ensures var e := entries[k];
            ReadEntries(durations, entries) == Err(
              if e.key !in {"goal", "files", "acceptance", "priority", "schedule", "issue"} then UnknownKey(e.line)
              else if e.key in {"acceptance", "priority", "schedule", "issue"} && ValuesOf(e.key, entries[..k]) != [] then Duplicate(e.line)
              else BadValue(e.line))
  {
    hide ReadEntries, WellFormedEntries, Holds, ValuesOf;
    var front, e := entries[..k], entries[k];
    EntriesReadIff(durations, front);
    EntriesReadIff(durations, entries[..k + 1]);
    OneMoreEntry(durations, entries, k);
    var r := ReadEntries(durations, front).value;
    TakenIff(durations, front, r, e);
    hide TrimSpace, Atoi, IssueOf, RelSafe;
    KeysDiffer();
  }

  lemma NothingHolds(durations: Durations)
    ensures WellFormedEntries(durations, []) && Holds(durations, [], NOTHING_READ)
  {
  }

  /** The whole file is acceptable: a usable id, well-formed entries, a goal. */
  ghost predicate Acceptable(durations: Durations, id: string, entries: seq<ConfigEntry>) {
    SlugSafe(id) && WellFormedEntries(durations, entries) && TrimSpace(JoinWith(ValuesOf(GOAL, entries), '\n')) != ""
  }

  /** What an accepted file says: the trimmed goal lines, every file a safe path,
      each scalar as its one entry gives it, schedule and issue positive if given. */
  ghost predicate Says(durations: Durations, id: string, entries: seq<ConfigEntry>, it: IntentSpec) {
    && it.id == id && it.goal == TrimSpace(JoinWith(ValuesOf(GOAL, entries), '\n')) && it.goal != ""
    && it.files == FilesOf(entries) && (forall p <- it.files :: RelSafe(p))
    && it.acceptance == (if ValueOf(ACCEPTANCE, entries).Some? then ValueOf(ACCEPTANCE, entries).value else "")
    && it.priority == OrZero(PriorityIn(entries))
    && it.schedule == OrZero(ScheduleIn(durations, entries)) && (ValueOf(SCHEDULE, entries).Some? ==> it.schedule > 0)
    && it.issue == OrZero(IssueIn(entries)) && (ValueOf(ISSUE, entries).Some? ==> it.issue > 0)
  }

  /** A file is accepted iff it is acceptable, and then it says just that. */
  lemma AcceptedIff(durations: Durations, id: string, entries: seq<ConfigEntry>)
    ensures IntentOf(durations, id, Ok(entries)).Ok? <==> Acceptable(durations, id, entries)
    ensures IntentOf(durations, id, Ok(entries)).Ok? ==> Says(durations, id, entries, IntentOf(durations, id, Ok(entries)).value)
  {
    hide ReadEntries, WellFormedEntries, SlugSafe, RelSafe, TrimSpace, JoinWith, ValuesOf, ValueOf, FilesOf, PriorityIn, ScheduleIn, IssueIn;
    EntriesReadIff(durations, entries);
  }

  /** parseIntent. */
  method ParseIntent(durations: Durations, data: string, id: string) returns (r: Result<IntentSpec, IntentError>)
    ensures r == IntentOf(durations, id, ReadLines(Split(data, '\n')))
    ensures r.Ok? <==> ReadLines(Split(data, '\n')).Ok? && Acceptable(durations, id, ReadLines(Split(data, '\n')).value)
    ensures r.Ok? ==> Says(durations, id, ReadLines(Split(data, '\n')).value, r.value)
  {
    if ReadLines(Split(data, '\n')).Ok? {
      AcceptedIff(durations, id, ReadLines(Split(data, '\n')).value);
    }
    hide Acceptable, Says;
    hide ReadLines, ReadEntries, ReadEntry, Split, SlugSafe, TrimSpace;
    if !SlugSafe(id) {
      return Err(BadId);
    }
    var entries := ParseConfigFile(data);
    if entries.Err? {
      return Err(BadConfig(entries.error));
    }
    var reading := NOTHING_READ;
    NoEntries(durations, entries.value);
    for i := 0 to |entries.value|
      invariant ReadEntries(durations, entries.value[..i]) == Ok(reading)
    {
      OneMoreEntry(durations, entries.value, i);
      var next := TakeEntry(durations, reading, entries.value[i]);
      if next.Err? {
        return Err(next.error);
      }
      reading := next.value;
    }
    assert entries.value[..|entries.value|] == entries.value;
    r := Finish(id, reading);
  }

  lemma NoEntries(durations: Durations, entries: seq<ConfigEntry>)
    ensures ReadEntries(durations, entries[..0]) == Ok(NOTHING_READ)
  {
  }

  /** One entry, by key. */
  method TakeEntry(durations: Durations, r: Reading, e: ConfigEntry) returns (next: Result<Reading, IntentError>)
    ensures next == ReadEntry(durations, r, e)
  {
    hide TrimSpace, Atoi, RelSafe, Split, IssueOf;
    KeysDiffer();
    if e.key == GOAL {
      return Ok(r.(goal := r.goal + [e.value]));
    } else if e.key == FILES {
      next := TakeFiles(r, e);
      return;
    } else if e.key == ACCEPTANCE {
      if r.acceptance.Some? {
        return Err(Duplicate(e.line));
      }
      if TrimSpace(e.value) == "" {
        return Err(BadValue(e.line));
      }
      return Ok(r.(acceptance := Some(e.value)));
    } else if e.key == PRIORITY {
      if r.priority.Some? {
        return Err(Duplicate(e.line));
      }
      var n := Atoi(TrimSpace(e.value));
      return if n.None? then Err(BadValue(e.line)) else Ok(r.(priority := n));
    } else if e.key == SCHEDULE {
      if r.schedule.Some? {
        return Err(Duplicate(e.line));
      }
      var d := durations(TrimSpace(e.value));
      return if d.None? || d.value <= 0 then Err(BadValue(e.line)) else Ok(r.(schedule := d));
    } else if e.key == ISSUE {
      if r.issue.Some? {
        return Err(Duplicate(e.line));
      }
      var n := IssueOf(e.value);
      return if n.None? || n.value <= 0 then Err(BadValue(e.line)) else Ok(r.(issue := n));
    }
    return Err(UnknownKey(e.line));
  }

  /** The paths of one entry, checked one at a time. */
  method TakeFiles(r: Reading, e: ConfigEntry) returns (next: Result<Reading, IntentError>)
    ensures next == if PathsIn(Split(e.value, ',')) == [] || exists p <- PathsIn(Split(e.value, ',')) :: !RelSafe(p) then Err(BadValue(e.line))
                    else Ok(r.(files := r.files + PathsIn(Split(e.value, ','))))
  {
    hide TrimSpace, RelSafe, Split;
    var paths := SplitCSV(e.value);
    if |paths| == 0 {
      return Err(BadValue(e.line));
    }
    var files := r.files;
    for i := 0 to |paths|
      invariant forall k :: 0 <= k < i ==> RelSafe(paths[k])
      invariant files == r.files + paths[..i]
    {
      if !RelSafe(paths[i]) {
        assert paths[i] in paths;
        return Err(BadValue(e.line));
      }
      files := files + [paths[i]];
    }
    assert paths[..|paths|] == paths;
    return Ok(r.(files := files));
  }

  method SplitCSV(s: string) returns (paths: seq<string>)
    ensures paths == PathsIn(Split(s, ','))
  {
    hide TrimSpace, Split;
    var parts := Split(s, ',');
    paths := [];
    for i := 0 to |parts|
      invariant paths == PathsIn(parts[..i])
    {
      assert parts[..i + 1][..i] == parts[..i];
      var p := TrimSpace(parts[i]);
      if p != "" {
        paths := paths + [p];
      }
    }
    assert parts[..|parts|] == parts;
  }

  // ---- importing an issue ----

  datatype Issue = Issue(number: nat, title: string, body: string)

  function ImportedId(number: nat): string {
    "issue-" + Digits(number)
  }

  function GoalLine(line: string): string {
    "goal" + " = " + TrimCR(line)
  }

  function IssueText(iss: Issue): seq<string> {
    [iss.title, ""] + Split(iss.body, '\n')
  }

  function GoalLines(lines: seq<string>): seq<string> {
    seq(|lines|, k requires 0 <= k < |lines| => GoalLine(lines[k]))
  }

  const IMPORTED_FROM := ".intent \U{2014} imported from GitHub issue #"

  const BY_IMPORT := " by `sig intent import-github`."

  const EDIT_FREELY := " Edit freely: re-importing SKIPS a file"

  const EDIT_SKIPS := " that already exists"

  const EDIT_DOCS := " (docs/USAGE.md, Intents)."

  const EDIT_NOTE := EDIT_FREELY + EDIT_SKIPS + EDIT_DOCS

  function ImportNote(iss: Issue): string {
    " intents/" + ImportedId(iss.number) + IMPORTED_FROM + Digits(iss.number) + BY_IMPORT
  }

  function ImportHeader(iss: Issue): seq<string> {
    [['#'] + ImportNote(iss), ['#'] + EDIT_NOTE, "issue" + " = " + Digits(iss.number)]
  }

  function ImportLines(iss: Issue): seq<string> {
    ImportHeader(iss) + GoalLines(IssueText(iss))
  }

  /** renderImportedIntent. */
  method RenderImportedIntent(iss: Issue) returns (text: string)
    ensures text == Text(ImportLines(iss))
  {
    hide Text, ImportHeader, Split, GoalLine;
    text := HeaderText(iss);
    ghost var header := ImportHeader(iss);
    var lines := [iss.title, ""] + Split(iss.body, '\n');
    assert header + GoalLines(lines[..0]) == header;
    for i := 0 to |lines|
      invariant text == Text(header + GoalLines(lines[..i]))
    {
      GoalLinesSnoc(lines, i);
      assert header + GoalLines(lines[..i + 1]) == (header + GoalLines(lines[..i])) + [GoalLine(lines[i])];
      TextConcat(header + GoalLines(lines[..i]), [GoalLine(lines[i])]);
      TextOne(GoalLine(lines[i]));
      text := text + (GoalLine(lines[i]) + ['\n']);
    }
    assert lines[..|lines|] == lines;
  }

  function HeaderText(iss: Issue): string {
    Text(ImportHeader(iss))
  }

  lemma GoalLinesSnoc(lines: seq<string>, i: nat)
    requires i < |lines|
    ensures GoalLines(lines[..i + 1]) == GoalLines(lines[..i]) + [GoalLine(lines[i])]
  {
  }

  /** The text's lines, each trimmed at its edges. */
  function Trimmed(lines: seq<string>): seq<string> {
    seq(|lines|, k requires 0 <= k < |lines| => TrimSpace(lines[k]))
  }

  function GoalPair(value: string): (string, string) {
    ("goal", value)
  }

  function GoalPairs(values: seq<string>): seq<(string, string)> {
    seq(|values|, k requires 0 <= k < |values| => GoalPair(values[k]))
  }

  lemma GoalLineReads(line: string)
    requires Free(line, '\n')
    ensures ReadLine(GoalLine(line)) == Pair("goal", TrimSpace(line)) && Free(GoalLine(line), '\n')
  {
    hide TrimLeft, TrimRight, ReadLine;
    assert GoodKey("goal");
    AssignmentReads("goal", TrimCR(line));
    TrimCRUnseen(line);
  }

  lemma {:induction false} GoalLinesRead(lines: seq<string>)
    requires forall l <- lines :: Free(l, '\n')
    ensures forall l <- GoalLines(lines) :: Free(l, '\n') && !Malformed(l)
    ensures FlatMap(PairIn, GoalLines(lines)) == GoalPairs(Trimmed(lines))
  {
    hide ReadLine, TrimSpace, GoalLine;
    if lines != [] {
      var n := |lines| - 1;
      assert lines[n] in lines;
      GoalLinesRead(lines[..n]);
      GoalLineReads(lines[n]);
      assert lines[..n + 1] == lines;
      GoalLinesSnoc(lines, n);
      FlatMapSnoc(PairIn, GoalLines(lines[..n]), GoalLine(lines[n]));
      assert GoalPairs(Trimmed(lines)) == GoalPairs(Trimmed(lines[..n])) + [GoalPair(TrimSpace(lines[n]))];
    }
  }

  lemma IssueTextFree(iss: Issue)
    requires Free(iss.title, '\n')
    ensures forall l <- IssueText(iss) :: Free(l, '\n')
  {
    hide Split;
    SplitPieces(iss.body, '\n');
    forall l | l in IssueText(iss)
      ensures Free(l, '\n')
    {
      if l in Split(iss.body, '\n') {
        var k :| 0 <= k < |Split(iss.body, '\n')| && Split(iss.body, '\n')[k] == l;
      }
    }
  }

  lemma DigitsFree(n: nat)
    ensures Free(Digits(n), '\n') && Tight(Digits(n)) && TrimSpace(Digits(n)) == Digits(n)
  {
    assert Digits(n)[0] in Digits(n) && Digits(n)[|Digits(n)| - 1] in Digits(n);
    TrimPadded("", Digits(n), "");
    assert "" + Digits(n) + "" == Digits(n);
  }

  lemma HeaderReads(iss: Issue)
    ensures forall l <- ImportHeader(iss) :: Free(l, '\n') && !Malformed(l)
    ensures FlatMap(PairIn, ImportHeader(iss)) == [("issue", Digits(iss.number))]
  {
    hide ReadLine, TrimSpace, Digits, FlatMap;
    var d := Digits(iss.number);
    DigitsFree(iss.number);
    NotesFree(iss);
    CommentIgnored(ImportNote(iss));
    CommentIgnored(EDIT_NOTE);
    assert GoodKey("issue");
    AssignmentReads("issue", d);
    assert Free("issue" + " = " + d, '\n');
    hide ImportNote;
    ThreePairs(['#'] + ImportNote(iss), ['#'] + EDIT_NOTE, "issue" + " = " + d);
  }

  lemma FreeConcat(a: string, b: string)
    requires Free(a, '\n') && Free(b, '\n')
    ensures Free(a + b, '\n')
  {
  }

  lemma EditFreelyFree()
    ensures Free(EDIT_FREELY, '\n')
  {
  }

  lemma EditSkipsFree()
    ensures Free(EDIT_SKIPS, '\n')
  {
  }

  lemma EditDocsFree()
    ensures Free(EDIT_DOCS, '\n')
  {
  }

  lemma EditNoteFree()
    ensures Free(EDIT_NOTE, '\n')
  {
    hide Free;
    EditFreelyFree();
    EditSkipsFree();
    EditDocsFree();
    FreeConcat(EDIT_FREELY, EDIT_SKIPS);
    FreeConcat(EDIT_FREELY + EDIT_SKIPS, EDIT_DOCS);
    assert EDIT_NOTE == EDIT_FREELY + EDIT_SKIPS + EDIT_DOCS;
  }

  lemma ImportWordsFree()
    ensures Free(" intents/", '\n') && Free("issue-", '\n')
  {
  }

  lemma ImportedFromFree()
    ensures Free(IMPORTED_FROM, '\n')
  {
  }

  lemma ByImportFree()
    ensures Free(BY_IMPORT, '\n')
  {
  }

  lemma NotesFree(iss: Issue)
    ensures Free(['#'] + ImportNote(iss), '\n') && Free(['#'] + EDIT_NOTE, '\n')
  {
    hide Digits, Free;
    var d := Digits(iss.number);
    DigitsFree(iss.number);
    HashFree();
    EditNoteFree();
    ImportWordsFree();
    ImportedFromFree();
    ByImportFree();
    FreeConcat(['#'], EDIT_NOTE);
    FreeConcat("issue-", d);
    FreeConcat(" intents/", ImportedId(iss.number));
    FreeConcat(" intents/" + ImportedId(iss.number), IMPORTED_FROM);
    FreeConcat(" intents/" + ImportedId(iss.number) + IMPORTED_FROM, d);
    FreeConcat(" intents/" + ImportedId(iss.number) + IMPORTED_FROM + d, BY_IMPORT);
    FreeConcat(['#'], ImportNote(iss));
  }

  lemma HashFree()
    ensures Free(['#'], '\n')
  {
  }

  lemma ThreePairs(a: string, b: string, c: string)
    requires ReadLine(a) == Ignored && ReadLine(b) == Ignored
    ensures FlatMap(PairIn, [a, b, c]) == PairIn(c)
  {
    hide ReadLine;
    FlatMapSnoc(PairIn, [a, b], c);
    FlatMapSnoc(PairIn, [a], b);
    FlatMapSnoc(PairIn, [], a);
    assert [a, b] + [c] == [a, b, c] && [a] + [b] == [a, b] && [] + [a] == [a];
  }

  /** Entries that say one issue and then goal lines. */
  lemma {:induction false} GoalEntriesRead(durations: Durations, entries: seq<ConfigEntry>, number: nat, values: seq<string>)
    requires 0 < number <= MAX_INT
    requires Pairs(entries) == [("issue", Digits(number))] + GoalPairs(values)
    ensures ReadEntries(durations, entries) == Ok(NOTHING_READ.(goal := values, issue := Some(number)))
  {
    hide ReadEntry, Digits;
    var n := |entries| - 1;
    assert |Pairs(entries)| == |values| + 1;
    assert PairOf(entries[n]) == Pairs(entries)[n];
    if n == 0 {
      NoEntries(durations, entries);
      IssueEntryReads(durations, entries[0], number);
      assert values == [];
    } else {
      assert Pairs(entries[..n]) == Pairs(entries)[..n];
      assert GoalPairs(values)[..n - 1] == GoalPairs(values[..n - 1]);
      GoalEntriesRead(durations, entries[..n], number, values[..n - 1]);
      GoalEntryReads(durations, NOTHING_READ.(goal := values[..n - 1], issue := Some(number)), entries[n]);
      assert Pairs(entries)[n] == GoalPair(values[n - 1]);
      assert values[..n - 1] + [values[n - 1]] == values;
    }
  }

  lemma GoalEntryReads(durations: Durations, r: Reading, e: ConfigEntry)
    requires e.key == "goal"
    ensures ReadEntry(durations, r, e) == Ok(r.(goal := r.goal + [e.value]))
  {
  }

  lemma IssueEntryReads(durations: Durations, e: ConfigEntry, number: nat)
    requires PairOf(e) == ("issue", Digits(number)) && 0 < number <= MAX_INT
    ensures ReadEntry(durations, NOTHING_READ, e) == Ok(NOTHING_READ.(issue := Some(number)))
  {
    hide Atoi, Digits, TrimSpace;
    AtoiOfDigits(number);
    DigitsFree(number);
    assert TrimHash(Digits(number)) == Digits(number);
    assert IssueOf(e.value) == Some(number);
    IssueKeyReads(durations, e);
  }

  lemma IssueKeyReads(durations: Durations, e: ConfigEntry)
    requires e.key == "issue" && IssueOf(e.value).Some? && IssueOf(e.value).value > 0
    ensures ReadEntry(durations, NOTHING_READ, e) == Ok(NOTHING_READ.(issue := IssueOf(e.value)))
  {
    hide IssueOf;
  }

  /** Lines joined are blank iff each of them is. */
  lemma {:induction false} JoinBlank(lines: seq<string>)
    ensures AllSpace(JoinWith(lines, '\n')) <==> forall l <- lines :: AllSpace(l)
  {
    hide IsSpace;
    if lines != [] {
      assert lines == [lines[0]] + lines[1..];
      JoinBlank(lines[1..]);
      if |lines| > 1 {
        NewlineIsSpace();
        AllSpaceConcat(lines[0] + ['\n'], JoinWith(lines[1..], '\n'));
        AllSpaceConcat(lines[0], ['\n']);
      }
    }
  }

  lemma NewlineIsSpace()
    ensures IsSpace('\n')
  {
  }

  lemma AllSpaceConcat(a: string, b: string)
    ensures AllSpace(a + b) <==> AllSpace(a) && AllSpace(b)
  {
    if AllSpace(a + b) {
      forall c | c in a || c in b
        ensures c in a + b
      {
      }
    }
  }

  lemma TrimmedBlank(lines: seq<string>)
    ensures (forall l <- Trimmed(lines) :: AllSpace(l)) <==> forall l <- lines :: AllSpace(l)
  {
    hide TrimSpace, AllSpace;
    forall k | 0 <= k < |lines|
      ensures AllSpace(Trimmed(lines)[k]) <==> AllSpace(lines[k])
    {
      TrimIdempotent(lines[k]);
      TrimEmptyIffSpace(lines[k]);
      TrimEmptyIffSpace(TrimSpace(lines[k]));
    }
    if forall l <- Trimmed(lines) :: AllSpace(l) {
      forall l | l in lines
        ensures AllSpace(l)
      {
        var k :| 0 <= k < |lines| && lines[k] == l;
        assert Trimmed(lines)[k] in Trimmed(lines);
      }
    }
    if forall l <- lines :: AllSpace(l) {
      forall l | l in Trimmed(lines)
        ensures AllSpace(l)
      {
        var k :| 0 <= k < |lines| && Trimmed(lines)[k] == l;
        assert lines[k] in lines;
      }
    }
  }

  /** The goal of an imported issue is blank only when its whole text is. */
  lemma GoalBlankIff(iss: Issue)
    ensures TrimSpace(JoinWith(Trimmed(IssueText(iss)), '\n')) == "" <==> AllSpace(iss.title) && AllSpace(iss.body)
  {
    hide TrimSpace, Split, JoinWith, AllSpace;
    var lines, body := IssueText(iss), Split(iss.body, '\n');
    TrimEmptyIffSpace(JoinWith(Trimmed(lines), '\n'));
    JoinBlank(Trimmed(lines));
    TrimmedBlank(lines);
    JoinBlank(body);
    JoinSplit(iss.body, '\n');
    EmptyIsBlank();
    assert lines == [iss.title] + [""] + body;
    assert forall l :: l in lines <==> l == iss.title || l == "" || l in body;
  }

  lemma EmptyIsBlank()
    ensures AllSpace("")
  {
  }

  /** An issue with a one-line title, rendered and parsed, gives back its number
      and its text's lines trimmed at their edges; it is refused exactly when
      there is no text at all. */
  lemma ImportRoundTrips(durations: Durations, iss: Issue, id: string)
    requires SlugSafe(id) && Free(iss.title, '\n') && 0 < iss.number <= MAX_INT
    ensures IntentOf(durations, id, ReadLines(Split(Text(ImportLines(iss)), '\n'))) ==
            if AllSpace(iss.title) && AllSpace(iss.body) then Err(GoalRequired)
            else Ok(IntentSpec(id, TrimSpace(JoinWith(Trimmed(IssueText(iss)), '\n')), [], "", 0, 0, iss.number))
  {
    hide ReadLines, Split, Text, TrimSpace, JoinWith, SlugSafe, AllSpace, ReadEntries, Digits, ReadLine, FlatMap, IssueText, ImportHeader, Pairs, GoalLines;
    var lines, values := IssueText(iss), Trimmed(IssueText(iss));
    IssueTextFree(iss);
    GoalLinesRead(lines);
    HeaderReads(iss);
    FlatMapConcat(PairIn, ImportHeader(iss), GoalLines(lines));
    PrintedReads(ImportLines(iss));
    var read := ReadLines(Split(Text(ImportLines(iss)), '\n'));
    GoalEntriesRead(durations, read.value, iss.number, values);
    GoalBlankIff(iss);
  }
}
