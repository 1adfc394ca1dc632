/** Accepting a planner's output: after decoding, every task must be well formed
    and the declared file sets pairwise disjoint. */
module Plan {
  import opened Git
  import opened GoText

  datatype Task = Task(id: string, prompt: string, files: seq<string>)

  datatype PlanError =
    | NoTasks
    | TooManyTasks
    | EmptyId(at: nat)
    | UnsafeId(at: nat)
    | DuplicateId(at: nat)
    | EmptyPrompt(at: nat)
    | NoFiles(at: nat)
    | UnsafeFile(at: nat, file: string)
    | Overlap(collisions: map<string, seq<string>>)

  predicate SlugChar(c: char) {
    'a' <= c <= 'z' || 'A' <= c <= 'Z' || '0' <= c <= '9' || c == '.' || c == '_' || c == '-'
  }

  predicate SlugSafe(s: string) {
    s != "" && s != "." && s != ".." && forall c <- s :: SlugChar(c)
  }

  /** A repo-relative path that names no parent directory. */
  predicate RelSafe(p: string) {
    var t := TrimSpace(p);
    t != "" && t != "." && t[0] != '/' && forall seg <- Split(t, '/') :: seg != ".."
  }

  /** A ".." between slashes or edges. */
  ghost predicate ParentAt(t: string, a: string, b: string) {
    t == a + ".." + b && (a == "" || a[|a| - 1] == '/') && (b == "" || b[0] == '/')
  }

  /** It is refused exactly when it is blank, ".", absolute, or has such a "..". */
  lemma RelSafeExactly(p: string)
    ensures AllSpace(p) ==> !RelSafe(p)
    ensures !AllSpace(p) ==> TrimSpace(p) != "" && (RelSafe(p) <==>
              TrimSpace(p) != "." && TrimSpace(p)[0] != '/' && !exists a, b :: ParentAt(TrimSpace(p), a, b))
  {
    hide Split, ParentAt, IsPiece;
    TrimEmptyIffSpace(p);
    hide TrimSpace;
    SplitMembers(TrimSpace(p), '/', "..");
    ParentPiece(TrimSpace(p));
  }

  lemma ParentPiece(t: string)
    ensures IsPiece(t, '/', "..") <==> exists a, b :: ParentAt(t, a, b)
  {
    assert Free("..", '/');
    if a, b :| PieceAt(t, '/', a, "..", b) {
      assert ParentAt(t, a, b);
    }
    if a, b :| ParentAt(t, a, b) {
      assert PieceAt(t, '/', a, "..", b);
    }
  }

  /** A name safe to hand to git after prepending "refs/heads/". */
  predicate UsableBranchName(s: string) {
    s != "" && RelSafe(s) && forall c <- s :: c !in " \t\n:?*[\\"
  }

  // ---- what an accepted plan is ----

  predicate TaskOk(t: Task) {
    && TrimSpace(t.id) != "" && SlugSafe(TrimSpace(t.id))
    && TrimSpace(t.prompt) != ""
    && t.files != [] && forall f <- t.files :: RelSafe(TrimSpace(f))
  }

  function Normalized(t: Task): Task {
    t.(files := seq(|t.files|, k requires 0 <= k < |t.files| => TrimSpace(t.files[k])))
  }

  /** What is stored keeps the id and prompt as they came, and every file,
      trimmed, in its place: trimming again changes nothing. */
  lemma NormalizedKeeps(t: Task)
    ensures Normalized(t).id == t.id && Normalized(t).prompt == t.prompt
    ensures |Normalized(t).files| == |t.files|
    ensures forall k :: 0 <= k < |t.files| ==> Normalized(t).files[k] == TrimSpace(t.files[k]) == TrimSpace(Normalized(t).files[k])
    ensures forall p: string :: p in Normalized(t).files <==> Declares(t, p)
  {
    hide TrimSpace;
    forall k | 0 <= k < |t.files|
      ensures TrimSpace(t.files[k]) == TrimSpace(TrimSpace(t.files[k]))
    {
      TrimIdempotent(t.files[k]);
    }
    var n := Normalized(t).files;
    assert forall k :: 0 <= k < |n| ==> n[k] == TrimSpace(t.files[k]);
    forall p: string
      ensures p in n <==> Declares(t, p)
    {
      if Declares(t, p) {
        var f :| f in t.files && TrimSpace(f) == p;
        var k :| 0 <= k < |t.files| && t.files[k] == f;
        assert n[k] == p;
      }
      if p in n {
        var k :| 0 <= k < |n| && n[k] == p;
        assert t.files[k] in t.files;
      }
    }
  }

  function FileSet(t: Task): set<string> {
    set f | f in t.files :: TrimSpace(f)
  }

  ghost predicate IdsDistinct(tasks: seq<Task>) {
    forall i, j :: 0 <= i < j < |tasks| ==> TrimSpace(tasks[i].id) != TrimSpace(tasks[j].id)
  }

  ghost predicate FilesDisjoint(tasks: seq<Task>) {
    forall i, j :: 0 <= i < j < |tasks| ==> FileSet(tasks[i]) !! FileSet(tasks[j])
  }

  ghost predicate WellFormed(tasks: seq<Task>, n: int) {
    1 <= |tasks| <= n && (forall t <- tasks :: TaskOk(t)) && IdsDistinct(tasks)
  }

  /** Nothing is wrong before task i... */
  ghost predicate EarlierFine(tasks: seq<Task>, i: nat)
    requires i < |tasks|
  {
    (forall k :: 0 <= k < i ==> TaskOk(tasks[k])) && IdsDistinct(tasks[..i])
  }

  /** ...nor with its id. */
  ghost predicate FineUpTo(tasks: seq<Task>, i: nat)
    requires i < |tasks|
  {
    && EarlierFine(tasks, i)
    && (forall k :: 0 <= k < i ==> TrimSpace(tasks[k].id) != TrimSpace(tasks[i].id))
    && SlugSafe(TrimSpace(tasks[i].id))
  }

  /** The first of the files that is no safe path. */
  ghost predicate FirstUnsafe(files: seq<string>, file: string) {
    exists j :: 0 <= j < |files| && file == files[j] && !RelSafe(TrimSpace(file)) && forall k :: 0 <= k < j ==> RelSafe(TrimSpace(files[k]))
  }

  /** What an error says of the plan: the first thing wrong with its first bad
      task, read id, prompt, files. */
  ghost predicate Blames(e: PlanError, tasks: seq<Task>, n: int) {
    match e
    case NoTasks => tasks == []
    case TooManyTasks => tasks != [] && |tasks| > n
    case Overlap(_) => WellFormed(tasks, n) && !FilesDisjoint(tasks)
    case _ => 1 <= |tasks| <= n && e.at < |tasks| && BlamesTask(e, tasks, e.at)
  }

  ghost predicate BlamesTask(e: PlanError, tasks: seq<Task>, i: nat)
    requires i < |tasks|
  {
    var t := tasks[i];
    var id := TrimSpace(t.id);
    match e
    case EmptyId(_) => EarlierFine(tasks, i) && id == ""
    case UnsafeId(_) => EarlierFine(tasks, i) && id != "" && !SlugSafe(id)
    case DuplicateId(_) => EarlierFine(tasks, i) && SlugSafe(id) && exists k :: 0 <= k < i && TrimSpace(tasks[k].id) == id
    case EmptyPrompt(_) => FineUpTo(tasks, i) && TrimSpace(t.prompt) == ""
    case NoFiles(_) => FineUpTo(tasks, i) && TrimSpace(t.prompt) != "" && t.files == []
    case UnsafeFile(_, file) => FineUpTo(tasks, i) && TrimSpace(t.prompt) != "" && FirstUnsafe(t.files, file)
    case _ => false
  }

  /** The ids of the tasks that declare a path, in order. */
  function Claimants(tasks: seq<Task>, p: string): seq<string> {
    if tasks == [] then []
    else
      var t := tasks[|tasks| - 1];
      Claimants(tasks[..|tasks| - 1], p) + if p in FileSet(t) then [TrimSpace(t.id)] else []
  }

  ghost predicate Declares(t: Task, p: string) {
    exists f <- t.files :: TrimSpace(f) == p
  }

  lemma ClaimantsSnoc(tasks: seq<Task>, p: string)
    requires tasks != []
    ensures var m := |tasks| - 1;
            Claimants(tasks, p) == Claimants(tasks[..m], p) + if Declares(tasks[m], p) then [TrimSpace(tasks[m].id)] else []
  {
    hide TrimSpace;
    assert p in FileSet(tasks[|tasks| - 1]) <==> Declares(tasks[|tasks| - 1], p);
  }

  /** They are exactly the ids of those tasks... */
  lemma {:induction false} ClaimantsAre(tasks: seq<Task>, p: string, id: string)
    ensures id in Claimants(tasks, p) <==> exists i :: 0 <= i < |tasks| && Declares(tasks[i], p) && id == TrimSpace(tasks[i].id)
  {
    hide TrimSpace, Declares;
    if tasks != [] {
      var m := |tasks| - 1;
      ClaimantsSnoc(tasks, p);
      hide Claimants;
      ClaimantsAre(tasks[..m], p, id);
      assert forall i :: 0 <= i < m ==> tasks[..m][i] == tasks[i];
    }
  }

  /** ...one for each... */
  lemma {:induction false} ClaimantsCount(tasks: seq<Task>, p: string)
    ensures |Claimants(tasks, p)| == |Declaring(tasks, p)|
  {
    hide TrimSpace, Declares;
    if tasks != [] {
      hide Declaring;
      var m := |tasks| - 1;
      ClaimantsSnoc(tasks, p);
      hide Claimants;
      ClaimantsCount(tasks[..m], p);
      DeclaringSnoc(tasks, p);
    }
  }

  ghost function Declaring(tasks: seq<Task>, p: string): set<nat> {
    set i: nat | i < |tasks| && Declares(tasks[i], p)
  }

  lemma DeclaringSnoc(tasks: seq<Task>, p: string)
    requires tasks != []
    ensures var m := |tasks| - 1;
            m !in Declaring(tasks[..m], p) && Declaring(tasks, p) == Declaring(tasks[..m], p) + if Declares(tasks[m], p) then {m} else {}
  {
    hide Declares;
    var m := |tasks| - 1;
    assert tasks == tasks[..m] + [tasks[m]];
  }

  /** ...and in order: those of the first n tasks come first. */
  lemma {:induction false} ClaimantsInOrder(tasks: seq<Task>, p: string, n: nat)
    requires n <= |tasks|
    ensures Claimants(tasks[..n], p) <= Claimants(tasks, p)
  {
    if n < |tasks| {
      var front := tasks[..|tasks| - 1];
      assert front[..n] == tasks[..n];
      ClaimantsInOrder(front, p, n);
    } else {
      assert tasks[..n] == tasks;
    }
  }

  lemma {:induction false} ClaimedOrNot(tasks: seq<Task>, p: string)
    ensures Claimants(tasks, p) == [] <==> forall i :: 0 <= i < |tasks| ==> p !in FileSet(tasks[i])
  {
    if tasks != [] {
      ClaimedOrNot(tasks[..|tasks| - 1], p);
    }
  }

  lemma {:induction false} ClaimedOnce(tasks: seq<Task>, p: string)
    ensures |Claimants(tasks, p)| <= 1 <==>
            forall i, j :: 0 <= i < j < |tasks| ==> p !in FileSet(tasks[i]) || p !in FileSet(tasks[j])
  {
    if tasks != [] {
      var front := tasks[..|tasks| - 1];
      ClaimedOnce(front, p);
      ClaimedOrNot(front, p);
    }
  }

  lemma DisjointClaimedOnce(tasks: seq<Task>, p: string)
    requires FilesDisjoint(tasks)
    ensures |Claimants(tasks, p)| <= 1
  {
    ClaimedOnce(tasks, p);
    forall i, j | 0 <= i < j < |tasks|
      ensures p !in FileSet(tasks[i]) || p !in FileSet(tasks[j])
    {
      assert FileSet(tasks[i]) !! FileSet(tasks[j]);
    }
  }

  lemma ClaimedOnceDisjoint(tasks: seq<Task>)
    requires forall p: string :: |Claimants(tasks, p)| <= 1
    ensures FilesDisjoint(tasks)
  {
    forall i, j | 0 <= i < j < |tasks|
      ensures FileSet(tasks[i]) !! FileSet(tasks[j])
    {
      forall p: string | p in FileSet(tasks[i])
        ensures p !in FileSet(tasks[j])
      {
        ClaimedOnce(tasks, p);
      }
    }
  }

  // ---- the operation ----

  /** `owner` lists every declared path's claimants. */
  ghost predicate Owns(owner: map<string, seq<string>>, tasks: seq<Task>) {
    forall p: string :: Claimants(tasks, p) == Claims(owner, p)
  }

  function Claims(owner: map<string, seq<string>>, p: string): seq<string> {
    if p in owner then owner[p] else []
  }

  /** `owner` is `owner0` with one more claim, by `id`, on each of the paths. */
  ghost predicate Claimed(owner0: map<string, seq<string>>, owner: map<string, seq<string>>, paths: set<string>, id: string) {
    forall p: string :: Claims(owner, p) == Claims(owner0, p) + if p in paths then [id] else []
  }

  /** The first j files are normalized and claimed, each once. */
  ghost predicate ClaimedUpTo(t: Task, id: string, owner0: map<string, seq<string>>, j: nat,
                              files: seq<string>, owner: map<string, seq<string>>, inTask: set<string>)
    requires j <= |t.files|
  {
    && (forall k :: 0 <= k < j ==> RelSafe(TrimSpace(t.files[k])))
    && |files| == j && (forall k :: 0 <= k < j ==> files[k] == TrimSpace(t.files[k]))
    && (forall p :: p in inTask <==> exists k :: 0 <= k < j && TrimSpace(t.files[k]) == p)
    && Claimed(owner0, owner, inTask, id)
  }

  lemma ClaimOne(owner0: map<string, seq<string>>, owner: map<string, seq<string>>, paths: set<string>, id: string, nf: string)
    requires Claimed(owner0, owner, paths, id)
    ensures nf !in paths ==> Claimed(owner0, owner[nf := Claims(owner, nf) + [id]], paths + {nf}, id)
  {
    var owner' := owner[nf := Claims(owner, nf) + [id]];
    if nf !in paths {
      forall p
        ensures Claims(owner', p) == Claims(owner0, p) + if p in paths + {nf} then [id] else []
      {
        assert Claims(owner, p) == Claims(owner0, p) + if p in paths then [id] else [];
      }
    }
  }

  lemma ClaimNext(t: Task, id: string, owner0: map<string, seq<string>>, j: nat,
                  files: seq<string>, owner: map<string, seq<string>>, inTask: set<string>)
    requires j < |t.files| && ClaimedUpTo(t, id, owner0, j, files, owner, inTask)
    requires RelSafe(TrimSpace(t.files[j]))
    ensures var nf := TrimSpace(t.files[j]);
            if nf in inTask then ClaimedUpTo(t, id, owner0, j + 1, files + [nf], owner, inTask)
            else ClaimedUpTo(t, id, owner0, j + 1, files + [nf], owner[nf := Claims(owner, nf) + [id]], inTask + {nf})
  {
    hide RelSafe, TrimSpace, Claimed;
    var nf := TrimSpace(t.files[j]);
    ClaimOne(owner0, owner, inTask, id, nf);
    forall p
      ensures p in inTask + {nf} <==> exists k :: 0 <= k < j + 1 && TrimSpace(t.files[k]) == p
    {
      if k :| 0 <= k < j + 1 && TrimSpace(t.files[k]) == p {
        assert k < j ==> p in inTask;
      }
    }
    assert nf in inTask ==> inTask + {nf} == inTask;
  }

  lemma AllClaimed(t: Task, id: string, owner0: map<string, seq<string>>,
                   files: seq<string>, owner: map<string, seq<string>>, inTask: set<string>)
    requires ClaimedUpTo(t, id, owner0, |t.files|, files, owner, inTask)
    ensures forall f <- t.files :: RelSafe(TrimSpace(f))
    ensures files == Normalized(t).files && Claimed(owner0, owner, FileSet(t), id)
  {
    hide RelSafe, TrimSpace, Claimed;
    assert inTask == FileSet(t);
  }

  lemma UnsafeFound(t: Task, id: string, owner0: map<string, seq<string>>, j: nat,
                    files: seq<string>, owner: map<string, seq<string>>, inTask: set<string>)
    requires j < |t.files| && ClaimedUpTo(t, id, owner0, j, files, owner, inTask)
    requires !RelSafe(TrimSpace(t.files[j]))
    ensures FirstUnsafe(t.files, t.files[j])
  {
    hide RelSafe, TrimSpace, Claimed;
  }

  lemma NothingClaimed(t: Task, id: string, owner0: map<string, seq<string>>)
    ensures ClaimedUpTo(t, id, owner0, 0, [], owner0, {})
  {
  }

  /** One task's files: normalized in place, each claimed once. */
  method ClaimFiles(t: Task, id: string, owner0: map<string, seq<string>>)
    returns (files: seq<string>, owner: map<string, seq<string>>, bad: Option<string>)
    ensures bad.None? <==> forall f <- t.files :: RelSafe(TrimSpace(f))
    ensures bad.Some? ==> FirstUnsafe(t.files, bad.value)
    ensures bad.None? ==> files == Normalized(t).files
    ensures bad.None? ==> Claimed(owner0, owner, FileSet(t), id)
  {
    hide Claimed, ClaimedUpTo, RelSafe, TrimSpace, FileSet, Normalized;
    files, owner := [], owner0;
    var inTask: set<string> := {};
    NothingClaimed(t, id, owner0);
    for j := 0 to |t.files|
      invariant ClaimedUpTo(t, id, owner0, j, files, owner, inTask)
    {
      var nf := TrimSpace(t.files[j]);
      if !RelSafe(nf) {
        UnsafeFound(t, id, owner0, j, files, owner, inTask);
        return files, owner, Some(t.files[j]);
      }
      ClaimNext(t, id, owner0, j, files, owner, inTask);
      files := files + [nf];
      if nf !in inTask {
        inTask := inTask + {nf};
        owner := owner[nf := Claims(owner, nf) + [id]];
      }
    }
    AllClaimed(t, id, owner0, files, owner, inTask);
    bad := None;
  }

  /** What is wrong with one task's id, prompt or file list, if anything. */
  method CheckTask(tasks: seq<Task>, i: nat, seen: set<string>) returns (err: Option<PlanError>)
    requires i < |tasks| && GoodSoFar(tasks, i, seen)
    ensures err.Some? ==> !err.value.Overlap? && !err.value.NoTasks? && !err.value.TooManyTasks?
    ensures err.Some? ==> err.value.at == i && BlamesTask(err.value, tasks, i)
    ensures err.None? <==> TrimSpace(tasks[i].id) !in seen && SlugSafe(TrimSpace(tasks[i].id))
                           && TrimSpace(tasks[i].prompt) != "" && tasks[i].files != []
  {
    hide RelSafe, SlugSafe, TrimSpace, GoodSoFar, TaskOk;
    var t := tasks[i];
    var id := TrimSpace(t.id);
    SeenTells(tasks, i, seen);
    if id == "" {
      return Some(EmptyId(i));
    }
    if !SlugSafe(id) {
      return Some(UnsafeId(i));
    }
    if id in seen {
      return Some(DuplicateId(i));
    }
    if TrimSpace(t.prompt) == "" {
      return Some(EmptyPrompt(i));
    }
    if |t.files| == 0 {
      return Some(NoFiles(i));
    }
    return None;
  }

  /** The tasks before i are well formed, and these are their ids. */
  ghost predicate GoodSoFar(tasks: seq<Task>, i: nat, seen: set<string>)
    requires i <= |tasks|
  {
    && (forall k :: 0 <= k < i ==> TaskOk(tasks[k]))
    && (forall j, k :: 0 <= j < k < i ==> TrimSpace(tasks[j].id) != TrimSpace(tasks[k].id))
    && (forall id :: id in seen <==> exists k :: 0 <= k < i && TrimSpace(tasks[k].id) == id)
  }

  lemma SeenTells(tasks: seq<Task>, i: nat, seen: set<string>)
    requires i < |tasks| && GoodSoFar(tasks, i, seen)
    ensures EarlierFine(tasks, i)
    ensures SlugSafe(TrimSpace(tasks[i].id)) ==> TrimSpace(tasks[i].id) != ""
    ensures TrimSpace(tasks[i].id) in seen ==> exists k :: 0 <= k < i && TrimSpace(tasks[k].id) == TrimSpace(tasks[i].id)
    ensures TrimSpace(tasks[i].id) !in seen && SlugSafe(TrimSpace(tasks[i].id)) ==> FineUpTo(tasks, i)
  {
    hide RelSafe, TrimSpace, TaskOk;
  }

  lemma GoodStep(tasks: seq<Task>, i: nat, seen: set<string>, n: int)
    requires i < |tasks| && GoodSoFar(tasks, i, seen)
    ensures TaskOk(tasks[i]) && TrimSpace(tasks[i].id) !in seen ==> GoodSoFar(tasks, i + 1, seen + {TrimSpace(tasks[i].id)})
    ensures !TaskOk(tasks[i]) || TrimSpace(tasks[i].id) in seen ==> !WellFormed(tasks, n)
  {
    hide RelSafe, SlugSafe, TrimSpace, TaskOk;
    assert tasks[i] in tasks;
    var id := TrimSpace(tasks[i].id);
    if id !in seen {
      forall x
        ensures x in seen + {id} <==> exists k :: 0 <= k < i + 1 && TrimSpace(tasks[k].id) == x
      {
        if k :| 0 <= k < i + 1 && TrimSpace(tasks[k].id) == x {
          assert k < i ==> x in seen;
        }
      }
    } else {
      var k :| 0 <= k < i && TrimSpace(tasks[k].id) == id;
      assert !IdsDistinct(tasks);
    }
  }

  lemma AllGood(tasks: seq<Task>, seen: set<string>, n: int)
    requires 1 <= |tasks| <= n && GoodSoFar(tasks, |tasks|, seen)
    ensures WellFormed(tasks, n)
  {
  }

  /** parsePlan, after decoding: it accepts exactly the well-formed plans whose
      file sets are pairwise disjoint, and blames overlap only on a plan that is
      otherwise well formed, naming every shared path and its claimants. */
  method ParsePlan(tasks: seq<Task>, n: int) returns (r: Result<seq<Task>, PlanError>)
    ensures r.Ok? <==> WellFormed(tasks, n) && FilesDisjoint(tasks)
    ensures r.Ok? ==> |r.value| == |tasks| && forall i :: 0 <= i < |tasks| ==> r.value[i] == Normalized(tasks[i])
    ensures r.Err? ==> Blames(r.error, tasks, n)
    ensures r.Err? && r.error.Overlap? <==> WellFormed(tasks, n) && !FilesDisjoint(tasks)
    ensures r.Err? && r.error.Overlap? ==> Names(r.error.collisions, tasks)
  {
    hide RelSafe, SlugSafe, TrimSpace, GoodSoFar, Owns, Claimed, FirstUnsafe, FineUpTo;
    if |tasks| == 0 {
      return Err(NoTasks);
    }
    if |tasks| > n {
      return Err(TooManyTasks);
    }
    var seen: set<string>, owner: map<string, seq<string>>, out: seq<Task> := {}, map[], [];
    NothingOwned(tasks);
    for i := 0 to |tasks|
      invariant GoodSoFar(tasks, i, seen) && Owns(owner, tasks[..i])
      invariant |out| == i && forall k :: 0 <= k < i ==> out[k] == Normalized(tasks[k])
    {
      var t := tasks[i];
      GoodStep(tasks, i, seen, n);
      var err := CheckTask(tasks, i, seen);
      if err.Some? {
        return Err(err.value);
      }
      var id := TrimSpace(t.id);
      var files, owner', bad := ClaimFiles(t, id, owner);
      SeenTells(tasks, i, seen);
      if bad.Some? {
        return Err(UnsafeFile(i, bad.value));
      }
      OneMoreTask(tasks, i, owner, owner');
      seen, owner := seen + {id}, owner';
      out := out + [t.(files := files)];
    }
    assert tasks[..|tasks|] == tasks;
    AllGood(tasks, seen, n);
    var collisions := map p | p in owner && |owner[p]| > 1 :: owner[p];
    CollisionsTell(tasks, owner, collisions);
    if collisions != map[] {
      return Err(Overlap(collisions));
    }
    r := Ok(out);
  }

  /** Exactly the paths with two claimants or more, and who claims them. */
  ghost predicate Names(collisions: map<string, seq<string>>, tasks: seq<Task>) {
    forall p: string :: if |Claimants(tasks, p)| > 1 then p in collisions && collisions[p] == Claimants(tasks, p) else p !in collisions
  }

  lemma CollisionsTell(tasks: seq<Task>, owner: map<string, seq<string>>, collisions: map<string, seq<string>>)
    requires Owns(owner, tasks) && collisions == map p | p in owner && |owner[p]| > 1 :: owner[p]
    ensures collisions == map[] <==> FilesDisjoint(tasks)
    ensures Names(collisions, tasks)
  {
    hide FilesDisjoint, Claimants;
    forall p: string
      ensures |Claimants(tasks, p)| > 1 <==> p in collisions
      ensures p in collisions ==> collisions[p] == Claimants(tasks, p)
    {
      assert Claimants(tasks, p) == Claims(owner, p);
    }
    if collisions == map[] {
      ClaimedOnceDisjoint(tasks);
    } else {
      var p :| p in collisions;
      if FilesDisjoint(tasks) {
        DisjointClaimedOnce(tasks, p);
      }
    }
  }

  lemma NothingOwned(tasks: seq<Task>)
    ensures GoodSoFar(tasks, 0, {}) && Owns(map[], tasks[..0])
  {
  }

  lemma OneMoreTask(tasks: seq<Task>, i: nat, owner: map<string, seq<string>>, owner': map<string, seq<string>>)
    requires i < |tasks| && Owns(owner, tasks[..i])
    requires Claimed(owner, owner', FileSet(tasks[i]), TrimSpace(tasks[i].id))
    ensures Owns(owner', tasks[..i + 1])
  {
    hide TrimSpace, FileSet;
    assert tasks[..i + 1][..i] == tasks[..i];
    forall p
      ensures Claimants(tasks[..i + 1], p) == Claims(owner', p)
    {
      assert Claimants(tasks[..i], p) == Claims(owner, p);
    }
  }
}
