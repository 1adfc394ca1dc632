/** Printing a drafted landing policy: whatever text its comments and notes
    quote, the file parses to exactly the live key/value lines. */
module PolicyDraft {
  import opened Git
  import opened Seqs
  import opened GoText
  import opened FlatFile

  datatype DraftLine = DraftLine(comment: string, key: string, value: string, live: bool)

  datatype DraftNote = DraftNote(source: string, detail: string, quotes: seq<string>)

  datatype Draft = Draft(rev: string, lines: seq<DraftLine>, notes: seq<DraftNote>)

  // ---- comments ----

  /** C0 controls and DEL, with tab exempt. */
  predicate IsControl(c: char) {
    (c < ' ' && c != '\t') || c == '\U{7F}'
  }

  function Scrubbed(s: string): string {
    seq(|s|, k requires 0 <= k < |s| => if IsControl(s[k]) then '?' else s[k])
  }

  method HasControl(s: string) returns (b: bool)
    ensures b <==> exists k :: 0 <= k < |s| && IsControl(s[k])
  {
    for i := 0 to |s|
      invariant forall k :: 0 <= k < i ==> !IsControl(s[k])
    {
      if IsControl(s[i]) {
        return true;
      }
    }
    return false;
  }

  /** scrubControl, on a copy of the bytes. */
  method ScrubControl(s: string) returns (r: string)
    ensures r == Scrubbed(s)
  {
    var dirty := HasControl(s);
    if !dirty {
      assert Scrubbed(s) == s;
      return s;
    }
    var out := new char[|s|](i requires 0 <= i < |s| => s[i]);
    for i := 0 to out.Length
      invariant forall k :: 0 <= k < i ==> out[k] == Scrubbed(s)[k]
      invariant forall k :: i <= k < |s| ==> out[k] == s[k]
    {
      if IsControl(out[i]) {
        out[i] := '?';
      }
    }
    assert out[..] == Scrubbed(s);
    return out[..];
  }

  function WithoutCR(s: string): string {
    if s == "" then "" else (if s[0] == '\r' then "" else [s[0]]) + WithoutCR(s[1..])
  }

  function CommentLine(ln: string): string {
    if ln == "" then "#" else ['#'] + (" " + Scrubbed(ln))
  }

  function MapLines(f: string -> string, lines: seq<string>): seq<string> {
    seq(|lines|, k requires 0 <= k < |lines| => f(lines[k]))
  }

  /** The lines one comment becomes. */
  function CommentLines(s: string): seq<string> {
    MapLines(CommentLine, Split(WithoutCR(s), '\n'))
  }

  /** Whatever the text, every line it becomes is one comment line without any
      control character. */
  lemma CommentLineIsComment(ln: string)
    ensures ReadLine(CommentLine(ln)) == Ignored && Free(CommentLine(ln), '\n')
    ensures forall c <- CommentLine(ln) :: !IsControl(c)
  {
    forall c | c in CommentLine(ln)
      ensures !IsControl(c)
    {
      if ln != "" {
        var k :| 0 <= k < |CommentLine(ln)| && CommentLine(ln)[k] == c;
        assert k >= 2 ==> c == Scrubbed(ln)[k - 2];
      }
    }
    assert IsControl('\n');
    if ln == "" {
      CommentIgnored("");
      assert ['#'] + "" == "#";
    } else {
      CommentIgnored(" " + Scrubbed(ln));
    }
  }

  /** A comment line without its marker. */
  function Uncommented(ln: string): string {
    if |ln| < 2 then "" else ln[2..]
  }

  /** Nothing a comment says is lost: taking the markers off its lines again
      leaves the text, if it had no control characters but newlines. */
  lemma CommentKeepsText(s: string)
    requires forall c <- s :: IsControl(c) ==> c == '\n'
    ensures JoinWith(MapLines(Uncommented, CommentLines(s)), '\n') == s
  {
    assert IsControl('\r');
    NoReturns(s);
    SplitPieces(s, '\n');
    JoinSplit(s, '\n');
    var parts := Split(s, '\n');
    SplitKeeps(s, '\n');
    hide Split;
    forall k | 0 <= k < |parts|
      ensures Uncommented(CommentLine(parts[k])) == parts[k]
    {
      assert parts[k] in parts;
      assert forall j :: 0 <= j < |parts[k]| ==> parts[k][j] in s && parts[k][j] != '\n';
      assert Scrubbed(parts[k]) == parts[k];
    }
    assert MapLines(Uncommented, CommentLines(s)) == parts;
  }

  lemma {:induction false} NoReturns(s: string)
    requires '\r' !in s
    ensures WithoutCR(s) == s
  {
    if s != "" {
      assert s == [s[0]] + s[1..];
      NoReturns(s[1..]);
    }
  }

  lemma {:induction false} SplitKeeps(s: string, sep: char)
    ensures forall part <- Split(s, sep) :: forall c <- part :: c in s
  {
    if s != "" {
      SplitKeeps(s[1..], sep);
      var rest := Split(s[1..], sep);
      assert forall c <- s[1..] :: c in s;
      assert rest[0] in rest && forall part <- rest[1..] :: part in rest;
    }
  }

  // ---- the builder ----

  class Builder {
    var text: string

    constructor ()
      ensures text == ""
    {
      text := "";
    }

    method WriteString(s: string)
      modifies this
      ensures text == old(text) + s
    {
      text := text + s;
    }

    method WriteByte(c: char)
      modifies this
      ensures text == old(text) + [c]
    {
      text := text + [c];
    }
  }

  method EmitComment(b: Builder, s: string)
    modifies b
    ensures b.text == old(b.text) + Text(CommentLines(s))
  {
    hide Split, WithoutCR, Text, Scrubbed;
    var parts := Split(WithoutCR(s), '\n');
    ghost var before := b.text;
    NoText(before);
    for i := 0 to |parts|
      invariant b.text == before + Text(MapLines(CommentLine, parts[..i]))
    {
      MapLinesSnoc(CommentLine, parts, i);
      TextConcat(MapLines(CommentLine, parts[..i]), [CommentLine(parts[i])]);
      TextOne(CommentLine(parts[i]));
      var ln := parts[i];
      if ln == "" {
        b.WriteString("#\n");
        assert "#\n" == CommentLine(ln) + ['\n'];
      } else {
        var clean := ScrubControl(ln);
        b.WriteString("# ");
        b.WriteString(clean);
        b.WriteByte('\n');
        assert "# " + clean + ['\n'] == CommentLine(ln) + ['\n'];
      }
    }
    assert parts[..|parts|] == parts;
  }

  lemma NoText(before: string)
    ensures forall f: string -> string, lines: seq<string> :: before + Text(MapLines(f, lines[..0])) == before
  {
  }

  lemma MapLinesSnoc(f: string -> string, lines: seq<string>, i: nat)
    requires i < |lines|
    ensures MapLines(f, lines[..i + 1]) == MapLines(f, lines[..i]) + [f(lines[i])]
  {
    assert lines[..i + 1] == lines[..i] + [lines[i]];
  }

  // ---- the draft ----

  const POLICY_FILE := "sigbound.policy"

  function HeaderComments(rev: string): seq<string> {
    [
      POLICY_FILE + " \U{2014} a STARTING landing bar written by `sig policy init` from " + rev + ".",
      "Every key below is preceded by the file it was read from. Review it before",
      "committing: it is a starting point, not a finished policy.",
      "Nothing here is in force until it is committed at the base a run lands onto",
      "(docs/USAGE.md, \"Landing policy\").",
      "Committing this file turns on policy self-protection: a later change to " + POLICY_FILE + " itself parks for a human ack."
    ]
  }

  const NO_VERIFY_COMMENTS: seq<string> := [
    "No verify command could be inferred from this repository (see the notes at the",
    "end). A policy with no verify line adds no bar of its own. Put the command your",
    "CI actually runs here and uncomment it:",
    "verify = <command>"
  ]

  const NOTES_HEADER: seq<string> := [
    "Everything below is something a source said that a policy key cannot express.",
    "`grep '^# unmapped:' " + POLICY_FILE + "` lists it."
  ]

  function AllComments(comments: seq<string>): seq<string> {
    FlatMap(CommentLines, comments)
  }

  function Assignment(key: string, value: string): string {
    key + " = " + value
  }

  function LinesOf(ln: DraftLine): seq<string> {
    [""] + CommentLines(ln.comment) + if ln.live then [Assignment(ln.key, ln.value)] else CommentLines(Assignment(ln.key, ln.value))
  }

  function Indented(q: string): string {
    "    " + q
  }

  function NoteComments(n: DraftNote): seq<string> {
    ["unmapped: " + n.source + ": " + n.detail] + MapLines(Indented, n.quotes)
  }

  function LinesOfNote(n: DraftNote): seq<string> {
    AllComments(NoteComments(n))
  }

  function IsLiveVerify(ln: DraftLine): seq<DraftLine> {
    if ln.live && ln.key == "verify" then [ln] else []
  }

  /** Every line of the file, in order. */
  function DraftLines(d: Draft): seq<string> {
    AllComments(HeaderComments(d.rev)) + VerifyHint(d) + FlatMap(LinesOf, d.lines) + NoteLines(d)
  }

  method EmitAll(b: Builder, comments: seq<string>)
    modifies b
    ensures b.text == old(b.text) + Text(AllComments(comments))
  {
    hide CommentLines, Text;
    ghost var before := b.text;
    NothingFlat(before, CommentLines, comments);
    for i := 0 to |comments|
      invariant b.text == before + Text(FlatMap(CommentLines, comments[..i]))
    {
      FlatNext(before, CommentLines, comments, i);
      EmitComment(b, comments[i]);
    }
    assert comments[..|comments|] == comments;
  }

  lemma NothingFlat<T>(before: string, f: T -> seq<string>, xs: seq<T>)
    ensures before + Text(FlatMap(f, xs[..0])) == before
  {
  }

  lemma FlatNext<T>(before: string, f: T -> seq<string>, xs: seq<T>, i: nat)
    requires i < |xs|
    ensures before + Text(FlatMap(f, xs[..i])) + Text(f(xs[i])) == before + Text(FlatMap(f, xs[..i + 1]))
  {
    assert xs[..i + 1] == xs[..i] + [xs[i]];
    FlatMapSnoc(f, xs[..i], xs[i]);
    TextConcat(FlatMap(f, xs[..i]), f(xs[i]));
  }

  method CountVerify(d: Draft) returns (n: nat)
    ensures n == |FlatMap(IsLiveVerify, d.lines)|
  {
    n := 0;
    for i := 0 to |d.lines|
      invariant n == |FlatMap(IsLiveVerify, d.lines[..i])|
    {
      assert d.lines[..i + 1] == d.lines[..i] + [d.lines[i]];
      FlatMapSnoc(IsLiveVerify, d.lines[..i], d.lines[i]);
      if d.lines[i].live && d.lines[i].key == "verify" {
        n := n + 1;
      }
    }
    assert d.lines[..|d.lines|] == d.lines;
  }

  method EmitLine(b: Builder, ln: DraftLine)
    modifies b
    ensures b.text == old(b.text) + Text(LinesOf(ln))
  {
    hide CommentLines, Text;
    ghost var before := b.text;
    b.WriteByte('\n');
    EmitComment(b, ln.comment);
    if ln.live {
      b.WriteString(ln.key + " = " + ln.value + ['\n']);
      TextOne(Assignment(ln.key, ln.value));
    } else {
      EmitComment(b, ln.key + " = " + ln.value);
    }
    TextOne("");
    assert "" + ['\n'] == ['\n'];
    TextConcat([""], CommentLines(ln.comment));
    TextConcat([""] + CommentLines(ln.comment),
               if ln.live then [Assignment(ln.key, ln.value)] else CommentLines(Assignment(ln.key, ln.value)));
  }

  method EmitNote(b: Builder, n: DraftNote)
    modifies b
    ensures b.text == old(b.text) + Text(LinesOfNote(n))
  {
    hide CommentLines, Text;
    ghost var before, all := b.text, NoteComments(n);
    EmitComment(b, "unmapped: " + n.source + ": " + n.detail);
    NothingFlat(before, CommentLines, all);
    FlatNext(before, CommentLines, all, 0);
    for i := 0 to |n.quotes|
      invariant b.text == before + Text(FlatMap(CommentLines, all[..i + 1]))
    {
      FlatNext(before, CommentLines, all, i + 1);
      assert all[i + 1] == Indented(n.quotes[i]);
      EmitComment(b, "    " + n.quotes[i]);
    }
    assert all[..|all|] == all;
  }

  function VerifyHint(d: Draft): seq<string> {
    if FlatMap(IsLiveVerify, d.lines) == [] then [""] + AllComments(NO_VERIFY_COMMENTS) else []
  }

  function NoteLines(d: Draft): seq<string> {
    if d.notes == [] then [] else [""] + AllComments(NOTES_HEADER) + FlatMap(LinesOfNote, d.notes)
  }

  method EmitVerifyHint(b: Builder, d: Draft)
    modifies b
    ensures b.text == old(b.text) + Text(VerifyHint(d))
  {
    hide CommentLines, Text, AllComments, FlatMap;
    var verifies := CountVerify(d);
    TextNone();
    if verifies == 0 {
      b.WriteByte('\n');
      EmitAll(b, NO_VERIFY_COMMENTS);
      BlankFirst(AllComments(NO_VERIFY_COMMENTS));
    }
  }

  method EmitLines(b: Builder, lines: seq<DraftLine>)
    modifies b
    ensures b.text == old(b.text) + Text(FlatMap(LinesOf, lines))
  {
    hide LinesOf, Text;
    ghost var before := b.text;
    NothingFlat(before, LinesOf, lines);
    for i := 0 to |lines|
      invariant b.text == before + Text(FlatMap(LinesOf, lines[..i]))
    {
      FlatNext(before, LinesOf, lines, i);
      EmitLine(b, lines[i]);
    }
    assert lines[..|lines|] == lines;
  }

  method EmitNotes(b: Builder, d: Draft)
    modifies b
    ensures b.text == old(b.text) + Text(NoteLines(d))
  {
    hide CommentLines, Text, LinesOfNote, AllComments, FlatMap;
    TextNone();
    if |d.notes| > 0 {
      b.WriteByte('\n');
      EmitAll(b, NOTES_HEADER);
      ghost var before := b.text;
      NothingFlat(before, LinesOfNote, d.notes);
      for i := 0 to |d.notes|
        invariant b.text == before + Text(FlatMap(LinesOfNote, d.notes[..i]))
      {
        FlatNext(before, LinesOfNote, d.notes, i);
        EmitNote(b, d.notes[i]);
      }
      assert d.notes[..|d.notes|] == d.notes;
      BlankFirst(AllComments(NOTES_HEADER));
      TextConcat([""] + AllComments(NOTES_HEADER), FlatMap(LinesOfNote, d.notes));
    }
  }

  /** render. */
  method Render(d: Draft) returns (text: string)
    ensures text == Text(DraftLines(d))
  {
    hide Text, AllComments, HeaderComments, FlatMap, VerifyHint, NoteLines;
    var b := new Builder();
    EmitAll(b, HeaderComments(d.rev));
    EmitVerifyHint(b, d);
    EmitLines(b, d.lines);
    EmitNotes(b, d);
    FourParts(AllComments(HeaderComments(d.rev)), VerifyHint(d), FlatMap(LinesOf, d.lines), NoteLines(d));
    text := b.text;
  }

  lemma TextNone()
    ensures Text([]) == ""
  {
  }

  lemma BlankFirst(lines: seq<string>)
    ensures Text([""] + lines) == ['\n'] + Text(lines)
  {
    TextConcat([""], lines);
    TextOne("");
    assert "" + ['\n'] == ['\n'];
  }

  lemma FourParts(a: seq<string>, b: seq<string>, c: seq<string>, d: seq<string>)
    ensures Text(a + b + c + d) == Text(a) + Text(b) + Text(c) + Text(d)
  {
    TextConcat(a, b);
    TextConcat(a + b, c);
    TextConcat(a + b + c, d);
  }

  // ---- it parses back ----

  function LivePair(ln: DraftLine): seq<(string, string)> {
    if ln.live then [(ln.key, TrimSpace(ln.value))] else []
  }

  /** Live lines carry a key the lexer reads and a one-line value. */
  ghost predicate LiveClean(d: Draft) {
    forall ln <- d.lines :: ln.live ==> GoodKey(ln.key) && Free(ln.value, '\n')
  }

  /** Lines the lexer passes over, one physical line each. */
  ghost predicate Silent(lines: seq<string>) {
    forall l <- lines :: ReadLine(l) == Ignored && Free(l, '\n')
  }

  lemma CommentsSilent(s: string)
    ensures Silent(CommentLines(s))
  {
    hide ReadLine, CommentLine, Split;
    var parts := Split(WithoutCR(s), '\n');
    forall l | l in CommentLines(s)
      ensures ReadLine(l) == Ignored && Free(l, '\n')
    {
      var k :| 0 <= k < |CommentLines(s)| && CommentLines(s)[k] == l;
      CommentLineIsComment(parts[k]);
    }
  }

  lemma {:induction false} AllCommentsSilent(comments: seq<string>)
    ensures Silent(AllComments(comments))
  {
    hide ReadLine, CommentLines;
    if comments != [] {
      AllCommentsSilent(comments[..|comments| - 1]);
      CommentsSilent(comments[|comments| - 1]);
    }
  }

  lemma {:induction false} NotesSilent(notes: seq<DraftNote>)
    ensures Silent(FlatMap(LinesOfNote, notes))
  {
    hide ReadLine, CommentLines, AllComments, NoteComments;
    if notes != [] {
      NotesSilent(notes[..|notes| - 1]);
      AllCommentsSilent(NoteComments(notes[|notes| - 1]));
    }
  }

  lemma {:induction false} SilentNoPairs(lines: seq<string>)
    requires Silent(lines)
    ensures FlatMap(PairIn, lines) == []
  {
    hide ReadLine;
    if lines != [] {
      var n := |lines| - 1;
      assert lines[n] in lines;
      SilentNoPairs(lines[..n]);
    }
  }

  /** Lines that read, and to these pairs. */
  ghost predicate ReadsAs(lines: seq<string>, pairs: seq<(string, string)>) {
    && (forall l <- lines :: Free(l, '\n') && !Malformed(l))
    && FlatMap(PairIn, lines) == pairs
  }

  lemma ReadsConcat(a: seq<string>, p: seq<(string, string)>, b: seq<string>, q: seq<(string, string)>, r: seq<(string, string)>)
    requires ReadsAs(a, p) && ReadsAs(b, q) && r == p + q
    ensures ReadsAs(a + b, r)
  {
    hide ReadLine;
    FlatMapConcat(PairIn, a, b);
  }

  lemma SilentReads(lines: seq<string>)
    requires Silent(lines)
    ensures ReadsAs(lines, [])
  {
    hide ReadLine, FlatMap;
    SilentNoPairs(lines);
    forall l | l in lines
      ensures !Malformed(l)
    {
      assert ReadLine(l) == Ignored;
    }
  }

  lemma BlankReads()
    ensures ReadsAs([""], [])
  {
    BlankIgnored();
    assert Silent([""]);
    SilentReads([""]);
  }

  lemma AssignmentLineReads(key: string, value: string)
    requires GoodKey(key) && Free(value, '\n')
    ensures ReadsAs([Assignment(key, value)], [(key, TrimSpace(value))])
  {
    hide ReadLine, TrimSpace;
    var line := Assignment(key, value);
    AssignmentReads(key, value);
    FlatMapSnoc(PairIn, [], line);
    assert [] + [line] == [line];
  }

  lemma LineReads(ln: DraftLine)
    requires ln.live ==> GoodKey(ln.key) && Free(ln.value, '\n')
    ensures ReadsAs(LinesOf(ln), LivePair(ln))
  {
    hide ReadLine, ReadsAs, CommentLines, TrimSpace, Assignment, Silent;
    BlankReads();
    CommentsSilent(ln.comment);
    SilentReads(CommentLines(ln.comment));
    ReadsConcat([""], [], CommentLines(ln.comment), [], []);
    if ln.live {
      AssignmentLineReads(ln.key, ln.value);
      ReadsConcat([""] + CommentLines(ln.comment), [], [Assignment(ln.key, ln.value)], LivePair(ln), LivePair(ln));
    } else {
      CommentsSilent(Assignment(ln.key, ln.value));
      SilentReads(CommentLines(Assignment(ln.key, ln.value)));
      ReadsConcat([""] + CommentLines(ln.comment), [], CommentLines(Assignment(ln.key, ln.value)), [], []);
    }
  }

  lemma {:induction false} AllLinesRead(lines: seq<DraftLine>)
    requires forall ln <- lines :: ln.live ==> GoodKey(ln.key) && Free(ln.value, '\n')
    ensures ReadsAs(FlatMap(LinesOf, lines), FlatMap(LivePair, lines))
  {
    hide LinesOf, LivePair, GoodKey, ReadLine;
    if lines != [] {
      var n := |lines| - 1;
      assert lines[n] in lines;
      AllLinesRead(lines[..n]);
      LineReads(lines[n]);
      ReadsConcat(FlatMap(LinesOf, lines[..n]), FlatMap(LivePair, lines[..n]), LinesOf(lines[n]), LivePair(lines[n]), FlatMap(LivePair, lines));
    }
  }

  lemma BlankThenSilent(lines: seq<string>)
    requires Silent(lines)
    ensures ReadsAs([""] + lines, [])
  {
    hide ReadsAs, Silent;
    BlankReads();
    SilentReads(lines);
    ReadsConcat([""], [], lines, [], []);
  }

  /** The rendered file parses, to exactly its live lines in order. */
  lemma RenderParsesBack(d: Draft)
    requires LiveClean(d)
    ensures ReadLines(Split(Text(DraftLines(d)), '\n')).Ok?
    ensures Pairs(ReadLines(Split(Text(DraftLines(d)), '\n')).value) == FlatMap(LivePair, d.lines)
  {
    hide ReadLine, ReadLines, ReadsAs, AllComments, Silent, GoodKey, LinesOf, LivePair, FlatMap, Split, Text, HeaderComments, Pairs, VerifyHint, NoteLines;
    var part1, part3, pairs := AllComments(HeaderComments(d.rev)), FlatMap(LinesOf, d.lines), FlatMap(LivePair, d.lines);
    AllCommentsSilent(HeaderComments(d.rev));
    SilentReads(part1);
    HintReads(d);
    AllLinesRead(d.lines);
    NotesRead(d);
    ReadsConcat(part1, [], VerifyHint(d), [], []);
    ReadsConcat(part1 + VerifyHint(d), [], part3, pairs, pairs);
    ReadsConcat(part1 + VerifyHint(d) + part3, pairs, NoteLines(d), [], pairs);
    ReadsAsIs(DraftLines(d), pairs);
    PrintedReads(DraftLines(d));
  }

  lemma HintReads(d: Draft)
    ensures ReadsAs(VerifyHint(d), [])
  {
    hide ReadsAs, AllComments, Silent;
    AllCommentsSilent(NO_VERIFY_COMMENTS);
    BlankThenSilent(AllComments(NO_VERIFY_COMMENTS));
    NothingReads();
  }

  lemma NotesRead(d: Draft)
    ensures ReadsAs(NoteLines(d), [])
  {
    hide ReadsAs, AllComments, Silent, FlatMap;
    AllCommentsSilent(NOTES_HEADER);
    BlankThenSilent(AllComments(NOTES_HEADER));
    NotesSilent(d.notes);
    SilentReads(FlatMap(LinesOfNote, d.notes));
    ReadsConcat([""] + AllComments(NOTES_HEADER), [], FlatMap(LinesOfNote, d.notes), [], []);
    NothingReads();
  }

  lemma NothingReads()
    ensures ReadsAs([], [])
  {
  }

  lemma ReadsAsIs(lines: seq<string>, pairs: seq<(string, string)>)
    requires ReadsAs(lines, pairs)
    ensures forall l <- lines :: Free(l, '\n') && !Malformed(l)
    ensures FlatMap(PairIn, lines) == pairs
  {
  }
}
