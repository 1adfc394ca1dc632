/** The flat KEY=VALUE lexer every configuration file shares, and the lines a
    printer must write for it to read them back. */
module FlatFile {
  import opened Git
  import opened Seqs
  import opened GoText

  datatype ConfigEntry = ConfigEntry(key: string, value: string, line: nat)

  datatype ConfigError = ExpectedKeyValue(line: nat) | EmptyKey(line: nat)

  datatype LineKind = Ignored | NoEquals | NoKey | Pair(key: string, value: string)

  function TrimCR(s: string): string {
    if s != "" && s[|s| - 1] == '\r' then s[..|s| - 1] else s
  }

  /** One line: blank or a comment, a key and its value around the first '=', or
      malformed. */
  function ReadLine(raw: string): LineKind {
    var line := TrimCR(raw);
    var trimmed := TrimSpace(line);
    if trimmed == "" || trimmed[0] == '#' then Ignored
    else
      var eq := IndexOf(line, '=');
      if eq.None? then NoEquals
      else
        var key := TrimSpace(line[..eq.value]);
        if key == "" then NoKey else Pair(key, TrimSpace(line[eq.value + 1..]))
  }

  /** The outcome after one more line, number n. */
  function AddLine(before: Result<seq<ConfigEntry>, ConfigError>, kind: LineKind, n: nat): Result<seq<ConfigEntry>, ConfigError> {
    if before.Err? then before
    else
      match kind
      case Ignored => before
      case NoEquals => Err(ExpectedKeyValue(n))
      case NoKey => Err(EmptyKey(n))
      case Pair(k, v) => Ok(before.value + [ConfigEntry(k, v, n)])
  }

  /** The entries of the lines, each with its 1-based number, or the first
      malformed line. */
  function ReadLines(lines: seq<string>): Result<seq<ConfigEntry>, ConfigError> {
    if lines == [] then Ok([])
    else AddLine(ReadLines(lines[..|lines| - 1]), ReadLine(lines[|lines| - 1]), |lines|)
  }

  lemma OneMoreLine(lines: seq<string>, i: nat)
    requires i < |lines|
    ensures ReadLines(lines[..i + 1]) == AddLine(ReadLines(lines[..i]), ReadLine(lines[i]), i + 1)
    ensures ReadLines(lines[..i + 1]).Err? ==> ReadLines(lines) == ReadLines(lines[..i + 1])
  {
    hide ReadLine;
    assert lines[..i + 1][..i] == lines[..i];
    StopsAt(lines, i + 1);
  }

  /** parseConfigFile. */
  method ParseConfigFile(data: string) returns (r: Result<seq<ConfigEntry>, ConfigError>)
    ensures r == ReadLines(Split(data, '\n'))
  {
    hide TrimSpace, IndexOf, Split, ReadLines, TrimCR;
    var lines := Split(data, '\n');
    var entries: seq<ConfigEntry> := [];
    NoLines(lines);
    for i := 0 to |lines|
      invariant ReadLines(lines[..i]) == Ok(entries)
    {
      OneMoreLine(lines, i);
      var line := TrimCR(lines[i]);
      var trimmed := TrimSpace(line);
      if trimmed == "" || trimmed[0] == '#' {
        continue;
      }
      var eq := IndexOf(line, '=');
      if eq.None? {
        return Err(ExpectedKeyValue(i + 1));
      }
      var key := TrimSpace(line[..eq.value]);
      if key == "" {
        return Err(EmptyKey(i + 1));
      }
      var value := TrimSpace(line[eq.value + 1..]);
      entries := entries + [ConfigEntry(key, value, i + 1)];
    }
    assert lines[..|lines|] == lines;
    r := Ok(entries);
  }

  lemma NoLines(lines: seq<string>)
    ensures ReadLines(lines[..0]) == Ok([])
  {
  }

  /** A malformed line decides the outcome, whatever follows. */
  lemma {:induction false} StopsAt(lines: seq<string>, i: nat)
    requires i <= |lines|
    ensures ReadLines(lines[..i]).Err? ==> ReadLines(lines) == ReadLines(lines[..i])
  {
    hide ReadLine;
    if i < |lines| {
      var n := |lines| - 1;
      assert lines[..n][..i] == lines[..i];
      StopsAt(lines[..n], i);
    } else {
      assert lines[..i] == lines;
    }
  }

  // ---- what a line is ----

  /** Nothing but space, or a '#' with nothing but space before it. */
  ghost predicate BlankOrComment(line: string) {
    AllSpace(line) || exists k :: 0 <= k < |line| && line[k] == '#' && AllSpace(line[..k])
  }

  /** A line, its carriage return off: blank or a comment, and so ignored; without
      an '=', malformed; with nothing but space before its first '=', malformed; or
      else the pair of what stands before and after that '=', trimmed. */
  lemma LineReads(raw: string, line: string)
    requires line == if raw != "" && raw[|raw| - 1] == '\r' then raw[..|raw| - 1] else raw
    ensures ReadLine(raw) == Ignored <==> BlankOrComment(line)
    ensures !BlankOrComment(line) && '=' !in line ==> ReadLine(raw) == NoEquals
    ensures forall k: nat :: !BlankOrComment(line) && k < |line| && line[k] == '=' && '=' !in line[..k] ==>
              ReadLine(raw) == if AllSpace(line[..k]) then NoKey else Pair(TrimSpace(line[..k]), TrimSpace(line[k + 1..]))
  {
    assert line == TrimCR(raw);
    CommentIff(line);
    hide TrimSpace, AllSpace, BlankOrComment;
    forall k: nat | k < |line| && line[k] == '=' && '=' !in line[..k]
      ensures IndexOf(line, '=') == Some(k)
    {
      assert line == line[..k] + ['='] + line[k + 1..];
      IndexOfFirst(line[..k], '=', line[k + 1..]);
    }
    forall k: nat | k < |line|
      ensures TrimSpace(line[..k]) == "" <==> AllSpace(line[..k])
    {
      TrimEmptyIffSpace(line[..k]);
    }
  }

  lemma CommentIff(line: string)
    ensures TrimSpace(line) == "" || TrimSpace(line)[0] == '#' <==> BlankOrComment(line)
  {
    TrimEmptyIffSpace(line);
    var left, right := TrimShape(line);
    var body := TrimSpace(line);
    if body != "" {
      assert line[..|left|] == left && line[|left|] == body[0];
      assert !IsSpace('#') && !IsSpace(line[|left|]);
      assert forall m :: 0 <= m < |left| ==> line[m] == left[m] && left[m] in left && IsSpace(line[m]);
      if k :| 0 <= k < |line| && line[k] == '#' && AllSpace(line[..k]) {
        assert forall m :: 0 <= m < k ==> line[..k][m] in line[..k] && IsSpace(line[m]);
        assert k == |left|;
      }
    }
  }

  /** A malformed text fails on its first malformed line, with that line's number
      and what is wrong with it. */
  lemma {:induction false} FirstMalformed(lines: seq<string>, i: nat)
    requires i < |lines| && Malformed(lines[i]) && forall k :: 0 <= k < i ==> !Malformed(lines[k])
    ensures ReadLines(lines) == Err(if ReadLine(lines[i]).NoEquals? then ExpectedKeyValue(i + 1) else EmptyKey(i + 1))
  {
    hide ReadLine;
    var n := |lines| - 1;
    if i < n {
      FirstMalformed(lines[..n], i);
    } else {
      assert NoneMalformed(lines[..n]);
      ParsesIff(lines[..n]);
    }
  }

  /** Every entry is the pair of the line with its number. */
  lemma {:induction false} EntriesNumbered(lines: seq<string>)
    requires ReadLines(lines).Ok?
    ensures forall e <- ReadLines(lines).value :: 1 <= e.line <= |lines| && ReadLine(lines[e.line - 1]) == Pair(e.key, e.value)
  {
    if lines != [] {
      hide ReadLine;
      var n := |lines| - 1;
      EntriesNumbered(lines[..n]);
    }
  }

  // ---- what a printed text reads back as ----

  predicate Malformed(raw: string) {
    ReadLine(raw).NoEquals? || ReadLine(raw).NoKey?
  }

  function PairIn(raw: string): seq<(string, string)> {
    if ReadLine(raw).Pair? then [(ReadLine(raw).key, ReadLine(raw).value)] else []
  }

  function PairOf(e: ConfigEntry): (string, string) {
    (e.key, e.value)
  }

  function Pairs(entries: seq<ConfigEntry>): seq<(string, string)> {
    seq(|entries|, k requires 0 <= k < |entries| => PairOf(entries[k]))
  }

  ghost predicate NoneMalformed(lines: seq<string>) {
    forall k :: 0 <= k < |lines| ==> !Malformed(lines[k])
  }

  lemma NoneMalformedSnoc(lines: seq<string>)
    requires lines != []
    ensures NoneMalformed(lines) <==> NoneMalformed(lines[..|lines| - 1]) && !Malformed(lines[|lines| - 1])
  {
    hide Malformed;
    var n := |lines| - 1;
    if NoneMalformed(lines[..n]) && !Malformed(lines[n]) {
      forall k | 0 <= k < |lines|
        ensures !Malformed(lines[k])
      {
        if k < n {
          assert !Malformed(lines[..n][k]);
        }
      }
    }
    if NoneMalformed(lines) {
      forall k | 0 <= k < n
        ensures !Malformed(lines[..n][k])
      {
        assert !Malformed(lines[k]);
      }
    }
  }

  /** One more line: the outcome, and the pairs it adds. */
  lemma AddLineReads(before: Result<seq<ConfigEntry>, ConfigError>, raw: string, n: nat)
    ensures AddLine(before, ReadLine(raw), n).Ok? <==> before.Ok? && !Malformed(raw)
    ensures AddLine(before, ReadLine(raw), n).Ok? ==>
              Pairs(AddLine(before, ReadLine(raw), n).value) == Pairs(before.value) + PairIn(raw)
  {
    hide ReadLine;
  }

  /** A text parses iff no line is malformed, and then to its lines' pairs in order. */
  lemma {:induction false} ParsesIff(lines: seq<string>)
    ensures ReadLines(lines).Ok? <==> NoneMalformed(lines)
    ensures ReadLines(lines).Ok? ==> Pairs(ReadLines(lines).value) == FlatMap(PairIn, lines)
  {
    if lines != [] {
      hide ReadLine, Malformed, NoneMalformed, AddLine, Pairs, PairIn;
      var n := |lines| - 1;
      ParsesIff(lines[..n]);
      NoneMalformedSnoc(lines);
      AddLineReads(ReadLines(lines[..n]), lines[n], |lines|);
    }
  }

  /** Lines written out, each with its newline. */
  function Text(lines: seq<string>): string {
    if lines == [] then "" else lines[0] + ['\n'] + Text(lines[1..])
  }

  lemma {:induction false} TextConcat(a: seq<string>, b: seq<string>)
    ensures Text(a + b) == Text(a) + Text(b)
  {
    if a == [] {
      assert a + b == b;
    } else {
      assert (a + b)[1..] == a[1..] + b;
      TextConcat(a[1..], b);
    }
  }

  lemma TextOne(line: string)
    ensures Text([line]) == line + ['\n']
  {
    assert Text([line]) == line + ['\n'] + Text([]);
  }

  lemma {:induction false} TextSplits(lines: seq<string>)
    requires forall l <- lines :: Free(l, '\n')
    ensures Split(Text(lines), '\n') == lines + [""]
  {
    if lines != [] {
      assert lines[0] in lines;
      TextSplits(lines[1..]);
      SplitAfterPiece(lines[0], '\n', Text(lines[1..]));
      assert [lines[0]] + (lines[1..] + [""]) == lines + [""];
    }
  }

  /** Lines free of newlines, printed and parsed, are read one by one. */
  lemma PrintedReads(lines: seq<string>)
    requires forall l <- lines :: Free(l, '\n') && !Malformed(l)
    ensures ReadLines(Split(Text(lines), '\n')).Ok?
    ensures Pairs(ReadLines(Split(Text(lines), '\n')).value) == FlatMap(PairIn, lines)
  {
    hide ReadLine, ReadLines, Pairs, Text, Split, FlatMap;
    TextSplits(lines);
    BlankIgnored();
    assert PairIn("") == [];
    forall k | 0 <= k < |lines + [""]|
      ensures !Malformed((lines + [""])[k])
    {
      assert k < |lines| ==> (lines + [""])[k] in lines;
    }
    ParsesIff(lines + [""]);
    FlatMapSnoc(PairIn, lines, "");
  }

  lemma BlankIgnored()
    ensures ReadLine("") == Ignored
  {
  }

  /** A line that starts with '#' is ignored. */
  lemma CommentIgnored(rest: string)
    ensures ReadLine(['#'] + rest) == Ignored
  {
    var raw := ['#'] + rest;
    var line := TrimCR(raw);
    assert line[0] == '#';
    TrimKeepsFirst(line);
  }

  lemma {:induction false} TrimKeepsFirst(s: string)
    requires s != "" && !IsSpace(s[0])
    ensures TrimLeft(s) == s && TrimRight(s) != "" && TrimRight(s)[0] == s[0]
  {
    if IsSpace(s[|s| - 1]) {
      TrimKeepsFirst(s[..|s| - 1]);
    }
  }

  /** A key the lexer can read back. */
  predicate GoodKey(key: string) {
    key != "" && Tight(key) && Free(key, '=') && Free(key, '\n') && key[0] != '#'
  }

  /** `key = value` reads back as the key and the edge-trimmed value. */
  lemma AssignmentReads(key: string, value: string)
    requires GoodKey(key)
    ensures ReadLine(key + " = " + value) == Pair(key, TrimSpace(value))
  {
    hide TrimLeft, TrimRight, IsSpace;
    var raw := key + " = " + value;
    var before, tail := key + " ", " " + value;
    assert raw == before + ['='] + tail;
    TrimCRShape(raw);
    var line := TrimCR(raw);
    assert raw[0] == key[0] && !IsSpace(key[0]);
    var tail' := TrimCR(tail);
    assert tail != "";
    assert line == before + ['='] + tail' by {
      LastOfTail(before + ['='], tail);
    }
    assert line[0] == key[0];
    TrimKeepsFirst(line);
    assert Free(before, '=');
    IndexOfFirst(before, '=', tail');
    assert line[..|before|] == before && line[|before| + 1..] == tail';
    KeyTrims(key);
    TailTrims(value);
  }

  lemma TrimCRShape(s: string)
    ensures s == TrimCR(s) || s == TrimCR(s) + ['\r']
  {
  }

  lemma LastOfTail(before: string, tail: string)
    requires tail != ""
    ensures TrimCR(before + tail) == before + TrimCR(tail)
  {
    assert (before + tail)[|before + tail| - 1] == tail[|tail| - 1];
  }

  lemma KeyTrims(key: string)
    requires Tight(key)
    ensures TrimSpace(key + " ") == key
  {
    TrimPadded("", key, " ");
    assert "" + key + " " == key + " ";
  }

  lemma TailTrims(value: string)
    ensures TrimSpace(TrimCR(" " + value)) == TrimSpace(value)
  {
    hide TrimSpace;
    var tail := " " + value;
    TrimCRShape(tail);
    if tail == TrimCR(tail) {
      TrimIgnoresEdges(" ", value, "");
      assert " " + value + "" == tail;
    } else {
      TrimIgnoresEdges("", TrimCR(tail), "\r");
      assert "" + TrimCR(tail) + "\r" == tail;
      TrimIgnoresEdges(" ", value, "");
      assert " " + value + "" == tail;
    }
  }

  /** Stripping a carriage return does not show after trimming. */
  lemma TrimCRUnseen(s: string)
    ensures TrimSpace(TrimCR(s)) == TrimSpace(s)
  {
    hide TrimSpace;
    TrimCRShape(s);
    if s != TrimCR(s) {
      TrimIgnoresEdges("", TrimCR(s), "\r");
      assert "" + TrimCR(s) + "\r" == s;
    }
  }
}
