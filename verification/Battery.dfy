/** The verify battery: members composed into one shell command, each quoted
    into a shell of its own, and what running that command amounts to under the
    rules of POSIX.1-2017, volume XCU. */
module Battery {
  import opened Git
  import opened GoText

  // ---- composing ----

  /** Every single quote closed, escaped and reopened. */
  function Escaped(s: string): string {
    if s == "" then "" else (if s[0] == '\'' then "'\\''" else [s[0]]) + Escaped(s[1..])
  }

  function ShellQuote(s: string): string {
    "'" + Escaped(s) + "'"
  }

  function JoinAnd(parts: seq<string>): string {
    if parts == [] then ""
    else if |parts| == 1 then parts[0]
    else parts[0] + " && " + JoinAnd(parts[1..])
  }

  function Nested(members: seq<string>): seq<string> {
    seq(|members|, k requires 0 <= k < |members| => "sh -c " + ShellQuote(members[k]))
  }

  /** joinVerifyBattery. */
  function JoinVerifyBattery(members: seq<string>): string {
    if |members| == 1 then members[0] else JoinAnd(Nested(members))
  }

  // ---- the shell's token recognition ----

  datatype Token = Word(text: string) | AndIf

  /** Characters that stand for themselves outside quotes. Anything with a
      meaning of its own (expansions, redirections, other operators, comments,
      assignments) is not part of this fragment and does not lex. */
  predicate Ordinary(c: char) {
    'a' <= c <= 'z' || 'A' <= c <= 'Z' || '0' <= c <= '9' || c == '-' || c == '_' || c == '.' || c == '/' || c == ','
  }

  predicate Blank(c: char) {
    c == ' ' || c == '\t'
  }

  function Flush(word: Option<string>): seq<Token> {
    if word.Some? then [Word(word.value)] else []
  }

  function Sofar(word: Option<string>): string {
    if word.Some? then word.value else ""
  }

  function Then(first: seq<Token>, rest: Option<seq<Token>>): Option<seq<Token>> {
    if rest.Some? then Some(first + rest.value) else None
  }

  /** Outside quotes. `word` is the token being delimited, if one has begun. */
  function Lex(s: string, word: Option<string>): Option<seq<Token>>
    decreases |s|
  {
    if s == "" then Some(Flush(word))
    else if s[0] == '\'' then LexQuoted(s[1..], Sofar(word))
    else if s[0] == '\\' then
      // section 2.2.1: preserves the next character; before a newline, both go
      if |s| == 1 then None
      else if s[1] == '\n' then Lex(s[2..], word)
      else Lex(s[2..], Some(Sofar(word) + [s[1]]))
    else if Blank(s[0]) then Then(Flush(word), Lex(s[1..], None))
    else if s[0] == '&' then
      if |s| > 1 && s[1] == '&' then Then(Flush(word) + [AndIf], Lex(s[2..], None)) else None
    else if Ordinary(s[0]) then Lex(s[1..], Some(Sofar(word) + [s[0]]))
    else None
  }

  /** Section 2.2.2: inside single quotes every character is literal, up to the
      closing quote. */
  function LexQuoted(s: string, word: string): Option<seq<Token>>
    decreases |s|
  {
    if s == "" then None
    else if s[0] == '\'' then Lex(s[1..], Some(word))
    else LexQuoted(s[1..], word + [s[0]])
  }

  /** Section 2.9.3: simple commands separated by AND operators, none empty. */
  function AndList(tokens: seq<Token>): Option<seq<seq<string>>> {
    if tokens == [] then None
    else
      var t, front := tokens[|tokens| - 1], tokens[..|tokens| - 1];
      match t
      case AndIf => None
      case Word(w) =>
        if front == [] then Some([[w]])
        else if front[|front| - 1].AndIf? then
          var before := AndList(front[..|front| - 1]);
          if before.None? then None else Some(before.value + [[w]])
        else
          var before := AndList(front);
          if before.None? || before.value == [] then None else Some(Extend(before.value, w))
  }

  function Extend(list: seq<seq<string>>, w: string): seq<seq<string>>
    requires list != []
  {
    list[..|list| - 1] + [list[|list| - 1] + [w]]
  }

  function Parse(s: string): Option<seq<seq<string>>> {
    var tokens := Lex(s, None);
    if tokens.None? then None else AndList(tokens.value)
  }

  // ---- lexing the battery gives back its members ----

  lemma LexOrdinary(c: char, rest: string, word: Option<string>)
    requires Ordinary(c)
    ensures Lex([c] + rest, word) == Lex(rest, Some(Sofar(word) + [c]))
  {
    assert ([c] + rest)[1..] == rest;
  }

  lemma LexBlank(rest: string, word: Option<string>)
    ensures Lex([' '] + rest, word) == Then(Flush(word), Lex(rest, None))
  {
    assert ([' '] + rest)[1..] == rest;
  }

  lemma LexAnd(rest: string, word: Option<string>)
    ensures Lex(['&', '&'] + rest, word) == Then(Flush(word) + [AndIf], Lex(rest, None))
  {
    assert (['&', '&'] + rest)[2..] == rest;
  }

  lemma LexOpen(rest: string, word: Option<string>)
    ensures Lex(['\''] + rest, word) == LexQuoted(rest, Sofar(word))
  {
    assert (['\''] + rest)[1..] == rest;
  }

  lemma LexEscape(c: char, rest: string, word: Option<string>)
    requires c != '\n'
    ensures Lex(['\\', c] + rest, word) == Lex(rest, Some(Sofar(word) + [c]))
  {
    assert (['\\', c] + rest)[2..] == rest;
  }

  lemma QuotedClose(rest: string, word: string)
    ensures LexQuoted(['\''] + rest, word) == Lex(rest, Some(word))
  {
    assert (['\''] + rest)[1..] == rest;
  }

  lemma QuotedChar(c: char, rest: string, word: string)
    requires c != '\''
    ensures LexQuoted([c] + rest, word) == LexQuoted(rest, word + [c])
  {
    assert ([c] + rest)[1..] == rest;
  }

  /** Close, escaped quote, reopen: one quote character in the word. */
  lemma QuoteEscape(tail: string, word: string)
    ensures LexQuoted("'\\''" + tail, word) == LexQuoted(tail, word + ['\''])
  {
    hide Lex, LexQuoted;
    QuotedClose(['\\', '\''] + (['\''] + tail), word);
    LexEscape('\'', ['\''] + tail, Some(word));
    LexOpen(tail, Some(word + ['\'']));
    assert "'\\''" + tail == ['\''] + (['\\', '\''] + (['\''] + tail));
  }

  /** Whatever a member contains, its quoted form is one literal piece of word. */
  lemma {:induction false} QuotedIsLiteral(m: string, rest: string, word: string)
    ensures LexQuoted(Escaped(m) + (['\''] + rest), word) == Lex(rest, Some(word + m))
    decreases |m|
  {
    hide Lex, LexQuoted;
    if m == "" {
      QuotedClose(rest, word);
      assert Escaped(m) + (['\''] + rest) == ['\''] + rest;
      assert word + m == word;
    } else {
      var tail := Escaped(m[1..]) + (['\''] + rest);
      assert word + m == word + [m[0]] + m[1..];
      QuotedIsLiteral(m[1..], rest, word + [m[0]]);
      if m[0] == '\'' {
        assert Escaped(m) + (['\''] + rest) == "'\\''" + tail;
        QuoteEscape(tail, word);
      } else {
        assert Escaped(m) + (['\''] + rest) == [m[0]] + tail;
        QuotedChar(m[0], tail, word);
      }
    }
  }

  lemma QuotedWord(m: string, rest: string)
    ensures Lex(ShellQuote(m) + rest, None) == Lex(rest, Some(m))
  {
    hide Lex, LexQuoted;
    var body := Escaped(m) + (['\''] + rest);
    assert ShellQuote(m) + rest == ['\''] + body;
    LexOpen(body, None);
    QuotedIsLiteral(m, rest, "");
    assert "" + m == m;
  }

  /** A two-character word, then a blank. */
  lemma ShortWord(a: char, b: char, rest: string)
    requires Ordinary(a) && Ordinary(b)
    ensures Lex([a, b, ' '] + rest, None) == Then([Word([a, b])], Lex(rest, None))
  {
    hide Lex, LexQuoted;
    assert [a, b, ' '] + rest == [a] + ([b] + ([' '] + rest));
    LexOrdinary(a, [b] + ([' '] + rest), None);
    LexOrdinary(b, [' '] + rest, Some("" + [a]));
    LexBlank(rest, Some("" + [a] + [b]));
    assert "" + [a] + [b] == [a, b];
  }

  function CommandTokens(m: string): seq<Token> {
    [Word("sh"), Word("-c"), Word(m)]
  }

  lemma ThenThen(a: seq<Token>, b: seq<Token>, rest: Option<seq<Token>>)
    ensures Then(a, Then(b, rest)) == Then(a + b, rest)
  {
    if rest.Some? {
      assert a + (b + rest.value) == (a + b) + rest.value;
    }
  }

  /** One nested command, whatever follows its closing quote. */
  lemma NestedLexes(m: string, rest: string)
    ensures Lex("sh -c " + ShellQuote(m) + rest, None) == Then([Word("sh"), Word("-c")], Lex(rest, Some(m)))
  {
    hide Lex, LexQuoted, ShellQuote, Then;
    var quoted := ShellQuote(m) + rest;
    QuotedWord(m, rest);
    ShortWord('-', 'c', quoted);
    ShortWord('s', 'h', ['-', 'c', ' '] + quoted);
    assert "sh -c " + ShellQuote(m) + rest == ['s', 'h', ' '] + (['-', 'c', ' '] + quoted);
    ThenThen([Word("sh")], [Word("-c")], Lex(rest, Some(m)));
    assert [Word("sh")] + [Word("-c")] == [Word("sh"), Word("-c")];
  }

  lemma AndThenLexes(m: string, rest: string)
    ensures Lex(" && " + rest, Some(m)) == Then([Word(m), AndIf], Lex(rest, None))
  {
    hide Lex, LexQuoted, Then;
    assert " && " + rest == [' '] + (['&', '&'] + ([' '] + rest));
    LexBlank(['&', '&'] + ([' '] + rest), Some(m));
    LexAnd([' '] + rest, None);
    LexBlank(rest, None);
    ThenThen([AndIf], [], Lex(rest, None));
    ThenThen([Word(m)], [AndIf], Lex(rest, None));
    assert [] + [AndIf] == [AndIf] == [AndIf] + [] && [Word(m)] + [AndIf] == [Word(m), AndIf];
  }

  function BatteryTokens(members: seq<string>): seq<Token> {
    if members == [] then []
    else if |members| == 1 then CommandTokens(members[0])
    else CommandTokens(members[0]) + [AndIf] + BatteryTokens(members[1..])
  }

  lemma NoMoreTokens(m: string)
    ensures Lex("", Some(m)) == Some([Word(m)])
  {
  }

  lemma {:induction false} BatteryLexes(members: seq<string>)
    requires members != []
    ensures Lex(JoinAnd(Nested(members)), None) == Some(BatteryTokens(members))
  {
    hide Lex, LexQuoted, ShellQuote;
    var m, parts := members[0], Nested(members);
    if |members| == 1 {
      NestedLexes(m, "");
      NoMoreTokens(m);
      assert parts[0] + "" == parts[0];
      assert [Word("sh"), Word("-c")] + [Word(m)] == CommandTokens(m);
    } else {
      var rest := JoinAnd(Nested(members[1..]));
      assert parts[1..] == Nested(members[1..]);
      assert JoinAnd(parts) == parts[0] + (" && " + rest);
      BatteryLexes(members[1..]);
      NestedLexes(m, " && " + rest);
      AndThenLexes(m, rest);
      assert [Word("sh"), Word("-c")] + ([Word(m), AndIf] + BatteryTokens(members[1..])) == BatteryTokens(members);
    }
  }

  function Commands(members: seq<string>): seq<seq<string>> {
    seq(|members|, k requires 0 <= k < |members| => ["sh", "-c", members[k]])
  }

  lemma ExtendLast(list: seq<seq<string>>, last: seq<string>, w: string)
    ensures Extend(list + [last], w) == list + [last + [w]]
  {
    assert (list + [last])[..|list|] == list;
  }

  /** A word after a word extends the last command. */
  lemma AndListWord(tokens: seq<Token>, list: seq<seq<string>>, last: seq<string>, w: string)
    requires tokens != [] && tokens[|tokens| - 1].Word? && AndList(tokens) == Some(list + [last])
    ensures AndList(tokens + [Word(w)]) == Some(list + [last + [w]])
  {
    hide Extend;
    assert (tokens + [Word(w)])[..|tokens|] == tokens;
    ExtendLast(list, last, w);
  }

  /** The words of one more command, from the first. */
  lemma AndListCommand(tokens: seq<Token>, list: seq<seq<string>>, m: string)
    requires AndList(tokens + [Word("sh")]) == Some(list + [["sh"]])
    ensures AndList(tokens + CommandTokens(m)) == Some(list + [["sh", "-c", m]])
  {
    hide AndList;
    AndListWord(tokens + [Word("sh")], list, ["sh"], "-c");
    assert ["sh"] + ["-c"] == ["sh", "-c"];
    AndListWord(tokens + [Word("sh")] + [Word("-c")], list, ["sh", "-c"], m);
    assert ["sh", "-c"] + [m] == ["sh", "-c", m];
    assert tokens + [Word("sh")] + [Word("-c")] + [Word(m)] == tokens + CommandTokens(m);
  }

  lemma AndListSnoc(tokens: seq<Token>, list: seq<seq<string>>, m: string)
    requires AndList(tokens) == Some(list)
    ensures AndList(tokens + [AndIf] + CommandTokens(m)) == Some(list + [["sh", "-c", m]])
  {
    var t1 := tokens + [AndIf] + [Word("sh")];
    assert t1[..|t1| - 1] == tokens + [AndIf] && (tokens + [AndIf])[..|tokens|] == tokens;
    AndListCommand(tokens + [AndIf], list, m);
  }

  lemma OneCommand(m: string)
    ensures AndList(CommandTokens(m)) == Some([["sh", "-c", m]])
  {
    var first: seq<Token>, none: seq<seq<string>> := [Word("sh")], [];
    assert first[..0] == [] && [] + first == first && none + [["sh"]] == [["sh"]];
    assert AndList(first) == Some([["sh"]]);
    AndListCommand([], none, m);
    assert [] + CommandTokens(m) == CommandTokens(m) && [] + [["sh", "-c", m]] == [["sh", "-c", m]];
  }

  lemma {:induction false} BatteryTokensSnoc(members: seq<string>, m: string)
    requires members != []
    ensures BatteryTokens(members + [m]) == BatteryTokens(members) + [AndIf] + CommandTokens(m)
  {
    var all := members + [m];
    assert all[1..] == members[1..] + [m];
    if |members| > 1 {
      BatteryTokensSnoc(members[1..], m);
    }
  }

  lemma {:induction false} BatteryTokensParse(members: seq<string>)
    requires members != []
    ensures AndList(BatteryTokens(members)) == Some(Commands(members))
  {
    hide AndList;
    var n := |members| - 1;
    if n == 0 {
      OneCommand(members[0]);
      assert Commands(members) == [["sh", "-c", members[0]]];
    } else {
      BatteryTokensParse(members[..n]);
      BatteryTokensSnoc(members[..n], members[n]);
      assert members[..n] + [members[n]] == members;
      AndListSnoc(BatteryTokens(members[..n]), Commands(members[..n]), members[n]);
      assert Commands(members) == Commands(members[..n]) + [["sh", "-c", members[n]]];
    }
  }

  /** For all member strings: the composed battery reads back as exactly the
      members, in order, each the argument of a shell of its own. */
  lemma BatteryReadsBack(members: seq<string>)
    requires |members| >= 2
    ensures Parse(JoinVerifyBattery(members)) == Some(Commands(members))
  {
    hide Lex, AndList, JoinAnd, Commands;
    BatteryLexes(members);
    BatteryTokensParse(members);
  }

  // ---- running it ----

  /** `sh -c command` in some state of the worktree: its verdict, and the state
      it leaves. Any deterministic behaviour. */
  type Shell<!W> = (string, W) -> (bool, W)

  /** An AND list of nested shells: each runs where the one before left off, and
      the first failure is the end. */
  function RunAnd<W>(sh: Shell<W>, list: seq<seq<string>>, w: W): (bool, W)
    requires forall c <- list :: |c| == 3
  {
    if list == [] then (true, w)
    else
      var r := RunAnd(sh, list[..|list| - 1], w);
      assert list[|list| - 1] in list;
      if !r.0 then r else sh(list[|list| - 1][2], r.1)
  }

  /** The shell runs an AND list of `sh -c` commands as section 2.9.3 says. */
  ghost predicate Conforms<W(!new)>(sh: Shell<W>) {
    forall s: string, w: W, members: seq<string> :: Parse(s) == Some(Commands(members)) ==> sh(s, w) == RunAnd(sh, Commands(members), w)
  }

  /** The members one after another, each where the last one left off. */
  function RunAll<W>(sh: Shell<W>, members: seq<string>, w: W): (bool, W) {
    if members == [] then (true, w)
    else
      var r := RunAll(sh, members[..|members| - 1], w);
      if !r.0 then r else sh(members[|members| - 1], r.1)
  }

  lemma {:induction false} RunAndIsRunAll<W>(sh: Shell<W>, members: seq<string>, w: W)
    ensures RunAnd(sh, Commands(members), w) == RunAll(sh, members, w)
  {
    if members != [] {
      var n := |members| - 1;
      assert Commands(members)[..n] == Commands(members[..n]);
      RunAndIsRunAll(sh, members[..n], w);
    }
  }

  /** The battery succeeds iff every member does, in order. */
  lemma BatteryRunsItsMembers<W(!new)>(sh: Shell<W>, members: seq<string>, w: W)
    requires Conforms(sh) && members != []
    ensures sh(JoinVerifyBattery(members), w) == RunAll(sh, members, w)
  {
    hide Parse, Commands;
    if |members| == 1 {
      assert members[..0] == [];
    } else {
      BatteryReadsBack(members);
      RunAndIsRunAll(sh, members, w);
    }
  }

  lemma {:induction false} RunAllConcat<W>(sh: Shell<W>, a: seq<string>, b: seq<string>, w: W)
    ensures RunAll(sh, a + b, w) == var r := RunAll(sh, a, w); if r.0 then RunAll(sh, b, r.1) else r
  {
    if b == [] {
      assert a + b == a;
    } else {
      assert (a + b)[..|a + b| - 1] == a + b[..|b| - 1];
      RunAllConcat(sh, a, b[..|b| - 1], w);
    }
  }

  /** Batteries nest: an already composed battery inside another runs as if its
      members had been listed there. */
  lemma NestedBatteryIsFlat<W(!new)>(sh: Shell<W>, outer: seq<string>, inner: seq<string>, w: W)
    requires Conforms(sh) && inner != []
    ensures sh(JoinVerifyBattery(outer + [JoinVerifyBattery(inner)]), w) == RunAll(sh, outer + inner, w)
  {
    hide JoinVerifyBattery, Conforms;
    var whole := outer + [JoinVerifyBattery(inner)];
    BatteryRunsItsMembers(sh, whole, w);
    assert whole[..|whole| - 1] == outer;
    RunAllConcat(sh, outer, inner, w);
    BatteryRunsItsMembers(sh, inner, RunAll(sh, outer, w).1);
  }

  /** A green run passed every member in turn. */
  lemma {:induction false} AllPassed<W>(sh: Shell<W>, members: seq<string>, w: W, k: nat)
    requires k < |members| && RunAll(sh, members, w).0
    ensures RunAll(sh, members[..k], w).0 && sh(members[k], RunAll(sh, members[..k], w).1).0
  {
    var n := |members| - 1;
    if k < n {
      AllPassed(sh, members[..n], w, k);
      assert members[..n][..k] == members[..k];
    }
  }
}
