/** The text helpers of Go's strings package that the planner and the flat-file
    code are written with. */
module GoText {
  import opened Git

  /** unicode.IsSpace. */
  predicate IsSpace(c: char) {
    || '\t' <= c <= '\r' || c == ' ' || c == '\U{85}' || c == '\U{A0}'
    || c == '\U{1680}' || '\U{2000}' <= c <= '\U{200A}' || c == '\U{2028}' || c == '\U{2029}'
    || c == '\U{202F}' || c == '\U{205F}' || c == '\U{3000}'
  }

  function TrimLeft(s: string): string {
    if s != "" && IsSpace(s[0]) then TrimLeft(s[1..]) else s
  }

  function TrimRight(s: string): string {
    if s != "" && IsSpace(s[|s| - 1]) then TrimRight(s[..|s| - 1]) else s
  }

  function TrimSpace(s: string): string {
    TrimRight(TrimLeft(s))
  }

  predicate AllSpace(s: string) {
    forall c <- s :: IsSpace(c)
  }

  /** No space at either edge. */
  predicate Tight(s: string) {
    s != "" ==> !IsSpace(s[0]) && !IsSpace(s[|s| - 1])
  }

  lemma {:induction false} TrimLeftShape(s: string) returns (k: nat)
    ensures k <= |s| && AllSpace(s[..k]) && TrimLeft(s) == s[k..]
    ensures k < |s| ==> !IsSpace(s[k])
  {
    k := 0;
    if s != "" && IsSpace(s[0]) {
      k := TrimLeftShape(s[1..]);
      assert s[..k + 1] == [s[0]] + s[1..][..k];
      k := k + 1;
    }
  }

  lemma {:induction false} TrimRightShape(s: string) returns (k: nat)
    ensures k <= |s| && AllSpace(s[k..]) && TrimRight(s) == s[..k]
    ensures k > 0 ==> !IsSpace(s[k - 1])
  {
    k := |s|;
    if s != "" && IsSpace(s[|s| - 1]) {
      k := TrimRightShape(s[..|s| - 1]);
      assert s[k..] == s[..|s| - 1][k..] + [s[|s| - 1]];
    }
  }

  /** Trimming peels spaces off both edges and leaves none there. */
  lemma TrimShape(s: string) returns (left: string, right: string)
    ensures s == left + TrimSpace(s) + right && AllSpace(left) && AllSpace(right)
    ensures Tight(TrimSpace(s))
  {
    hide TrimLeft, TrimRight, IsSpace, AllSpace;
    var k := TrimLeftShape(s);
    var m := TrimRightShape(s[k..]);
    left, right := s[..k], s[k..][m..];
    assert TrimSpace(s) == s[k..][..m];
    assert s[k..] == s[k..][..m] + s[k..][m..];
    assert s == s[..k] + s[k..];
  }

  lemma {:induction false} TrimLeftSpaces(left: string, s: string)
    requires AllSpace(left) && (s != "" ==> !IsSpace(s[0]))
    ensures TrimLeft(left + s) == s
  {
    if left != "" {
      assert left[0] in left && (left + s)[1..] == left[1..] + s;
      TrimLeftSpaces(left[1..], s);
    } else {
      assert left + s == s;
    }
  }

  lemma {:induction false} TrimRightSpaces(s: string, right: string)
    requires AllSpace(right) && (s != "" ==> !IsSpace(s[|s| - 1]))
    ensures TrimRight(s + right) == s
  {
    if right != "" {
      var n := |right| - 1;
      assert right[n] in right && (s + right)[..|s| + n] == s + right[..n];
      TrimRightSpaces(s, right[..n]);
    } else {
      assert s + right == s;
    }
  }

  /** Padding a tight text with spaces is undone by trimming. */
  lemma TrimPadded(left: string, s: string, right: string)
    requires AllSpace(left) && AllSpace(right) && Tight(s)
    ensures TrimSpace(left + s + right) == s
  {
    if s == "" {
      assert left + s + right == (left + right) + "";
      assert AllSpace(left + right);
      TrimLeftSpaces(left + right, "");
    } else {
      assert left + s + right == left + (s + right);
      TrimLeftSpaces(left, s + right);
      TrimRightSpaces(s, right);
    }
  }

  lemma TrimIdempotent(s: string)
    ensures TrimSpace(TrimSpace(s)) == TrimSpace(s)
  {
    var _, _ := TrimShape(s);
    TrimPadded("", TrimSpace(s), "");
    assert "" + TrimSpace(s) + "" == TrimSpace(s);
  }

  /** Spaces around a text do not show after trimming. */
  lemma TrimIgnoresEdges(left: string, s: string, right: string)
    requires AllSpace(left) && AllSpace(right)
    ensures TrimSpace(left + s + right) == TrimSpace(s)
  {
    var l, r := TrimShape(s);
    assert left + s + right == (left + l) + TrimSpace(s) + (r + right);
    TrimPadded(left + l, TrimSpace(s), r + right);
  }

  lemma TrimEmptyIffSpace(s: string)
    ensures TrimSpace(s) == "" <==> AllSpace(s)
  {
    var l, r := TrimShape(s);
    if AllSpace(s) {
      TrimLeftSpaces(s, "");
      assert s + "" == s;
    }
  }

  // ---- splitting and joining ----

  /** strings.Split on one character: at least one piece. */
  function Split(s: string, sep: char): (parts: seq<string>)
    ensures parts != []
  {
    if s == "" then [""]
    else
      var rest := Split(s[1..], sep);
      if s[0] == sep then [""] + rest else [[s[0]] + rest[0]] + rest[1..]
  }

  function JoinWith(parts: seq<string>, sep: char): string {
    if parts == [] then "" else if |parts| == 1 then parts[0] else parts[0] + [sep] + JoinWith(parts[1..], sep)
  }

  predicate Free(s: string, c: char) {
    c !in s
  }

  lemma {:induction false} SplitPieces(s: string, sep: char)
    ensures forall k :: 0 <= k < |Split(s, sep)| ==> Free(Split(s, sep)[k], sep)
  {
    if s != "" {
      SplitPieces(s[1..], sep);
    }
  }

  lemma {:induction false} JoinSplit(s: string, sep: char)
    ensures JoinWith(Split(s, sep), sep) == s
  {
    if s != "" {
      var rest, c := Split(s[1..], sep), s[0];
      JoinSplit(s[1..], sep);
      if c == sep {
        assert ([""] + rest)[1..] == rest;
        assert "" + [sep] + s[1..] == s;
      } else {
        JoinCons(c, rest, sep);
        assert [c] + s[1..] == s;
      }
    }
  }

  lemma JoinCons(c: char, rest: seq<string>, sep: char)
    requires rest != []
    ensures JoinWith([[c] + rest[0]] + rest[1..], sep) == [c] + JoinWith(rest, sep)
  {
    var parts := [[c] + rest[0]] + rest[1..];
    assert parts[1..] == rest[1..];
    if |rest| > 1 {
      assert [c] + (rest[0] + [sep] + JoinWith(rest[1..], sep)) == parts[0] + [sep] + JoinWith(parts[1..], sep);
    }
  }

  lemma {:induction false} SplitFree(s: string, sep: char)
    requires Free(s, sep)
    ensures Split(s, sep) == [s]
  {
    if s != "" {
      assert s[0] in s;
      SplitFree(s[1..], sep);
      assert [s[0]] + s[1..] == s;
    }
  }

  lemma {:induction false} SplitAfterPiece(piece: string, sep: char, rest: string)
    requires Free(piece, sep)
    ensures Split(piece + [sep] + rest, sep) == [piece] + Split(rest, sep)
  {
    var s := piece + [sep] + rest;
    if piece == "" {
      assert s[1..] == rest;
    } else {
      assert piece[0] in piece;
      assert s[1..] == piece[1..] + [sep] + rest;
      SplitAfterPiece(piece[1..], sep, rest);
      assert [s[0]] + piece[1..] == piece;
      assert ([piece[1..]] + Split(rest, sep))[1..] == Split(rest, sep);
    }
  }

  /** strings.IndexByte. */
  function IndexOf(s: string, c: char): (i: Option<nat>)
    ensures i.None? <==> Free(s, c)
    ensures i.Some? ==> i.value < |s| && s[i.value] == c && Free(s[..i.value], c)
  {
    if s == "" then None
    else if s[0] == c then Some(0)
    else
      var rest := IndexOf(s[1..], c);
      assert s == [s[0]] + s[1..];
      if rest.None? then None
      else
        assert s[..rest.value + 1] == [s[0]] + s[1..][..rest.value];
        Some(rest.value + 1)
  }

  lemma {:induction false} IndexOfFirst(before: string, c: char, after: string)
    requires Free(before, c)
    ensures IndexOf(before + [c] + after, c) == Some(|before|)
  {
    if before != "" {
      assert before[0] in before;
      assert (before + [c] + after)[1..] == before[1..] + [c] + after;
      IndexOfFirst(before[1..], c, after);
    }
  }

  /** x lies between separators, or an edge, and holds none. */
  ghost predicate PieceAt(s: string, sep: char, a: string, x: string, b: string) {
    s == a + x + b && Free(x, sep) && (a == "" || a[|a| - 1] == sep) && (b == "" || b[0] == sep)
  }

  /** The pieces of a split are exactly what lies between separators. */
  lemma {:induction false} SplitMembers(s: string, sep: char, x: string)
    ensures x in Split(s, sep) <==> IsPiece(s, sep, x)
  {
    hide Split, PieceAt, IsPiece;
    if Free(s, sep) {
      SplitFree(s, sep);
      OnlyPiece(s, sep, x);
    } else {
      var i := IndexOf(s, sep).value;
      var first, rest := s[..i], s[i + 1..];
      assert s == first + [sep] + rest;
      SplitAfterPiece(first, sep, rest);
      SplitMembers(rest, sep, x);
      FirstPiece(s, sep, i, x);
    }
  }

  ghost predicate IsPiece(s: string, sep: char, x: string) {
    exists a, b :: PieceAt(s, sep, a, x, b)
  }

  lemma OnlyPiece(s: string, sep: char, x: string)
    requires Free(s, sep)
    ensures IsPiece(s, sep, x) <==> x == s
  {
    assert PieceAt(s, sep, "", s, "");
    forall a, b | PieceAt(s, sep, a, x, b)
      ensures x == s
    {
      assert forall k :: 0 <= k < |s| ==> s[k] != sep;
    }
  }

  lemma FirstPiece(s: string, sep: char, i: nat, x: string)
    requires i < |s| && s[i] == sep && Free(s[..i], sep)
    ensures IsPiece(s, sep, x) <==> x == s[..i] || IsPiece(s[i + 1..], sep, x)
  {
    hide PieceAt;
    var first, rest := s[..i], s[i + 1..];
    if x == first {
      assert PieceAt(s, sep, "", x, s[i..]) by {
        assert s == "" + s[..i] + s[i..];
        PieceIs(s, sep, "", x, s[i..]);
      }
    }
    if a, b :| PieceAt(rest, sep, a, x, b) {
      PieceIs(rest, sep, a, x, b);
      assert s == (first + [sep] + a) + x + b;
      PieceIs(s, sep, first + [sep] + a, x, b);
    }
    forall a, b | PieceAt(s, sep, a, x, b)
      ensures x == first || IsPiece(rest, sep, x)
    {
      PieceLater(s, sep, i, a, x, b);
    }
  }

  lemma PieceIs(s: string, sep: char, a: string, x: string, b: string)
    ensures PieceAt(s, sep, a, x, b) <==>
            s == a + x + b && Free(x, sep) && (a == "" || a[|a| - 1] == sep) && (b == "" || b[0] == sep)
  {
  }

  lemma PieceLater(s: string, sep: char, i: nat, a: string, x: string, b: string)
    requires i < |s| && s[i] == sep && Free(s[..i], sep) && PieceAt(s, sep, a, x, b)
    ensures x == s[..i] || IsPiece(s[i + 1..], sep, x)
  {
    forall k | 0 <= k < i
      ensures s[k] != sep
    {
      assert s[..i][k] in s[..i];
    }
    assert forall k :: 0 <= k < |x| ==> s[|a| + k] == x[k] && x[k] != sep;
    if a == "" {
      assert b != "" ==> s[|x|] == sep;
      assert |x| == i;
    } else {
      assert s[|a| - 1] == sep;
      var rest, c := s[i + 1..], a[i + 1..];
      assert rest == c + x + b;
      assert c != "" ==> c[|c| - 1] == sep;
      assert PieceAt(rest, sep, c, x, b);
    }
  }
}
