/** Texts with marks of one kind only: whatever else is in them, the tags nest. */
module TelegramOneKind {
  import opened HtmlEntities
  import opened Patterns
  import TelegramDocuments
  import TelegramForms
  import opened TelegramHtml
  import opened TelegramNesting
  import opened Wrappers

  // ---- One pass over text without tags ----

  lemma MatchIsClosed(p: Pattern, s: string, m: Match)
    requires IsTelegram(p) && '<' !in s && MatchAt(p, s) == Some(m)
    ensures IsClosed(m.replacement)
  {
    if p.CodeBlock? {
      var i, j := CodeBlockShape(s, p.isWord);
      FenceIsClosed(s[i..j]);
    } else if p.Link? {
      var i, j := LinkShape(s);
      AnchorIsClosed(s[1..i], s[i + 2..j]);
    } else {
      var mark, inside, w := SpanShape(p, s);
      var end := MarkedShape(s, mark, inside, Spelled(Opening(w)), Spelled(Closing(w)));
      NoTagsIsClosed(s[|mark|..end]);
      WrapIsClosed(w, s[|mark|..end]);
    }
  }

  lemma {:induction false} PassIsClosed(p: Pattern, s: string)
    requires IsTelegram(p) && '<' !in s
    ensures IsClosed(Rewrite(p, s))
    decreases |s|
  {
    if s == "" {
      NoTagsIsClosed(s);
    } else if MatchAt(p, s).Some? {
      var m := MatchAt(p, s).value;
      MatchIsClosed(p, s, m);
      PassIsClosed(p, s[m.length..]);
      ClosedJoins(m.replacement, Rewrite(p, s[m.length..]));
    } else {
      NoTagsIsClosed([s[0]]);
      PassIsClosed(p, s[1..]);
      ClosedJoins([s[0]], Rewrite(p, s[1..]));
    }
  }

  // ---- Runs of a mark ----

  /** Wherever the character stands, it stands `n` times in a row and no more. */
  predicate InRuns(s: string, c: char, n: nat)
    requires n > 0
    decreases |s|
  {
    if s == "" then true
    else if s[0] != c then InRuns(s[1..], c, n)
    else
      && n <= |s|
      && (forall i | 0 <= i < n :: s[i] == c)
      && (|s| > n ==> s[n] != c)
      && InRuns(s[n..], c, n)
  }

  /** The passes that look for two or three marks in a row find none in runs of one. */
  lemma {:induction false} SingleMarksStay(p: Pattern, s: string, c: char)
    requires IsTelegram(p) && (p.CodeBlock? || p.Bold?) && Start(p) == c && InRuns(s, c, 1)
    ensures Rewrite(p, s) == s
    decreases |s|
  {
    if s != "" {
      SingleMarksStay(p, s[1..], c);
      if s[0] == c { TelegramDocuments.NoMatchThere(p, s); }
    }
  }

  /** No mark before the end of the line. */
  predicate QuietLine(s: string, c: char) { s == "" || s[0] == '\n' || (s[0] != c && QuietLine(s[1..], c)) }

  function Twice(c: char): Pattern { Bold([c, c]) }

  function Once(c: char): Pattern { Italic([c]) }

  predicate IsEmphasis(c: char) { c == '*' || c == '_' }

  lemma NoRunThere(s: string, c: char, j: nat)
    requires j < |s| && InRuns(s[j..], c, 2) && (j + 2 <= |s| ==> s[j..j + 2] != [c, c])
    ensures s[j] != c && InRuns(s[j + 1..], c, 2)
  {
    assert s[j..][0] == s[j] && s[j..][1..] == s[j + 1..];
    if j + 2 <= |s| { assert s[j..][1] == s[j + 1] && s[j..j + 2] == [s[j], s[j + 1]]; }
  }

  lemma {:induction false} FoundIsNext(s: string, c: char, j: nat, end: nat)
    requires IsEmphasis(c) && j <= |s| && InRuns(s[j..], c, 2) && FindMark(s, [c, c], j, NotNewline) == Some(end)
    ensures c !in s[j..end] && InRuns(s[end + 2..], c, 2)
    decreases |s| - j
  {
    var t := s[j..];
    if s[j..j + 2] == [c, c] {
      assert t[0] == s[j] == s[j..j + 2][0] && t[2..] == s[j + 2..];
    } else {
      NoRunThere(s, c, j);
      FoundIsNext(s, c, j + 1, end);
      assert s[j..end] == [s[j]] + s[j + 1..end];
    }
  }

  lemma {:induction false} NotFoundIsQuiet(s: string, c: char, j: nat)
    requires IsEmphasis(c) && j <= |s| && InRuns(s[j..], c, 2) && FindMark(s, [c, c], j, NotNewline).None?
    ensures QuietLine(s[j..], c)
    decreases |s| - j
  {
    var t := s[j..];
    if t != "" {
      assert t[0] == s[j] && t[1..] == s[j + 1..];
      NoRunThere(s, c, j);
      if s[j] != '\n' {
        if j + 2 > |s| {
          assert t[1..] == "";
        } else {
          NotFoundIsQuiet(s, c, j + 1);
        }
      }
    }
  }

  lemma {:induction false} QuietStays(s: string, c: char)
    requires IsEmphasis(c) && QuietLine(s, c)
    ensures QuietLine(Rewrite(Twice(c), s), c)
  {
    if s != "" {
      CopyOne(Twice(c), s);
      if s[0] != '\n' { QuietStays(s[1..], c); }
    }
  }

  lemma {:induction false} QuietHasNone(s: string, c: char, j: nat)
    requires IsEmphasis(c) && j <= |s| && QuietLine(s[j..], c)
    ensures FindMark(s, [c], j, NotNewline).None?
    decreases |s| - j
  {
    if j < |s| {
      assert s[j..][0] == s[j] && s[j..][1..] == s[j + 1..] && s[j..j + 1] == [s[j]];
      if s[j] != '\n' { QuietHasNone(s, c, j + 1); }
    }
  }

  /** A pair of marks that nothing closes. */
  lemma PairStays(c: char, r: string)
    requires IsEmphasis(c) && QuietLine(r, c) && Rewrite(Once(c), r) == r
    ensures Rewrite(Once(c), [c, c] + r) == [c, c] + r
  {
    var s, t := [c, c] + r, [c] + r;
    assert s[1..] == t && t[1..] == r && s[2..] == r;
    QuietHasNone(s, c, 2);
    if r != "" && r[0] != '\n' {
      assert t[2..] == r[1..];
      QuietHasNone(t, c, 2);
    }
    assert MatchAt(Once(c), t).None?;
    assert Rewrite(Once(c), t) == t;
    assert MatchAt(Once(c), s).None?;
  }

  lemma TwiceNotThere(s: string, c: char)
    requires IsEmphasis(c) && |s| >= 2 && s[0] == s[1] == c && (|s| > 2 ==> s[2] != c) && MatchAt(Twice(c), s).None?
    ensures Rewrite(Twice(c), s) == [c, c] + Rewrite(Twice(c), s[2..])
  {
    var t := s[1..];
    assert t[1..] == s[2..] && t[0] == c && (|t| > 1 ==> t[1] == s[2]);
    TelegramDocuments.NoMatchThere(Twice(c), t);
    assert Rewrite(Twice(c), t) == [c] + Rewrite(Twice(c), s[2..]);
    assert Rewrite(Twice(c), s) == [c] + Rewrite(Twice(c), t);
    assert [c] + ([c] + Rewrite(Twice(c), s[2..])) == [c, c] + Rewrite(Twice(c), s[2..]);
  }

  lemma UnmatchedIsQuiet(s: string, c: char)
    requires IsEmphasis(c) && |s| >= 2 && s[0] == s[1] == c && InRuns(s, c, 2) && MatchAt(Twice(c), s).None?
    ensures QuietLine(s[2..], c)
  {
    if |s| > 2 && s[2] != '\n' {
      assert [c, c] <= s && s[2..][0] == s[2] && s[2..][1..] == s[3..];
      assert FindMark(s, [c, c], 3, NotNewline).None?;
      NotFoundIsQuiet(s, c, 3);
    }
  }

  lemma MatchedPair(s: string, c: char) returns (e: string, rest: string)
    requires IsEmphasis(c) && s != "" && InRuns(s, c, 2) && MatchAt(Twice(c), s).Some?
    ensures c !in e && |rest| < |s| && InRuns(rest, c, 2)
    ensures Rewrite(Twice(c), s) == "<b>" + e + "</b>" + Rewrite(Twice(c), rest)
  {
    var end := FindMark(s, [c, c], 3, NotNewline).value;
    assert s[2..][1..] == s[3..] && s[2..][0] == s[2];
    FoundIsNext(s, c, 3, end);
    e, rest := s[2..end], s[end + 2..];
    assert e == [s[2]] + s[3..end];
  }

  /** After the pairs are rewritten, the pass for single marks finds nothing. */
  lemma {:induction false} PairsLeaveNone(s: string, c: char)
    requires IsEmphasis(c) && InRuns(s, c, 2)
    ensures var r := Rewrite(Twice(c), s); Rewrite(Once(c), r) == r
    decreases |s|
  {
    if s == "" {
    } else if s[0] != c {
      PairsLeaveNone(s[1..], c);
      var r := Rewrite(Twice(c), s[1..]);
      CopyOne(Twice(c), s);
      PassCopies(Once(c), [s[0]], r);
    } else if MatchAt(Twice(c), s).Some? {
      var e, rest := MatchedPair(s, c);
      PairsLeaveNone(rest, c);
      PassCopies(Once(c), "<b>" + e + "</b>", Rewrite(Twice(c), rest));
    } else {
      TwiceNotThere(s, c);
      UnmatchedIsQuiet(s, c);
      QuietStays(s[2..], c);
      PairsLeaveNone(s[2..], c);
      PairStays(c, Rewrite(Twice(c), s[2..]));
    }
  }

  // ---- The other passes ----

  lemma PiecesAddNot(a: string, t: string, b: string, d: char)
    requires d !in a && d !in t && d !in b
    ensures d !in a + t + b
  {
  }

  lemma SpanAddsNot(p: Pattern, s: string, m: Match, d: char)
    requires IsTelegram(p) && (p.Bold? || p.Italic? || p.InlineCode?)
    requires d in DELIMITERS && d !in s && MatchAt(p, s) == Some(m)
    ensures d !in m.replacement
  {
    var mark, inside, w := SpanShape(p, s);
    var end := MarkedShape(s, mark, inside, Spelled(Opening(w)), Spelled(Closing(w)));
    TagHasNoDelimiter(Opening(w), d);
    TagHasNoDelimiter(Closing(w), d);
    PiecesAddNot(Spelled(Opening(w)), s[|mark|..end], Spelled(Closing(w)), d);
  }

  lemma LinkAddsNot(s: string, m: Match, d: char)
    requires d in DELIMITERS && d !in s && LinkAt(s) == Some(m)
    ensures d !in m.replacement
  {
    var i, j := LinkShape(s);
    PiecesAddNot("<a href=\"", s[i + 2..j], "\">", d);
    PiecesAddNot("<a href=\"" + s[i + 2..j] + "\">", s[1..i], "</a>", d);
  }

  lemma MatchAddsNot(p: Pattern, s: string, m: Match, d: char)
    requires IsTelegram(p) && d in DELIMITERS && d !in s && MatchAt(p, s) == Some(m)
    ensures d !in m.replacement
  {
    if p.CodeBlock? {
      var i, j := CodeBlockShape(s, p.isWord);
      PiecesAddNot("<pre><code>", s[i..j], "</code></pre>", d);
    } else if p.Link? {
      LinkAddsNot(s, m, d);
    } else {
      SpanAddsNot(p, s, m, d);
    }
  }

  lemma {:induction false} PassAddsNot(p: Pattern, s: string, d: char)
    requires IsTelegram(p) && d in DELIMITERS && d !in s
    ensures d !in Rewrite(p, s)
    decreases |s|
  {
    if s == "" {
    } else if MatchAt(p, s).Some? {
      var m := MatchAt(p, s).value;
      MatchAddsNot(p, s, m, d);
      PassAddsNot(p, s[m.length..], d);
    } else {
      PassAddsNot(p, s[1..], d);
    }
  }

  /** What the passes for the other kinds start with. */
  const MARKS: set<char> := {'`', '*', '_', '['}

  predicate NoOther(s: string, c: char) { forall d | d in MARKS && d != c :: d !in s }

  /** Marks of one kind: code in single backticks, emphasis in one or two stars or underscores, or links. */
  predicate OneKind(s: string, c: char, n: nat) {
    && c in MARKS && NoOther(s, c)
    && (c == '`' ==> n == 1 && InRuns(s, c, n))
    && (IsEmphasis(c) ==> 1 <= n <= 2 && InRuns(s, c, n))
  }

  /** The pass for the kind. */
  function PassFor(c: char, n: nat): (p: Pattern)
    ensures c in MARKS ==> IsTelegram(p) && Start(p) == c
  {
    match c
    case '`' => InlineCode
    case '*' => if n == 1 then Italic("*") else Bold("**")
    case '_' => if n == 1 then Italic("_") else Bold("__")
    case _ => Link
  }

  lemma OtherPassLeaves(p: Pattern, q: Pattern, s: string)
    requires IsTelegram(p) && IsTelegram(q) && Start(p) != Start(q) && NoOther(s, Start(p))
    ensures Rewrite(q, s) == s && Rewrite(q, Rewrite(p, s)) == Rewrite(p, s)
  {
    PassAddsNot(p, s, Start(q));
    TelegramForms.PassLeaves(q, s);
    TelegramForms.PassLeaves(q, Rewrite(p, s));
  }

  lemma CodeStages(s: string, isWord: char -> bool)
    requires OneKind(s, '`', 1)
    ensures Rewrite(Link, Emphasis(CodeSpans(s, isWord))) == Rewrite(InlineCode, s)
  {
    SingleMarksStay(CodeBlock(isWord), s, '`');
    OtherPassLeaves(InlineCode, Bold("**"), s);
    OtherPassLeaves(InlineCode, Bold("__"), s);
    OtherPassLeaves(InlineCode, Italic("*"), s);
    OtherPassLeaves(InlineCode, Italic("_"), s);
    OtherPassLeaves(InlineCode, Link, s);
  }

  lemma LinkStages(s: string, isWord: char -> bool)
    requires OneKind(s, '[', 1)
    ensures Rewrite(Link, Emphasis(CodeSpans(s, isWord))) == Rewrite(Link, s)
  {
    TelegramForms.CodeLeaves(s, isWord);
    TelegramForms.EmphasisLeaves(s);
  }

  lemma EmphasisStages(s: string, b: string, l: string, i: string, r: string)
    requires Rewrite(Bold("**"), s) == b && Rewrite(Bold("__"), b) == l && Rewrite(Italic("*"), l) == i
    requires Rewrite(Italic("_"), i) == r && Rewrite(Link, r) == r
    ensures Rewrite(Link, Emphasis(s)) == r
  {
  }

  lemma StarsOnce(s: string)
    requires OneKind(s, '*', 1)
    ensures Rewrite(Link, Emphasis(s)) == Rewrite(Italic("*"), s)
  {
    var r := Rewrite(Italic("*"), s);
    SingleMarksStay(Bold("**"), s, '*');
    OtherPassLeaves(Italic("*"), Bold("__"), s);
    OtherPassLeaves(Italic("*"), Italic("_"), s);
    OtherPassLeaves(Italic("*"), Link, s);
    EmphasisStages(s, s, s, r, r);
  }

  lemma StarsTwice(s: string)
    requires OneKind(s, '*', 2)
    ensures Rewrite(Link, Emphasis(s)) == Rewrite(Bold("**"), s)
  {
    var r := Rewrite(Bold("**"), s);
    assert Rewrite(Italic("*"), r) == r by {
      PairsLeaveNone(s, '*');
      assert ['*', '*'] == "**" && ['*'] == "*";
    }
    OtherPassLeaves(Bold("**"), Bold("__"), s);
    OtherPassLeaves(Bold("**"), Italic("_"), s);
    OtherPassLeaves(Bold("**"), Link, s);
    EmphasisStages(s, r, r, r, r);
  }

  lemma LinesOnce(s: string)
    requires OneKind(s, '_', 1)
    ensures Rewrite(Link, Emphasis(s)) == Rewrite(Italic("_"), s)
  {
    SingleMarksStay(Bold("__"), s, '_');
    OtherPassLeaves(Italic("_"), Bold("**"), s);
    OtherPassLeaves(Italic("_"), Italic("*"), s);
    OtherPassLeaves(Italic("_"), Link, s);
    EmphasisStages(s, s, s, s, Rewrite(Italic("_"), s));
  }

  lemma LinesTwice(s: string)
    requires OneKind(s, '_', 2)
    ensures Rewrite(Link, Emphasis(s)) == Rewrite(Bold("__"), s)
  {
    var r := Rewrite(Bold("__"), s);
    assert Rewrite(Italic("_"), r) == r by {
      PairsLeaveNone(s, '_');
      assert ['_', '_'] == "__" && ['_'] == "_";
    }
    OtherPassLeaves(Bold("__"), Bold("**"), s);
    OtherPassLeaves(Bold("__"), Italic("*"), s);
    OtherPassLeaves(Bold("__"), Link, s);
    EmphasisStages(s, s, r, r, r);
  }

  /** Only the pass for the kind does anything. */
  lemma OnePassRuns(s: string, c: char, n: nat, isWord: char -> bool)
    requires OneKind(s, c, n)
    ensures Rewrite(Link, Emphasis(CodeSpans(s, isWord))) == Rewrite(PassFor(c, n), s)
  {
    if c == '`' {
      CodeStages(s, isWord);
    } else if c == '[' {
      LinkStages(s, isWord);
    } else {
      TelegramForms.CodeLeaves(s, isWord);
      if c == '*' {
        if n == 1 { StarsOnce(s); } else { StarsTwice(s); }
      } else {
        if n == 1 { LinesOnce(s); } else { LinesTwice(s); }
      }
    }
  }

  // ---- Escaping keeps the kind ----

  lemma {:induction false} RunsAfter(a: string, b: string, c: char, n: nat)
    requires n > 0 && c !in a && InRuns(b, c, n)
    ensures InRuns(a + b, c, n)
  {
    if a == "" {
      assert a + b == b;
    } else {
      RunsAfter(a[1..], b, c, n);
      assert (a + b)[0] == a[0] && (a + b)[1..] == a[1..] + b;
    }
  }

  lemma EscapedHead(s: string, c: char)
    requires c in MARKS && s != "" && s[0] != c
    ensures var head := if s[0] in SPECIAL then Name(s[0]) else [s[0]];
            head != "" && c !in head && EscapeOnly(s, SPECIAL) == head + EscapeOnly(s[1..], SPECIAL)
  {
  }

  lemma MarkStays(s: string, c: char)
    requires c in MARKS && s != "" && s[0] == c
    ensures EscapeOnly(s, SPECIAL) == [c] + EscapeOnly(s[1..], SPECIAL)
  {
  }

  lemma RunStays(s: string, c: char, n: nat)
    requires c in MARKS && 1 <= n <= 2 && s != "" && s[0] == c && InRuns(s, c, n)
    ensures EscapeOnly(s, SPECIAL) == seq(n, _ => c) + EscapeOnly(s[n..], SPECIAL)
  {
    MarkStays(s, c);
    if n == 2 {
      MarkStays(s[1..], c);
      assert s[1..][1..] == s[2..] && [c] + ([c] + EscapeOnly(s[2..], SPECIAL)) == [c, c] + EscapeOnly(s[2..], SPECIAL);
      assert seq(n, _ => c) == [c, c];
    } else {
      assert seq(n, _ => c) == [c];
    }
  }

  lemma {:induction false} EscapeKeepsRuns(s: string, c: char, n: nat)
    requires c in MARKS && 1 <= n <= 2 && InRuns(s, c, n)
    ensures InRuns(EscapeOnly(s, SPECIAL), c, n)
    decreases |s|
  {
    var r := EscapeOnly(s, SPECIAL);
    if s == "" {
    } else if s[0] != c {
      EscapedHead(s, c);
      EscapeKeepsRuns(s[1..], c, n);
      RunsAfter(if s[0] in SPECIAL then Name(s[0]) else [s[0]], EscapeOnly(s[1..], SPECIAL), c, n);
    } else {
      var rest := EscapeOnly(s[n..], SPECIAL);
      RunStays(s, c, n);
      EscapeKeepsRuns(s[n..], c, n);
      if |s| > n { EscapedHead(s[n..], c); }
      assert r == seq(n, _ => c) + rest && r[n..] == rest && (|r| > n ==> r[n] == rest[0]);
    }
  }

  lemma EscapeKeepsKind(s: string, c: char, n: nat)
    requires OneKind(s, c, n)
    ensures OneKind(EscapeHtml(s), c, n)
  {
    EscapeIsSimultaneous(s);
    forall d | d in MARKS && d != c ensures d !in EscapeHtml(s) { EscapeAddsNot(s, d); }
    if c != '[' { EscapeKeepsRuns(s, c, n); }
  }

  /** With marks of one kind, closed or not, and any other text, the tags nest. */
  lemma OneKindNests(text: string, c: char, n: nat, isWord: char -> bool)
    requires OneKind(text, c, n)
    ensures Nests(MarkdownToTelegramHtml(text, isWord))
  {
    var s := EscapeHtml(text);
    EscapeKeepsKind(text, c, n);
    OnePassRuns(s, c, n, isWord);
    EscapedHasNoTag(text);
    PassIsClosed(PassFor(c, n), s);
  }
}
