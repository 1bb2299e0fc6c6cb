/** What each markdown form becomes, around text that holds no delimiter. */
module TelegramForms {
  import opened Wrappers
  import Text
  import opened Patterns
  import opened HtmlEntities
  import TelegramHtml

  predicate IsPlain(t: string) { forall c <- t :: c !in TelegramHtml.DELIMITERS }

  lemma NothingStarts(p: Pattern, s: string)
    requires TelegramHtml.IsTelegram(p) && s != "" && s[0] != TelegramHtml.Start(p)
    ensures MatchAt(p, s).None?
  {
  }

  lemma {:induction false} PassLeaves(p: Pattern, s: string)
    requires TelegramHtml.IsTelegram(p) && TelegramHtml.Start(p) !in s
    ensures Rewrite(p, s) == s
  {
    hide MatchAt, TelegramHtml.Start, TelegramHtml.IsTelegram;
    if s != "" {
      NothingStarts(p, s);
      PassLeaves(p, s[1..]);
    }
  }

  lemma EscapeStaysPlain(t: string)
    requires IsPlain(t)
    ensures IsPlain(EscapeHtml(t)) && (t != "" ==> EscapeHtml(t) != "") && ('\n' !in t ==> '\n' !in EscapeHtml(t))
  {
    EscapeIsSimultaneous(t);
    forall c | c in TelegramHtml.DELIMITERS ensures c !in EscapeHtml(t) {
      EscapeAddsNot(t, c);
    }
    if '\n' !in t { EscapeAddsNot(t, '\n'); }
  }

  lemma CodeLeaves(s: string, isWord: char -> bool)
    requires '`' !in s
    ensures TelegramHtml.CodeSpans(s, isWord) == s
  {
    PassLeaves(CodeBlock(isWord), s);
    PassLeaves(InlineCode, s);
  }

  lemma EmphasisLeaves(s: string)
    requires '*' !in s && '_' !in s
    ensures TelegramHtml.Emphasis(s) == s
  {
    PassLeaves(Bold("**"), s);
    PassLeaves(Bold("__"), s);
    PassLeaves(Italic("*"), s);
    PassLeaves(Italic("_"), s);
  }

  /** Text without a delimiter is sent as it is, escaped. */
  lemma PlainText(t: string, isWord: char -> bool)
    requires IsPlain(t)
    ensures TelegramHtml.MarkdownToTelegramHtml(t, isWord) == EscapeHtml(t)
  {
    EscapeStaysPlain(t);
    CodeLeaves(EscapeHtml(t), isWord);
    EmphasisLeaves(EscapeHtml(t));
    PassLeaves(Link, EscapeHtml(t));
  }

  lemma {:induction false} FindsMark(s: string, mark: string, j: nat, inside: char -> bool, end: nat)
    requires mark != "" && j <= end && end + |mark| <= |s| && s[end..end + |mark|] == mark
    requires forall i | j <= i < end :: s[i] != mark[0] && inside(s[i])
    ensures FindMark(s, mark, j, inside) == Some(end)
    decreases end - j
  {
    if j < end {
      assert s[j..j + |mark|][0] == s[j];
      FindsMark(s, mark, j + 1, inside, end);
    }
  }

  lemma Middle(a: string, e: string, b: string, rest: string)
    ensures var s := a + e + b + rest;
            var end := |a| + |e|;
            s[|a|..end] == e && s[end..end + |b|] == b && s[end + |b|..] == rest && forall i | |a| <= i < end ::
                s[i] in e
  {
  }

  lemma SpanEnds(s: string, mark: string, inside: char -> bool, before: string, after: string, end: nat)
    requires mark != "" && mark <= s && |mark| < end && end + |mark| <= |s| && s[end..end + |mark|] == mark
    requires forall i | |mark| <= i < end :: s[i] != mark[0] && inside(s[i])
    ensures MarkedAt(s, mark, inside, before, after)
            == Some(Match(end + |mark|, before + s[|mark|..end] + after))
  {
    FindsMark(s, mark, |mark| + 1, inside, end);
  }

  lemma SpanMatches(mark: string, e: string, rest: string, inside: char -> bool, before: string, after: string)
    requires mark != "" && e != "" && mark[0] !in e && forall c <- e :: inside(c)
    ensures MarkedAt(mark + e + mark + rest, mark, inside, before, after)
            == Some(Match(|mark + e + mark|, before + e + after))
  {
    Middle(mark, e, mark, rest);
    SpanEnds(mark + e + mark + rest, mark, inside, before, after, |mark| + |e|);
  }

  lemma FirstMatch(p: Pattern, a: string, rest: string, m: Option<Match>, r: string)
    requires a != "" && m == MatchAt(p, a + rest) == Some(Match(|a|, r))
    ensures Rewrite(p, a + rest) == r + Rewrite(p, rest)
  {
  }

  /** What each form becomes at the start of a text; the pass goes on with the rest. */
  lemma InlineCodeForm(e: string, rest: string)
    requires e != "" && '`' !in e
    ensures Rewrite(InlineCode, "`" + e + "`" + rest) == "<code>" + e + "</code>" + Rewrite(InlineCode, rest)
  {
    SpanMatches("`", e, rest, NotBacktick, "<code>", "</code>");
    var s := "`" + e + "`";
    FirstMatch(InlineCode, s, rest, MatchAt(InlineCode, s + rest), "<code>" + e + "</code>");
  }

  lemma BoldForm(mark: string, e: string, rest: string)
    requires e != "" && mark != "" && mark[0] !in e && '\n' !in e
    ensures Rewrite(Bold(mark), mark + e + mark + rest) == "<b>" + e + "</b>" + Rewrite(Bold(mark), rest)
  {
    SpanMatches(mark, e, rest, NotNewline, "<b>", "</b>");
    var s := mark + e + mark;
    FirstMatch(Bold(mark), s, rest, MatchAt(Bold(mark), s + rest), "<b>" + e + "</b>");
  }

  lemma ItalicForm(mark: string, e: string, rest: string)
    requires e != "" && mark != "" && mark[0] !in e && '\n' !in e
    ensures Rewrite(Italic(mark), mark + e + mark + rest) == "<i>" + e + "</i>" + Rewrite(Italic(mark), rest)
  {
    SpanMatches(mark, e, rest, NotNewline, "<i>", "</i>");
    var s := mark + e + mark;
    FirstMatch(Italic(mark), s, rest, MatchAt(Italic(mark), s + rest), "<i>" + e + "</i>");
  }

  lemma CodeBlockEnds(s: string, isWord: char -> bool, word: nat, end: nat)
    requires FENCE <= s && word == WordRun(s[3..], isWord) && word + 4 <= end && end + 3 <= |s|
    requires s[3 + word] == '\n' && s[end..end + 3] == FENCE && forall i | word + 4 <= i < end :: s[i] != '`'
    ensures CodeBlockAt(s, isWord) == Some(Match(end + 3, "<pre><code>" + s[word + 4..end] + "</code></pre>"))
  {
    FindsMark(s, FENCE, word + 4, AnyChar, end);
  }

  lemma Fenced(word: string, e: string, rest: string)
    requires '`' !in e
    ensures var s := "```" + word + "\n" + e + "```" + rest;
            var end := |word| + 4 + |e|;
            FENCE <= s && s[|word| + 3] == '\n' && s[|word| + 4..end] == e && s[end..end + 3] == FENCE
            && forall i | |word| + 4 <= i < end :: s[i] != '`'
  {
  }

  lemma AfterFence(word: string, b: string)
    ensures ("```" + word + b)[3..] == word + b
  {
  }

  lemma {:induction false} WordEnds(word: string, b: string, isWord: char -> bool)
    requires (forall c <- word :: isWord(c)) && b != "" && !isWord(b[0])
    ensures WordRun(word + b, isWord) == |word|
  {
    if word == "" {
      assert word + b == b;
    } else {
      assert (word + b)[0] == word[0] && (word + b)[1..] == word[1..] + b;
      WordEnds(word[1..], b, isWord);
    }
  }

  lemma FenceWord(word: string, e: string, rest: string, isWord: char -> bool)
    requires !isWord('\n') && forall c <- word :: isWord(c)
    ensures WordRun(("```" + word + "\n" + e + "```" + rest)[3..], isWord) == |word|
  {
    var b := "\n" + e + "```" + rest;
    AfterFence(word, b);
    assert "```" + word + "\n" + e + "```" + rest == "```" + word + b;
    WordEnds(word, b, isWord);
  }

  lemma CodeBlockMatches(word: string, e: string, rest: string, isWord: char -> bool)
    requires '`' !in e && !isWord('\n') && forall c <- word :: isWord(c)
    ensures CodeBlockAt("```" + word + "\n" + e + "```" + rest, isWord)
            == Some(Match(|word| + |e| + 7, "<pre><code>" + e + "</code></pre>"))
  {
    Fenced(word, e, rest);
    FenceWord(word, e, rest, isWord);
    CodeBlockEnds("```" + word + "\n" + e + "```" + rest, isWord, |word|, |word| + 4 + |e|);
  }

  /** The name of a language after the fence is dropped. */
  lemma CodeBlockForm(word: string, e: string, rest: string, isWord: char -> bool)
    requires '`' !in e && !isWord('\n') && forall c <- word :: isWord(c)
    ensures Rewrite(CodeBlock(isWord), "```" + word + "\n" + e + "```" + rest)
            == "<pre><code>" + e + "</code></pre>" + Rewrite(CodeBlock(isWord), rest)
  {
    CodeBlockMatches(word, e, rest, isWord);
    var s := "```" + word + "\n" + e + "```";
    FirstMatch(CodeBlock(isWord), s, rest, CodeBlockAt(s + rest, isWord), "<pre><code>" + e + "</code></pre>");
  }

  lemma LinkMatches(e: string, url: string, rest: string)
    requires e != "" && url != "" && ']' !in e && ')' !in url
    ensures LinkAt("[" + e + "](" + url + ")" + rest)
            == Some(Match(|e| + |url| + 4, "<a href=\"" + url + "\">" + e + "</a>"))
  {
    var s := "[" + e + "](" + url + ")" + rest;
    assert s[1..][..|e|] == e && s[1..][|e|] == ']';
    Text.FindAt(s[1..], ']', |e|);
    var after := s[|e| + 3..];
    assert after[..|url|] == url && after[|url|] == ')';
    Text.FindAt(after, ')', |url|);
    assert s[1..|e| + 1] == e && s[|e| + 3..|e| + 3 + |url|] == url;
  }

  lemma LinkForm(e: string, url: string, rest: string)
    requires e != "" && url != "" && ']' !in e && ')' !in url
    ensures Rewrite(Link, "[" + e + "](" + url + ")" + rest)
            == "<a href=\"" + url + "\">" + e + "</a>" + Rewrite(Link, rest)
  {
    LinkMatches(e, url, rest);
    var s := "[" + e + "](" + url + ")";
    FirstMatch(Link, s, rest, LinkAt(s + rest), "<a href=\"" + url + "\">" + e + "</a>");
  }

  // ---- Whatever matches is a form ----

  lemma {:induction false} MarkPasses(s: string, mark: string, j: nat, inside: char -> bool, i: nat)
    requires j <= |s| && FindMark(s, mark, j, inside).Some? && j <= i < FindMark(s, mark, j, inside).value
    ensures inside(s[i]) && s[i..i + |mark|] != mark
    decreases |s| - j
  {
    if i > j { MarkPasses(s, mark, j + 1, inside, i); }
  }

  lemma SpanStarts(s: string, mark: string, inside: char -> bool, before: string, after: string) returns (end: nat)
    requires MarkedAt(s, mark, inside, before, after).Some?
    ensures 0 < |mark| < end <= end + |mark| <= |s| && mark <= s && inside(s[|mark|])
    ensures FindMark(s, mark, |mark| + 1, inside) == Some(end) && s[end..end + |mark|] == mark
    ensures MarkedAt(s, mark, inside, before, after)
            == Some(Match(end + |mark|, before + s[|mark|..end] + after))
  {
    hide FindMark;
    end := FindMark(s, mark, |mark| + 1, inside).value;
  }

  lemma Enclosed(s: string, mark: string, end: nat)
    requires |mark| <= end <= end + |mark| <= |s| && mark <= s && s[end..end + |mark|] == mark
    ensures s[..end + |mark|] == mark + s[|mark|..end] + mark
  {
  }

  lemma Within(s: string, n: nat, end: nat, i: nat)
    requires n + i <= end <= end + n <= |s|
    ensures (s[n..end] + s[end..end + n])[i..][..n] == s[n + i..n + i + n]
  {
    assert s[n..end] + s[end..end + n] == s[n..end + n];
    assert s[n..end + n][i..][..n] == s[n + i..n + i + n];
  }

  /** A span that matches has its mark at both ends, and between them a text that is not empty and has it nowhere. */
  lemma SpanIsAForm(s: string, mark: string, inside: char -> bool, before: string, after: string) returns (e: string)
    requires MarkedAt(s, mark, inside, before, after).Some?
    ensures var m := MarkedAt(s, mark, inside, before, after).value;
            && e != "" && (forall c <- e :: inside(c))
            && s[..m.length] == mark + e + mark && m.replacement == before + e + after
            && forall i | 1 <= i < |e| :: (e + mark)[i..][..|mark|] != mark
  {
    hide FindMark, MarkedAt;
    var end := SpanStarts(s, mark, inside, before, after);
    e := s[|mark|..end];
    Enclosed(s, mark, end);
    forall k | 0 <= k < |e| ensures inside(e[k]) {
      if k > 0 { MarkPasses(s, mark, |mark| + 1, inside, |mark| + k); }
    }
    forall i | 1 <= i < |e| ensures (e + mark)[i..][..|mark|] != mark {
      MarkPasses(s, mark, |mark| + 1, inside, |mark| + i);
      Within(s, |mark|, end, i);
    }
  }

  /** A link that matches has a text and a target, neither of them empty. */
  lemma LinkIsAForm(s: string) returns (text: string, target: string)
    requires LinkAt(s).Some?
    ensures var m := LinkAt(s).value;
            && text != "" && target != "" && ']' !in text && ')' !in target
            && s[..m.length] == "[" + text + "](" + target + ")"
            && m.replacement == "<a href=\"" + target + "\">" + text + "</a>"
  {
    var j := 1 + Text.Find(s[1..], ']');
    var k := j + 2 + Text.Find(s[j + 2..], ')');
    text, target := s[1..j], s[j + 2..k];
    assert text == s[1..][..j - 1] && target == s[j + 2..][..k - j - 2];
    assert s[..k + 1] == [s[0]] + text + [s[j], s[j + 1]] + target + [s[k]];
  }
}
