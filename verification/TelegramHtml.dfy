/** Markdown to Telegram's HTML: seven rewrites, each over what the ones before it produced. */
module TelegramHtml {
  import opened Wrappers
  import Text
  import opened Patterns
  import HtmlEntities

  function CodeSpans(s: string, isWord: char -> bool): string {
    Rewrite(InlineCode, Rewrite(CodeBlock(isWord), s))
  }

  function Emphasis(s: string): string {
    Rewrite(Italic("_"), Rewrite(Italic("*"), Rewrite(Bold("__"), Rewrite(Bold("**"), s))))
  }

  function MarkdownToTelegramHtml(text: string, isWord: char -> bool): string {
    Rewrite(Link, Emphasis(CodeSpans(HtmlEntities.EscapeHtml(text), isWord)))
  }

  // ---- Tags ----

  datatype Kind = PreTag | CodeTag | BoldTag | ItalicTag | LinkTag

  datatype Tag = Opening(kind: Kind) | Closing(kind: Kind)

  function Spelled(t: Tag): string {
    match t
    case Opening(PreTag) => "<pre>"
    case Opening(CodeTag) => "<code>"
    case Opening(BoldTag) => "<b>"
    case Opening(ItalicTag) => "<i>"
    case Opening(LinkTag) => "<a href=\""
    case Closing(PreTag) => "</pre>"
    case Closing(CodeTag) => "</code>"
    case Closing(BoldTag) => "</b>"
    case Closing(ItalicTag) => "</i>"
    case Closing(LinkTag) => "</a>"
  }

  /** Every `<` starts one of the ten tags. */
  ghost predicate WellTagged(s: string) {
    s == "" || ((s[0] == '<' ==> exists t :: Spelled(t) <= s) && WellTagged(s[1..]))
  }

  function Occurrences(s: string, p: string): nat {
    if s == "" then 0 else (if p <= s then 1 else 0) + Occurrences(s[1..], p)
  }

  function Count(s: string, t: Tag): nat { Occurrences(s, Spelled(t)) }

  /** Opening tags less closing tags. */
  function Excess(s: string, k: Kind): int { Count(s, Opening(k)) - Count(s, Closing(k)) }

  /** The characters that the rewrites look for. */
  const DELIMITERS: set<char> := {'`', '*', '_', '[', ']', '(', ')'}

  lemma TagSpelling(t: Tag)
    ensures |Spelled(t)| >= 3 && Spelled(t)[0] == '<' && '<' !in Spelled(t)[1..]
  {
  }

  lemma TagHasNoDelimiter(t: Tag, c: char)
    requires c in DELIMITERS
    ensures c !in Spelled(t)
  {
  }

  /** No tag is the start of another. */
  lemma TagsDiffer(s: string, t: Tag, u: Tag)
    requires Spelled(t) <= s && Spelled(u) <= s
    ensures t == u
  {
    TagSpelling(t);
    TagSpelling(u);
    assert s[1] == Spelled(t)[1] == Spelled(u)[1];
    assert s[2] == Spelled(t)[2] == Spelled(u)[2];
  }

  // ---- Joining and cutting ----

  lemma HeadTag(a: string, b: string, t: Tag)
    requires a != "" && WellTagged(a)
    ensures Spelled(t) <= a + b <==> Spelled(t) <= a
  {
    TagSpelling(t);
    assert (a + b)[0] == a[0];
    if Spelled(t) <= a + b {
      var u :| Spelled(u) <= a;
      assert Spelled(u) <= a + b;
      TagsDiffer(a + b, t, u);
    }
  }

  lemma OccurrencesStep(a: string, b: string, p: string)
    requires a != "" && (p <= a + b <==> p <= a)
    requires Occurrences(a[1..] + b, p) == Occurrences(a[1..], p) + Occurrences(b, p)
    ensures Occurrences(a + b, p) == Occurrences(a, p) + Occurrences(b, p)
  {
    assert (a + b)[1..] == a[1..] + b;
  }

  lemma {:induction false} CountJoins(a: string, b: string, t: Tag)
    requires WellTagged(a)
    ensures Count(a + b, t) == Count(a, t) + Count(b, t)
  {
    if a == "" {
      assert a + b == b;
    } else {
      HeadTag(a, b, t);
      CountJoins(a[1..], b, t);
      OccurrencesStep(a, b, Spelled(t));
    }
  }

  lemma {:induction false} WellTaggedJoins(a: string, b: string)
    requires WellTagged(a) && WellTagged(b)
    ensures WellTagged(a + b)
  {
    if a == "" {
      assert a + b == b;
    } else {
      WellTaggedJoins(a[1..], b);
      assert (a + b)[1..] == a[1..] + b;
      if a[0] == '<' {
        var t :| Spelled(t) <= a;
        assert Spelled(t) <= a + b;
      }
    }
  }

  lemma Join(a: string, b: string, k: Kind)
    requires WellTagged(a) && WellTagged(b)
    ensures WellTagged(a + b) && Excess(a + b, k) == Excess(a, k) + Excess(b, k)
  {
    WellTaggedJoins(a, b);
    CountJoins(a, b, Opening(k));
    CountJoins(a, b, Closing(k));
  }

  lemma {:induction false} Suffix(s: string, i: nat)
    requires WellTagged(s) && i <= |s|
    ensures WellTagged(s[i..])
  {
    if i > 0 {
      Suffix(s[1..], i - 1);
      assert s[1..][i - 1..] == s[i..];
    }
  }

  lemma PrefixCut(p: string, s: string, i: nat)
    requires p <= s && i < |s| && s[i] !in p
    ensures p <= s[..i]
  {
  }

  /** A cut at a delimiter never goes through a tag. */
  lemma {:induction false} CutAtDelimiter(s: string, i: nat)
    requires WellTagged(s) && i < |s| && s[i] in DELIMITERS
    ensures WellTagged(s[..i])
  {
    if i > 0 {
      CutAtDelimiter(s[1..], i - 1);
      assert s[..i][1..] == s[1..][..i - 1];
      if s[0] == '<' {
        var t :| Spelled(t) <= s;
        TagHasNoDelimiter(t, s[i]);
        PrefixCut(Spelled(t), s, i);
      }
    }
  }

  lemma {:induction false} NoTags(s: string, k: Kind)
    requires '<' !in s
    ensures WellTagged(s) && Excess(s, k) == 0
  {
    if s != "" {
      NoTags(s[1..], k);
      TagSpelling(Opening(k));
      TagSpelling(Closing(k));
    }
  }

  lemma OneTag(t: Tag, k: Kind)
    ensures WellTagged(Spelled(t))
    ensures Excess(Spelled(t), k) == if t == Opening(k) then 1 else if t == Closing(k) then -1 else 0
  {
    TagSpelling(t);
    NoTags(Spelled(t)[1..], k);
    if Spelled(Opening(k)) <= Spelled(t) { TagsDiffer(Spelled(t), Opening(k), t); }
    if Spelled(Closing(k)) <= Spelled(t) { TagsDiffer(Spelled(t), Closing(k), t); }
  }

  // ---- One match ----

  /** Putting text for text keeps the tags whole and their excess the same. */
  ghost predicate Keeps(before: string, after: string, k: Kind) {
    WellTagged(before) && WellTagged(after) && Excess(before, k) == Excess(after, k)
  }

  lemma Marked(before: string, c: string, after: string, k: Kind)
    requires '<' !in before && '<' !in after && WellTagged(c)
    ensures WellTagged(before + c + after) && Excess(before + c + after, k) == Excess(c, k)
  {
    NoTags(before, k);
    NoTags(after, k);
    Join(before, c, k);
    Join(before + c, after, k);
  }

  lemma Tagged(w: Kind, c: string, k: Kind)
    requires WellTagged(c)
    ensures WellTagged(Spelled(Opening(w)) + c + Spelled(Closing(w)))
    ensures Excess(Spelled(Opening(w)) + c + Spelled(Closing(w)), k) == Excess(c, k)
  {
    OneTag(Opening(w), k);
    OneTag(Closing(w), k);
    Join(Spelled(Opening(w)), c, k);
    Join(Spelled(Opening(w)) + c, Spelled(Closing(w)), k);
  }

  lemma Between(s: string, i: nat, j: nat)
    requires WellTagged(s) && i <= j < |s| && s[j] in DELIMITERS
    ensures WellTagged(s[i..j])
  {
    CutAtDelimiter(s, j);
    Suffix(s[..j], i);
    assert s[..j][i..] == s[i..j];
  }

  /** What a match between two marks consists of. */
  lemma MarkedShape(s: string, mark: string, inside: char -> bool, before: string, after: string)
    returns (end: nat)
    requires mark != "" && MarkedAt(s, mark, inside, before, after).Some?
    ensures |mark| <= end && end + |mark| <= |s| && s[end] == mark[0]
    ensures var m := MarkedAt(s, mark, inside, before, after).value;
            var c := s[|mark|..end];
            s[..m.length] == mark + c + mark && m.replacement == before + c + after
  {
    end := FindMark(s, mark, |mark| + 1, inside).value;
    assert s[end] == s[end..end + |mark|][0];
  }

  lemma MarkedKeeps(m: Option<Match>, s: string, mark: string, inside: char -> bool, w: Kind, k: Kind)
    requires WellTagged(s) && mark != "" && mark[0] in DELIMITERS && '<' !in mark
    requires m == MarkedAt(s, mark, inside, Spelled(Opening(w)), Spelled(Closing(w))) && m.Some?
    ensures Keeps(s[..m.value.length], m.value.replacement, k)
  {
    var end := MarkedShape(s, mark, inside, Spelled(Opening(w)), Spelled(Closing(w)));
    var c := s[|mark|..end];
    Between(s, |mark|, end);
    Marked(mark, c, mark, k);
    Tagged(w, c, k);
  }

  /** What the match of a link consists of. */
  lemma LinkShape(s: string) returns (i: nat, j: nat)
    requires LinkAt(s).Some?
    ensures 1 <= i && i + 2 <= j < |s| && s[i] == ']' && s[j] == ')'
    ensures s[..LinkAt(s).value.length] == "[" + s[1..i] + "](" + s[i + 2..j] + ")"
    ensures LinkAt(s).value.replacement == "<a href=\"" + s[i + 2..j] + "\">" + s[1..i] + "</a>"
  {
    i := 1 + Text.Find(s[1..], ']');
    j := i + 2 + Text.Find(s[i + 2..], ')');
  }

  lemma MarkedLink(text: string, url: string, k: Kind)
    requires WellTagged(text) && WellTagged(url)
    ensures var m := "[" + text + "](" + url + ")";
            WellTagged(m) && Excess(m, k) == Excess(text, k) + Excess(url, k)
  {
    Marked("[", text, "](", k);
    Join("[" + text + "](", url, k);
    NoTags(")", k);
    Join("[" + text + "](" + url, ")", k);
  }

  lemma Anchor(text: string, url: string, k: Kind)
    requires WellTagged(text) && WellTagged(url)
    ensures var a := "<a href=\"" + url + "\">" + text + "</a>";
            WellTagged(a) && Excess(a, k) == Excess(text, k) + Excess(url, k)
  {
    OneTag(Opening(LinkTag), k);
    OneTag(Closing(LinkTag), k);
    NoTags("\">", k);
    Join("<a href=\"", url, k);
    Join("<a href=\"" + url, "\">", k);
    Join("<a href=\"" + url + "\">", text, k);
    Join("<a href=\"" + url + "\">" + text, "</a>", k);
  }

  lemma LinkKeeps(s: string, k: Kind)
    requires WellTagged(s) && LinkAt(s).Some?
    ensures Keeps(s[..LinkAt(s).value.length], LinkAt(s).value.replacement, k)
  {
    var i, j := LinkShape(s);
    Between(s, 1, i);
    Between(s, i + 2, j);
    MarkedLink(s[1..i], s[i + 2..j], k);
    Anchor(s[1..i], s[i + 2..j], k);
  }

  /** What the match of a code block consists of. */
  lemma CodeBlockShape(s: string, isWord: char -> bool) returns (i: nat, j: nat)
    requires CodeBlockAt(s, isWord).Some?
    ensures i <= j <= |s| && CodeBlockAt(s, isWord).value.replacement == "<pre><code>" + s[i..j] + "</code></pre>"
  {
    var p := 3 + WordRun(s[3..], isWord);
    i := if p < |s| && s[p] == '\n' then p + 1 else p;
    j := FindMark(s, FENCE, i, AnyChar).value;
  }

  lemma PreCodeSpelled(c: string)
    ensures "<pre>" + ("<code>" + c + "</code>") + "</pre>" == "<pre><code>" + c + "</code></pre>"
  {
  }

  lemma PreCodeTags(c: string, k: Kind)
    requires WellTagged(c)
    ensures var r := "<pre><code>" + c + "</code></pre>";
            WellTagged(r) && Excess(r, k) == Excess(c, k)
  {
    Tagged(CodeTag, c, k);
    Tagged(PreTag, "<code>" + c + "</code>", k);
    PreCodeSpelled(c);
  }

  lemma CodeBlockKeeps(s: string, isWord: char -> bool, k: Kind)
    requires '<' !in s && CodeBlockAt(s, isWord).Some?
    ensures var m := CodeBlockAt(s, isWord).value;
            Keeps(s[..m.length], m.replacement, k)
  {
    var i, j := CodeBlockShape(s, isWord);
    NoTags(s[..CodeBlockAt(s, isWord).value.length], k);
    NoTags(s[i..j], k);
    PreCodeTags(s[i..j], k);
  }

  // ---- One pass ----

  predicate IsTelegram(p: Pattern) {
    match p
    case CodeBlock(_) | InlineCode | Link => true
    case Bold(mark) => mark == "**" || mark == "__"
    case Italic(mark) => mark == "*" || mark == "_"
    case _ => false
  }

  /** What every match of a pattern starts with. */
  function Start(p: Pattern): char
    requires IsTelegram(p)
  {
    match p
    case CodeBlock(_) => '`'
    case InlineCode => '`'
    case Bold(mark) => mark[0]
    case Italic(mark) => mark[0]
    case Link => '['
  }

  lemma SpanShape(p: Pattern, s: string) returns (mark: string, inside: char -> bool, w: Kind)
    requires IsTelegram(p) && (p.Bold? || p.Italic? || p.InlineCode?)
    ensures mark != "" && mark[0] in DELIMITERS && '<' !in mark
    ensures MatchAt(p, s) == MarkedAt(s, mark, inside, Spelled(Opening(w)), Spelled(Closing(w)))
  {
    match p
    case InlineCode => mark, inside, w := "`", NotBacktick, CodeTag;
    case Bold(m) => mark, inside, w := m, NotNewline, BoldTag;
    case Italic(m) => mark, inside, w := m, NotNewline, ItalicTag;
  }

  lemma MatchKeeps(p: Pattern, s: string, m: Option<Match>, k: Kind)
    requires IsTelegram(p) && WellTagged(s) && (p.CodeBlock? ==> '<' !in s)
    requires m == MatchAt(p, s) && m.Some?
    ensures Keeps(s[..m.value.length], m.value.replacement, k)
  {
    if p.CodeBlock? {
      CodeBlockKeeps(s, p.isWord, k);
    } else if p.Link? {
      LinkKeeps(s, k);
    } else {
      var mark, inside, w := SpanShape(p, s);
      MarkedKeeps(m, s, mark, inside, w, k);
    }
  }

  lemma CopyOne(p: Pattern, s: string)
    requires IsTelegram(p) && s != "" && s[0] != Start(p)
    ensures Rewrite(p, s) == [s[0]] + Rewrite(p, s[1..])
  {
  }

  lemma CopyHead(p: Pattern, a: string, b: string)
    requires IsTelegram(p) && a != "" && a[0] != Start(p)
    ensures Rewrite(p, a + b) == [a[0]] + Rewrite(p, a[1..] + b)
  {
    CopyOne(p, a + b);
    assert (a + b)[1..] == a[1..] + b;
  }

  lemma Reassociate(a: string, b: string)
    requires a != ""
    ensures [a[0]] + (a[1..] + b) == a + b
  {
  }

  /** A pass copies text in which none of its matches can start. */
  lemma {:induction false} PassCopies(p: Pattern, a: string, b: string)
    requires IsTelegram(p) && Start(p) !in a
    ensures Rewrite(p, a + b) == a + Rewrite(p, b)
  {
    if a == "" {
      assert a + b == b;
    } else {
      CopyHead(p, a, b);
      PassCopies(p, a[1..], b);
      Reassociate(a, Rewrite(p, b));
    }
  }

  lemma TagPiece(p: Pattern, s: string, k: Kind) returns (a: string)
    requires IsTelegram(p) && WellTagged(s) && s != "" && s[0] == '<'
    ensures a != "" && a <= s && Keeps(a, a, k)
    ensures Rewrite(p, s) == a + Rewrite(p, s[|a|..])
  {
    var t :| Spelled(t) <= s;
    a := Spelled(t);
    TagSpelling(t);
    TagHasNoDelimiter(t, Start(p));
    OneTag(t, k);
    PassCopies(p, a, s[|a|..]);
    assert s == a + s[|a|..];
  }

  lemma MatchPiece(p: Pattern, s: string)
    requires s != "" && MatchAt(p, s).Some?
    ensures var m := MatchAt(p, s).value;
            Rewrite(p, s) == m.replacement + Rewrite(p, s[m.length..])
  {
  }

  /** How a pass starts: a piece `a` of the text becomes `r`, and it goes on with the rest. */
  lemma FirstPiece(p: Pattern, s: string, k: Kind) returns (a: string, r: string)
    requires IsTelegram(p) && WellTagged(s) && s != "" && (p.CodeBlock? ==> '<' !in s)
    ensures a != "" && a <= s && Keeps(a, r, k)
    ensures Rewrite(p, s) == r + Rewrite(p, s[|a|..])
  {
    var m := MatchAt(p, s);
    if m.Some? {
      MatchKeeps(p, s, m, k);
      MatchPiece(p, s);
      a, r := s[..m.value.length], m.value.replacement;
    } else if s[0] == '<' {
      a := TagPiece(p, s, k);
      r := a;
    } else {
      a, r := [s[0]], [s[0]];
      NoTags(a, k);
    }
  }

  lemma {:induction false} PassKeeps(p: Pattern, s: string, k: Kind)
    requires IsTelegram(p) && WellTagged(s) && (p.CodeBlock? ==> '<' !in s)
    ensures Keeps(s, Rewrite(p, s), k)
    decreases |s|
  {
    if s != "" {
      var a, r := FirstPiece(p, s, k);
      var b := s[|a|..];
      Suffix(s, |a|);
      PassKeeps(p, b, k);
      Join(a, b, k);
      Join(r, Rewrite(p, b), k);
      assert s == a + b;
    }
  }

  lemma CodeKeeps(s: string, isWord: char -> bool, k: Kind)
    requires '<' !in s
    ensures Keeps(s, CodeSpans(s, isWord), k)
  {
    NoTags(s, k);
    PassKeeps(CodeBlock(isWord), s, k);
    PassKeeps(InlineCode, Rewrite(CodeBlock(isWord), s), k);
  }

  lemma EmphasisKeeps(s: string, k: Kind)
    requires WellTagged(s)
    ensures Keeps(s, Emphasis(s), k)
  {
    var s1 := Rewrite(Bold("**"), s);
    var s2 := Rewrite(Bold("__"), s1);
    PassKeeps(Bold("**"), s, k);
    PassKeeps(Bold("__"), s1, k);
    PassKeeps(Italic("*"), s2, k);
    PassKeeps(Italic("_"), Rewrite(Italic("*"), s2), k);
  }

  /**
   Whatever the text, what is sent to Telegram has as many opening as closing tags of each kind,
   and every `<` in it starts one of those tags.
   */
  lemma TagsBalance(text: string, isWord: char -> bool, k: Kind)
    ensures var sent := MarkdownToTelegramHtml(text, isWord);
            WellTagged(sent) && Count(sent, Opening(k)) == Count(sent, Closing(k))
  {
    var s := HtmlEntities.EscapeHtml(text);
    HtmlEntities.EscapeIsSimultaneous(text);
    HtmlEntities.NoBracketInEscape(text);
    NoTags(s, k);
    CodeKeeps(s, isWord, k);
    EmphasisKeeps(CodeSpans(s, isWord), k);
    PassKeeps(Link, Emphasis(CodeSpans(s, isWord)), k);
  }
}
