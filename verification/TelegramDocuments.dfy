/**
 Markdown documents: plain text and forms that do not overlap. What the seven passes together
 make of them.
 */
module TelegramDocuments {
  import opened HtmlEntities
  import opened Patterns
  import opened TelegramForms
  import opened TelegramHtml
  import Text

  datatype Span =
    | Fence(word: string, body: string)
    | Ticked(text: string)
    | Strong(mark: string, text: string)
    | Slanted(mark: string, text: string)
    | Anchored(text: string, url: string)

  /** Text without a delimiter, and the form that comes after it. */
  datatype Piece = Piece(before: string, span: Span)

  /** What is known of the word characters of a language name. */
  predicate IsWordClass(isWord: char -> bool) {
    !isWord('\n') && !isWord('`') && !isWord('&') && !isWord('<') && !isWord('>')
  }

  predicate IsSpan(sp: Span, isWord: char -> bool) {
    match sp
    case Fence(word, body) => (forall c <- word :: isWord(c)) && IsPlain(body)
    case Ticked(t) => IsPlain(t) && t != ""
    case Strong(mark, t) => (mark == "**" || mark == "__") && IsPlain(t) && t != "" && '\n' !in t
    case Slanted(mark, t) => (mark == "*" || mark == "_") && IsPlain(t) && t != "" && '\n' !in t
    case Anchored(t, url) => IsPlain(t) && t != "" && IsPlain(url) && url != ""
  }

  /** Forms are kept apart by text. */
  predicate IsDocument(ps: seq<Piece>, last: string, isWord: char -> bool) {
    && IsPlain(last)
    && (forall p <- ps :: IsPlain(p.before) && IsSpan(p.span, isWord))
    && (forall i | 1 <= i < |ps| :: ps[i].before != "")
  }

  function Markdown(sp: Span): string {
    match sp
    case Fence(word, body) => "```" + word + "\n" + body + "```"
    case Ticked(t) => "`" + t + "`"
    case Strong(mark, t) => mark + t + mark
    case Slanted(mark, t) => mark + t + mark
    case Anchored(t, url) => "[" + t + "](" + url + ")"
  }

  function Html(sp: Span): string {
    match sp
    case Fence(_, body) => "<pre><code>" + body + "</code></pre>"
    case Ticked(t) => "<code>" + t + "</code>"
    case Strong(_, t) => "<b>" + t + "</b>"
    case Slanted(_, t) => "<i>" + t + "</i>"
    case Anchored(t, url) => "<a href=\"" + url + "\">" + t + "</a>"
  }

  /** Which of the passes a form is for. */
  function PassOf(sp: Span): nat {
    match sp
    case Fence(_, _) => 0
    case Ticked(_) => 1
    case Strong(mark, _) => if mark == "**" then 2 else 3
    case Slanted(mark, _) => if mark == "*" then 4 else 5
    case Anchored(_, _) => 6
  }

  function PassNo(k: nat, isWord: char -> bool): (p: Pattern)
    requires k < 7
    ensures IsTelegram(p)
  {
    match k
    case 0 => CodeBlock(isWord)
    case 1 => InlineCode
    case 2 => Bold("**")
    case 3 => Bold("__")
    case 4 => Italic("*")
    case 5 => Italic("_")
    case 6 => Link
  }

  /** A form after the first `k` passes. */
  function SpanText(sp: Span, k: nat): string { if PassOf(sp) < k then Html(sp) else Markdown(sp) }

  function Render(ps: seq<Piece>, last: string, k: nat): string {
    if ps == [] then last else ps[0].before + (SpanText(ps[0].span, k) + Render(ps[1..], last, k))
  }

  // ---- One pass over a document ----

  predicate Starts(rest: string) { rest == "" || rest[0] !in DELIMITERS }

  lemma NoMatchThere(p: Pattern, s: string)
    requires IsTelegram(p) && (p.CodeBlock? || p.Bold?) && s != "" && s[0] == Start(p) && (|s| == 1 || s[1] != Start(p))
    ensures MatchAt(p, s).None?
  {
  }

  lemma LoneMark(p: Pattern, c: char, rest: string)
    requires IsTelegram(p) && (p.CodeBlock? || p.Bold?) && Start(p) == c && (rest == "" || rest[0] != c)
    ensures Rewrite(p, [c] + rest) == [c] + Rewrite(p, rest)
  {
    var s := [c] + rest;
    assert s[1..] == rest && (rest != "" ==> s[1] == rest[0]);
    NoMatchThere(p, s);
  }

  lemma Regroup(a: string, b: string, c: string, d: string)
    ensures a + b + c + d == a + (b + (c + d))
  {
  }

  lemma LonePair(p: Pattern, c: char, e: string, rest: string)
    requires IsTelegram(p) && (p.CodeBlock? || p.Bold?) && Start(p) == c && e != "" && c !in e
    requires rest == "" || rest[0] != c
    ensures Rewrite(p, [c] + (e + ([c] + rest))) == [c] + (e + ([c] + Rewrite(p, rest)))
  {
    LoneMark(p, c, e + ([c] + rest));
    PassCopies(p, e, [c] + rest);
    LoneMark(p, c, rest);
  }

  /** A pass that looks for several marks in a row leaves a single one before and after. */
  lemma LoneMarks(p: Pattern, c: char, e: string, rest: string)
    requires IsTelegram(p) && (p.CodeBlock? || p.Bold?) && Start(p) == c && e != "" && c !in e
    requires rest == "" || rest[0] != c
    ensures Rewrite(p, [c] + e + [c] + rest) == [c] + e + [c] + Rewrite(p, rest)
  {
    LonePair(p, c, e, rest);
    Regroup([c], e, [c], rest);
    Regroup([c], e, [c], Rewrite(p, rest));
  }

  lemma PlainAround(a: string, e: string, b: string)
    requires IsPlain(a) && IsPlain(e) && IsPlain(b)
    ensures IsPlain(a + e + b)
  {
  }

  lemma AnchorIsPlain(t: string, url: string)
    requires IsPlain(t) && IsPlain(url)
    ensures IsPlain("<a href=\"" + url + "\">" + t + "</a>")
  {
    PlainAround("<a href=\"", url, "\">");
    PlainAround("<a href=\"" + url + "\">", t, "</a>");
  }

  lemma FenceIsPlain(body: string)
    requires IsPlain(body)
    ensures IsPlain("<pre><code>" + body + "</code></pre>")
  {
    PlainAround("<pre><code>", body, "</code></pre>");
  }

  lemma HtmlIsPlain(sp: Span, isWord: char -> bool)
    requires IsSpan(sp, isWord)
    ensures IsPlain(Html(sp))
  {
    match sp
    case Fence(_, body) => FenceIsPlain(body);
    case Ticked(t) => PlainAround("<code>", t, "</code>");
    case Strong(_, t) => PlainAround("<b>", t, "</b>");
    case Slanted(_, t) => PlainAround("<i>", t, "</i>");
    case Anchored(t, url) => AnchorIsPlain(t, url);
  }

  lemma DoneSpan(sp: Span, k: nat, rest: string, isWord: char -> bool)
    requires IsSpan(sp, isWord) && k < 7 && PassOf(sp) < k
    ensures Rewrite(PassNo(k, isWord), Html(sp) + rest) == Html(sp) + Rewrite(PassNo(k, isWord), rest)
  {
    HtmlIsPlain(sp, isWord);
    PassCopies(PassNo(k, isWord), Html(sp), rest);
  }

  lemma MarksOf(sp: Span, isWord: char -> bool)
    requires IsSpan(sp, isWord) && (sp.Strong? || sp.Slanted?)
    ensures sp.mark != "" && sp.mark[0] !in sp.text
    ensures sp.mark[0] == '*' || sp.mark[0] == '_'
  {
  }

  lemma PlainHasNo(t: string, c: char)
    requires IsPlain(t) && c in DELIMITERS
    ensures c !in t
  {
  }

  lemma OwnVia(sp: Span, rest: string, isWord: char -> bool, p: Pattern, markdown: string, html: string)
    requires p == PassNo(PassOf(sp), isWord) && markdown == Markdown(sp) && html == Html(sp)
    requires Rewrite(p, markdown + rest) == html + Rewrite(p, rest)
    ensures Rewrite(PassNo(PassOf(sp), isWord), Markdown(sp) + rest)
            == Html(sp) + Rewrite(PassNo(PassOf(sp), isWord), rest)
  {
  }

  lemma OwnFence(sp: Span, rest: string, isWord: char -> bool)
    requires IsSpan(sp, isWord) && sp.Fence? && IsWordClass(isWord)
    ensures Rewrite(PassNo(PassOf(sp), isWord), Markdown(sp) + rest)
            == Html(sp) + Rewrite(PassNo(PassOf(sp), isWord), rest)
  {
    CodeBlockForm(sp.word, sp.body, rest, isWord);
  }

  lemma OwnTicked(sp: Span, rest: string, isWord: char -> bool)
    requires IsSpan(sp, isWord) && sp.Ticked?
    ensures Rewrite(PassNo(PassOf(sp), isWord), Markdown(sp) + rest)
            == Html(sp) + Rewrite(PassNo(PassOf(sp), isWord), rest)
  {
    InlineCodeForm(sp.text, rest);
  }

  lemma OwnStrong(sp: Span, rest: string, isWord: char -> bool)
    requires IsSpan(sp, isWord) && sp.Strong?
    ensures Rewrite(PassNo(PassOf(sp), isWord), Markdown(sp) + rest)
            == Html(sp) + Rewrite(PassNo(PassOf(sp), isWord), rest)
  {
    MarksOf(sp, isWord);
    BoldForm(sp.mark, sp.text, rest);
  }

  lemma OwnSlanted(sp: Span, rest: string, isWord: char -> bool)
    requires IsSpan(sp, isWord) && sp.Slanted?
    ensures Rewrite(PassNo(PassOf(sp), isWord), Markdown(sp) + rest)
            == Html(sp) + Rewrite(PassNo(PassOf(sp), isWord), rest)
  {
    MarksOf(sp, isWord);
    ItalicForm(sp.mark, sp.text, rest);
    OwnVia(sp, rest, isWord, Italic(sp.mark), sp.mark + sp.text + sp.mark, "<i>" + sp.text + "</i>");
  }

  lemma AnchorForm(t: string, url: string, rest: string)
    requires IsPlain(t) && t != "" && IsPlain(url) && url != ""
    ensures Rewrite(Link, "[" + t + "](" + url + ")" + rest)
            == "<a href=\"" + url + "\">" + t + "</a>" + Rewrite(Link, rest)
  {
    PlainHasNo(t, ']');
    PlainHasNo(url, ')');
    LinkForm(t, url, rest);
  }

  lemma OwnAnchored(sp: Span, rest: string, isWord: char -> bool)
    requires IsSpan(sp, isWord) && sp.Anchored?
    ensures Rewrite(PassNo(PassOf(sp), isWord), Markdown(sp) + rest)
            == Html(sp) + Rewrite(PassNo(PassOf(sp), isWord), rest)
  {
    AnchorForm(sp.text, sp.url, rest);
    OwnVia(sp, rest, isWord, Link, "[" + sp.text + "](" + sp.url + ")",
           "<a href=\"" + sp.url + "\">" + sp.text + "</a>");
  }

  lemma OwnSpan(sp: Span, rest: string, isWord: char -> bool)
    requires IsSpan(sp, isWord) && IsWordClass(isWord)
    ensures Rewrite(PassNo(PassOf(sp), isWord), Markdown(sp) + rest)
            == Html(sp) + Rewrite(PassNo(PassOf(sp), isWord), rest)
  {
    match sp
    case Fence(_, _) => OwnFence(sp, rest, isWord);
    case Ticked(_) => OwnTicked(sp, rest, isWord);
    case Strong(_, _) => OwnStrong(sp, rest, isWord);
    case Slanted(_, _) => OwnSlanted(sp, rest, isWord);
    case Anchored(_, _) => OwnAnchored(sp, rest, isWord);
  }

  lemma StartsNowhere(sp: Span, k: nat, isWord: char -> bool)
    requires IsSpan(sp, isWord) && k < PassOf(sp)
    requires !(k == 0 && sp.Ticked?) && !(k == 2 && sp.Slanted? && sp.mark == "*")
             && !(k == 3 && sp.Slanted? && sp.mark == "_")
    ensures Start(PassNo(k, isWord)) !in Markdown(sp)
  {
  }

  /** A form that a later pass is for, where no match of this one starts in it. */
  lemma LaterSpan(sp: Span, k: nat, rest: string, isWord: char -> bool)
    requires IsSpan(sp, isWord) && k < PassOf(sp) && Starts(rest)
    ensures Rewrite(PassNo(k, isWord), Markdown(sp) + rest) == Markdown(sp) + Rewrite(PassNo(k, isWord), rest)
  {
    var p := PassNo(k, isWord);
    if k == 0 && sp.Ticked? {
      LoneMarks(p, '`', sp.text, rest);
    } else if k == 2 && sp.Slanted? && sp.mark == "*" {
      LoneMarks(p, '*', sp.text, rest);
    } else if k == 3 && sp.Slanted? && sp.mark == "_" {
      LoneMarks(p, '_', sp.text, rest);
    } else {
      StartsNowhere(sp, k, isWord);
      PassCopies(p, Markdown(sp), rest);
    }
  }

  lemma SpanStep(sp: Span, k: nat, rest: string, isWord: char -> bool)
    requires IsSpan(sp, isWord) && IsWordClass(isWord) && k < 7 && Starts(rest)
    ensures Rewrite(PassNo(k, isWord), SpanText(sp, k) + rest) == SpanText(sp, k + 1) + Rewrite(PassNo(k, isWord), rest)
  {
    if PassOf(sp) < k {
      DoneSpan(sp, k, rest, isWord);
    } else if PassOf(sp) == k {
      OwnSpan(sp, rest, isWord);
    } else {
      LaterSpan(sp, k, rest, isWord);
    }
  }

  lemma TailIsDocument(ps: seq<Piece>, last: string, isWord: char -> bool)
    requires IsDocument(ps, last, isWord) && ps != []
    ensures IsDocument(ps[1..], last, isWord)
  {
    forall i | 1 <= i < |ps[1..]| ensures ps[1..][i].before != "" { assert ps[1..][i] == ps[i + 1]; }
  }

  lemma RestStarts(ps: seq<Piece>, last: string, k: nat, isWord: char -> bool)
    requires IsDocument(ps, last, isWord) && ps != []
    ensures Starts(Render(ps[1..], last, k))
  {
    if |ps| > 1 {
      assert ps[1..][0] == ps[1] && ps[1] in ps;
      assert Render(ps[1..], last, k)[0] == ps[1].before[0] && ps[1].before[0] in ps[1].before;
    } else if last != "" {
      assert last[0] in last;
    }
  }

  lemma StartIsDelimiter(k: nat, isWord: char -> bool)
    requires k < 7
    ensures Start(PassNo(k, isWord)) in DELIMITERS
  {
  }

  lemma {:induction false} RenderStep(ps: seq<Piece>, last: string, k: nat, isWord: char -> bool)
    requires IsDocument(ps, last, isWord) && IsWordClass(isWord) && k < 7
    ensures Rewrite(PassNo(k, isWord), Render(ps, last, k)) == Render(ps, last, k + 1)
  {
    var p := PassNo(k, isWord);
    StartIsDelimiter(k, isWord);
    if ps == [] {
      PassLeaves(p, last);
    } else {
      var rest := Render(ps[1..], last, k);
      assert ps[0] in ps;
      TailIsDocument(ps, last, isWord);
      RestStarts(ps, last, k, isWord);
      RenderStep(ps[1..], last, k, isWord);
      SpanStep(ps[0].span, k, rest, isWord);
      PassCopies(p, ps[0].before, SpanText(ps[0].span, k) + rest);
    }
  }

  /** The seven passes in a row. */
  lemma SevenPasses(text: string, es: seq<Piece>, el: string, isWord: char -> bool)
    requires IsDocument(es, el, isWord) && IsWordClass(isWord) && EscapeHtml(text) == Render(es, el, 0)
    ensures MarkdownToTelegramHtml(text, isWord) == Render(es, el, 7)
  {
    RenderStep(es, el, 0, isWord);
    RenderStep(es, el, 1, isWord);
    RenderStep(es, el, 2, isWord);
    RenderStep(es, el, 3, isWord);
    RenderStep(es, el, 4, isWord);
    RenderStep(es, el, 5, isWord);
    RenderStep(es, el, 6, isWord);
  }

  // ---- Escaping a document ----

  function EscapedSpan(sp: Span): Span {
    match sp
    case Fence(word, body) => Fence(word, EscapeHtml(body))
    case Ticked(t) => Ticked(EscapeHtml(t))
    case Strong(mark, t) => Strong(mark, EscapeHtml(t))
    case Slanted(mark, t) => Slanted(mark, EscapeHtml(t))
    case Anchored(t, url) => Anchored(EscapeHtml(t), EscapeHtml(url))
  }

  function Escaped(ps: seq<Piece>): (r: seq<Piece>)
    ensures |r| == |ps|
    ensures forall i | 0 <= i < |ps| :: r[i] == Piece(EscapeHtml(ps[i].before), EscapedSpan(ps[i].span))
  {
    if ps == [] then [] else [Piece(EscapeHtml(ps[0].before), EscapedSpan(ps[0].span))] + Escaped(ps[1..])
  }

  lemma EscapeSplits(a: string, b: string)
    ensures EscapeHtml(a + b) == EscapeHtml(a) + EscapeHtml(b)
  {
    ReplaceCharSplits(a, b, '&', "&amp;");
    var x, y := ReplaceChar(a, '&', "&amp;"), ReplaceChar(b, '&', "&amp;");
    ReplaceCharSplits(x, y, '<', "&lt;");
    ReplaceCharSplits(ReplaceChar(x, '<', "&lt;"), ReplaceChar(y, '<', "&lt;"), '>', "&gt;");
  }

  lemma EscapeLeaves(s: string)
    requires '&' !in s && '<' !in s && '>' !in s
    ensures EscapeHtml(s) == s
  {
    Plain(s, '&', "&amp;");
    Plain(s, '<', "&lt;");
    Plain(s, '>', "&gt;");
  }

  lemma EscapeAround(a: string, t: string, b: string)
    requires '&' !in a && '<' !in a && '>' !in a && '&' !in b && '<' !in b && '>' !in b
    ensures EscapeHtml(a + t + b) == a + EscapeHtml(t) + b
  {
    EscapeLeaves(a);
    EscapeLeaves(b);
    EscapeSplits(a, t);
    EscapeSplits(a + t, b);
  }

  lemma EscapeSpan(sp: Span, isWord: char -> bool)
    requires IsSpan(sp, isWord) && IsWordClass(isWord)
    ensures EscapeHtml(Markdown(sp)) == Markdown(EscapedSpan(sp))
  {
    match sp
    case Fence(word, body) => EscapeAround("```" + word + "\n", body, "```");
    case Ticked(t) => EscapeAround("`", t, "`");
    case Strong(mark, t) => EscapeAround(mark, t, mark);
    case Slanted(mark, t) => EscapeAround(mark, t, mark);
    case Anchored(t, url) =>
      EscapeAround("[", t, "](");
      EscapeSplits("[" + t + "](", url);
      EscapeSplits("[" + t + "](" + url, ")");
      EscapeLeaves(")");
  }

  lemma {:induction false} EscapeDocument(ps: seq<Piece>, last: string, isWord: char -> bool)
    requires IsDocument(ps, last, isWord) && IsWordClass(isWord)
    ensures EscapeHtml(Render(ps, last, 0)) == Render(Escaped(ps), EscapeHtml(last), 0)
  {
    if ps != [] {
      var rest := Render(ps[1..], last, 0);
      TailIsDocument(ps, last, isWord);
      EscapeDocument(ps[1..], last, isWord);
      assert ps[0] in ps;
      EscapeSpan(ps[0].span, isWord);
      EscapeSplits(ps[0].before, Markdown(ps[0].span) + rest);
      EscapeSplits(Markdown(ps[0].span), rest);
      assert Escaped(ps)[1..] == Escaped(ps[1..]);
    }
  }

  lemma EscapedIsSpan(sp: Span, isWord: char -> bool)
    requires IsSpan(sp, isWord)
    ensures IsSpan(EscapedSpan(sp), isWord)
  {
    match sp
    case Fence(_, body) => EscapeStaysPlain(body);
    case Ticked(t) => EscapeStaysPlain(t);
    case Strong(_, t) => EscapeStaysPlain(t);
    case Slanted(_, t) => EscapeStaysPlain(t);
    case Anchored(t, url) =>
      EscapeStaysPlain(t);
      EscapeStaysPlain(url);
  }

  lemma EscapedIsDocument(ps: seq<Piece>, last: string, isWord: char -> bool)
    requires IsDocument(ps, last, isWord)
    ensures IsDocument(Escaped(ps), EscapeHtml(last), isWord)
  {
    EscapeStaysPlain(last);
    forall i | 0 <= i < |ps|
      ensures IsPlain(Escaped(ps)[i].before) && IsSpan(Escaped(ps)[i].span, isWord)
              && (i >= 1 ==> Escaped(ps)[i].before != "")
    {
      assert ps[i] in ps;
      EscapeStaysPlain(ps[i].before);
      EscapedIsSpan(ps[i].span, isWord);
    }
  }

  /**
   A whole document: its text is escaped, and every form becomes its tags around its escaped
   content, in place. No pass touches the form of another.
   */
  lemma DocumentConverts(ps: seq<Piece>, last: string, isWord: char -> bool)
    requires IsDocument(ps, last, isWord) && IsWordClass(isWord)
    ensures MarkdownToTelegramHtml(Render(ps, last, 0), isWord) == Render(Escaped(ps), EscapeHtml(last), 7)
  {
    var es, el := Escaped(ps), EscapeHtml(last);
    EscapeDocument(ps, last, isWord);
    EscapedIsDocument(ps, last, isWord);
    SevenPasses(Render(ps, last, 0), es, el, isWord);
  }

  // ---- The target of a link ----

  lemma Shift(a: string, b: string, c: string, d: string)
    ensures a + (b + c) + d == a + (b + (c + d))
  {
  }

  lemma {:induction false} RenderSplits(ps: seq<Piece>, last: string, k: nat, i: nat)
    requires i < |ps|
    ensures Render(ps, last, k)
            == Render(ps[..i], ps[i].before, k) + (SpanText(ps[i].span, k) + Render(ps[i + 1..], last, k))
  {
    if i > 0 {
      RenderSplits(ps[1..], last, k, i - 1);
      assert ps[1..][..i - 1] == ps[..i][1..] && ps[1..][i..] == ps[i + 1..];
      Shift(ps[0].before, SpanText(ps[0].span, k), Render(ps[..i][1..], ps[i].before, k),
            SpanText(ps[i].span, k) + Render(ps[i + 1..], last, k));
    }
  }

  /** The value of the attribute, for a reader of HTML: it ends at the next quote. */
  function AttributeValue(s: string): string
    requires "<a href=\"" <= s
  {
    s[9..][..Text.Find(s[9..], '"')]
  }

  lemma {:induction false} EscapeKeeps(s: string, c: char)
    requires c in s && c !in SPECIAL
    ensures c in EscapeOnly(s, SPECIAL)
  {
    if s[0] != c { EscapeKeeps(s[1..], c); }
  }

  lemma QuotesStay(s: string)
    ensures '"' in EscapeHtml(s) <==> '"' in s
  {
    EscapeIsSimultaneous(s);
    if '"' in s { EscapeKeeps(s, '"'); } else { EscapeAddsNot(s, '"'); }
  }

  lemma TargetOf(url: string, rest: string)
    ensures AttributeValue("<a href=\"" + url + ("\"" + rest)) == url <==> '"' !in url
  {
    var s, t := "<a href=\"" + url + ("\"" + rest), url + ("\"" + rest);
    assert s[9..] == t && t[|url|] == '"' && t[..|url|] == url;
    if '"' !in url { Text.FindAt(t, '"', |url|); }
  }

  lemma AnchorTarget(t: string, url: string, rest: string)
    ensures var s := "<a href=\"" + url + "\">" + t + "</a>" + rest;
            "<a href=\"" <= s && (AttributeValue(s) == url <==> '"' !in url)
  {
    var r := ">" + t + "</a>" + rest;
    TargetOf(url, r);
    assert "<a href=\"" + url + ("\"" + r) == "<a href=\"" + url + "\">" + t + "</a>" + rest;
  }

  lemma EscapedPrefix(ps: seq<Piece>, i: nat)
    requires i <= |ps|
    ensures Escaped(ps[..i]) == Escaped(ps)[..i]
  {
  }

  /** A piece of a document after every pass. */
  lemma SplitAt(es: seq<Piece>, last: string, i: nat, k: nat)
    requires i < |es| && PassOf(es[i].span) < k
    ensures Render(es, last, k)
            == Render(es[..i], es[i].before, k) + (Html(es[i].span) + Render(es[i + 1..], last, k))
  {
    RenderSplits(es, last, k, i);
  }

  lemma SkipPrefix(a: string, b: string)
    ensures a <= a + b && (a + b)[|a|..] == b
  {
  }

  /** Quotes are not escaped: in a document, a link's target stays in its attribute exactly when it has none. */
  lemma TargetStaysIff(ps: seq<Piece>, last: string, i: nat, isWord: char -> bool)
    requires IsDocument(ps, last, isWord) && IsWordClass(isWord) && i < |ps| && ps[i].span.Anchored?
    ensures var sent := MarkdownToTelegramHtml(Render(ps, last, 0), isWord);
            var at := Render(Escaped(ps[..i]), EscapeHtml(ps[i].before), 7);
            && at <= sent && "<a href=\"" <= sent[|at|..]
            && (AttributeValue(sent[|at|..]) == EscapeHtml(ps[i].span.url) <==> '"' !in ps[i].span.url)
  {
    var url := EscapeHtml(ps[i].span.url);
    var at := Render(Escaped(ps[..i]), EscapeHtml(ps[i].before), 7);
    var rest := Render(Escaped(ps)[i + 1..], EscapeHtml(last), 7);
    DocumentConverts(ps, last, isWord);
    EscapedPrefix(ps, i);
    SplitAt(Escaped(ps), EscapeHtml(last), i, 7);
    SkipPrefix(at, Html(EscapedSpan(ps[i].span)) + rest);
    QuotesStay(ps[i].span.url);
    AnchorTarget(EscapeHtml(ps[i].span.text), url, rest);
  }
}
