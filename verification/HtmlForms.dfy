/** The HTML forms that the formatter turns into markdown, and the tags and text that its passes go by. */
module HtmlForms {
  import opened Patterns
  import opened Wrappers
  import TelegramForms
  import Text

  /** No bracket and no ampersand. */
  predicate IsText(s: string) { '<' !in s && '>' !in s && '&' !in s }

  predicate IsSafe(target: string) {
    "http://" <= target || "https://" <= target || "mailto:" <= target || "/" <= target
  }

  /** A link's attributes start with a safe target. */
  predicate HasSafeTarget(attributes: string) {
    var n := WordRun(attributes, Text.IsSpace);
    && n > 0 && "href=\"" <= attributes[n..]
    && IsSafe(attributes[n + 6..][..Text.Find(attributes[n + 6..], '"')])
  }

  function Tag(inner: string): string { "<" + inner + ">" }

  // ---- Text and tags that a pass goes by ----

  lemma NoBracketNoMatch(p: Pattern, s: string)
    requires p == PreCode || p == Code || p.Element? || p == SafeLink || p == HtmlTag
    requires s != "" && s[0] != '<'
    ensures MatchAt(p, s).None?
  {
  }

  lemma StepsOver(p: Pattern, c: char, rest: string)
    requires MatchAt(p, [c] + rest).None?
    ensures Rewrite(p, [c] + rest) == [c] + Rewrite(p, rest)
  {
    assert ([c] + rest)[1..] == rest;
  }

  lemma Uncons(a: string, rest: string)
    requires a != ""
    ensures a + rest == [a[0]] + (a[1..] + rest)
  {
  }

  lemma {:induction false} Copies(p: Pattern, a: string, rest: string)
    requires p == PreCode || p == Code || p.Element? || p == SafeLink || p == HtmlTag
    requires '<' !in a
    ensures Rewrite(p, a + rest) == a + Rewrite(p, rest)
  {
    if a == "" {
      assert a + rest == rest;
    } else {
      Copies(p, a[1..], rest);
      Uncons(a, rest);
      Uncons(a, Rewrite(p, rest));
      NoBracketNoMatch(p, [a[0]] + (a[1..] + rest));
      StepsOver(p, a[0], a[1..] + rest);
    }
  }

  /** The form that a pass looks for does not start with this tag. */
  predicate Passes(p: Pattern, inner: string) {
    match p
    case PreCode => inner != "pre"
    case Code => inner != "code"
    case Element(name, _) => inner != name
    case SafeLink => !("a" <= inner && HasSafeTarget(inner[1..]))
    case _ => false
  }

  /** Two texts that start alike, up to the first closing bracket. */
  lemma SameTag(a: string, b: string, rest: string, more: string)
    requires '>' !in a && '>' !in b && "<" + a + ">" + more <= "<" + b + ">" + rest
    ensures a == b
  {
    var s, t := "<" + a + ">" + more, "<" + b + ">" + rest;
    assert s[|a| + 1] == '>' == t[|a| + 1] && t[|b| + 1] == '>';
    assert s[1..|a| + 1] == a && t[1..|b| + 1] == b;
  }

  lemma {:induction false} RunWithin(a: string, b: string)
    requires b != "" && !Text.IsSpace(b[0])
    ensures WordRun(a + b, Text.IsSpace) == WordRun(a, Text.IsSpace)
  {
    if a == "" {
      assert a + b == b;
    } else {
      assert (a + b)[0] == a[0] && (a + b)[1..] == a[1..] + b;
      RunWithin(a[1..], b);
    }
  }

  lemma {:induction false} FindWithin(a: string, b: string, c: char)
    ensures Text.Find(a + b, c) == if c in a then Text.Find(a, c) else |a| + Text.Find(b, c)
  {
    if a == "" {
      assert a + b == b;
    } else {
      assert (a + b)[0] == a[0] && (a + b)[1..] == a[1..] + b;
      FindWithin(a[1..], b, c);
    }
  }

  lemma {:induction false} PrefixWithin(p: string, a: string, rest: string)
    requires '>' !in p
    ensures p <= a + (">" + rest) <==> p <= a
  {
    var s := a + (">" + rest);
    if p != "" && a != "" {
      PrefixWithin(p[1..], a[1..], rest);
      assert s[0] == a[0] && s[1..] == a[1..] + (">" + rest);
      assert p <= s <==> p[0] == s[0] && p[1..] <= s[1..];
      assert p <= a <==> p[0] == a[0] && p[1..] <= a[1..];
    } else if p != "" {
      assert s[0] == '>';
    }
  }

  lemma SameSafety(target: string)
    ensures IsSafe(target) <==> IsSafeTarget(target)
  {
  }

  lemma TargetWithin(r: string, rest: string)
    requires !IsSafe(r[..Text.Find(r, '"')])
    ensures var s := r + (">" + rest); !IsSafe(s[..Text.Find(s, '"')])
  {
    var s := r + (">" + rest);
    FindWithin(r, ">" + rest, '"');
    if '"' in r {
      assert s[..Text.Find(s, '"')] == r[..Text.Find(r, '"')];
    } else {
      var more := rest[..Text.Find(rest, '"')];
      assert (">" + rest)[1..] == rest;
      assert s[..Text.Find(s, '"')] == r + (">" + more);
      PrefixWithin("http://", r, more);
      PrefixWithin("https://", r, more);
      PrefixWithin("mailto:", r, more);
      PrefixWithin("/", r, more);
    }
  }

  lemma NoSafeLink(s: string, n: nat)
    requires "<a" <= s && n == WordRun(s[2..], Text.IsSpace)
    requires n > 0 && "href=\"" <= s[2 + n..] ==> !IsSafeTarget(s[n + 8..][..Text.Find(s[n + 8..], '"')])
    ensures AnchorAt(s).None?
  {
    hide WordRun, Text.Find, AnchorText, IsSafeTarget;
  }

  lemma Drops(a: string, n: nat, b: string)
    requires n <= |a|
    ensures (a + b)[n..] == a[n..] + b
  {
  }

  /** A link whose target is not safe, whatever follows the tag. */
  lemma LooseStays(attributes: string, rest: string)
    requires !HasSafeTarget(attributes)
    ensures AnchorAt("<a" + (attributes + (">" + rest))).None?
  {
    var all := attributes + (">" + rest);
    var n := WordRun(attributes, Text.IsSpace);
    assert ("<a" + all)[2..] == all && ("<a" + all)[2 + n..] == all[n..];
    RunWithin(attributes, ">" + rest);
    Drops(attributes, n, ">" + rest);
    PrefixWithin("href=\"", attributes[n..], rest);
    if n > 0 && "href=\"" <= attributes[n..] {
      assert ("<a" + all)[n + 8..] == all[n + 6..];
      Drops(attributes, n + 6, ">" + rest);
      TargetWithin(attributes[n + 6..], rest);
      SameSafety(all[n + 6..][..Text.Find(all[n + 6..], '"')]);
    }
    NoSafeLink("<a" + all, n);
  }

  lemma FirstOf(inner: string, rest: string)
    requires "<a" <= "<" + inner + ">" + rest && inner != ""
    ensures "a" <= inner && "<" + inner + ">" + rest == "<a" + (inner[1..] + (">" + rest))
  {
    assert ("<" + inner + ">" + rest)[1] == inner[0];
    assert inner == "a" + inner[1..];
  }

  lemma TagIsNoMatch(p: Pattern, inner: string, rest: string)
    requires p == PreCode || p == Code || (p.Element? && '>' !in p.name) || p == SafeLink
    requires inner != "" && '>' !in inner && Passes(p, inner)
    ensures MatchAt(p, "<" + inner + ">" + rest).None?
  {
    var s := "<" + inner + ">" + rest;
    match p
    case PreCode =>
      if "<pre><code" <= s {
        assert "<pre><code" == "<" + "pre" + ">" + "<code";
        SameTag("pre", inner, rest, "<code");
      }
    case Code =>
      if "<code>" <= s {
        assert "<code>" == "<" + "code" + ">" + "";
        SameTag("code", inner, rest, "");
      }
    case Element(name, mark) =>
      if "<" + name + ">" <= s {
        assert "<" + name + ">" == "<" + name + ">" + "";
        SameTag(name, inner, rest, "");
      }
    case SafeLink =>
      if "<a" <= s {
        FirstOf(inner, rest);
        LooseStays(inner[1..], rest);
      }
  }

  lemma TagParts(inner: string, rest: string)
    ensures "<" + inner + ">" + rest == ['<'] + ((inner + ">") + rest)
    ensures Tag(inner) + rest == ['<'] + ((inner + ">") + rest)
  {
  }

  lemma NoMatchStays(p: Pattern, inner: string, rest: string)
    requires p == PreCode || p == Code || p.Element? || p == SafeLink
    requires '<' !in inner && MatchAt(p, "<" + inner + ">" + rest).None?
    ensures Rewrite(p, Tag(inner) + rest) == Tag(inner) + Rewrite(p, rest)
  {
    TagParts(inner, rest);
    StepsOver(p, '<', (inner + ">") + rest);
    Copies(p, inner + ">", rest);
    TagParts(inner, Rewrite(p, rest));
  }

  lemma TagStays(p: Pattern, inner: string, rest: string)
    requires p == PreCode || p == Code || (p.Element? && '>' !in p.name) || p == SafeLink
    requires inner != "" && '>' !in inner && '<' !in inner && Passes(p, inner)
    ensures Rewrite(p, Tag(inner) + rest) == Tag(inner) + Rewrite(p, rest)
  {
    TagIsNoMatch(p, inner, rest);
    NoMatchStays(p, inner, rest);
  }

  lemma TagLengthIs(s: string, inner: string, rest: string)
    requires s == ['<'] + (inner + (">" + rest)) && inner != "" && '>' !in inner
    ensures TagLength(s) == |inner| + 2
  {
    assert s[1..] == inner + (">" + rest);
    FindWithin(inner, ">" + rest, '>');
  }

  lemma TagGoes(inner: string, rest: string)
    requires inner != "" && '>' !in inner
    ensures Rewrite(HtmlTag, Tag(inner) + rest) == Rewrite(HtmlTag, rest)
  {
    var s := Tag(inner) + rest;
    assert s == ['<'] + (inner + (">" + rest));
    TagLengthIs(s, inner, rest);
    TelegramForms.FirstMatch(HtmlTag, Tag(inner), rest, MatchAt(HtmlTag, s), "");
    assert "" + Rewrite(HtmlTag, rest) == Rewrite(HtmlTag, rest);
  }

  // ---- The forms ----

  lemma {:induction false} FindsClose(s: string, close: string, j: nat, end: nat)
    requires close != "" && close[0] == '<' && j <= end && end + |close| <= |s| && s[end..end + |close|] == close
    requires forall i | j <= i < end :: s[i] != '<'
    ensures FindMark(s, close, j, AnyChar) == Some(end)
  {
    TelegramForms.FindsMark(s, close, j, AnyChar, end);
  }

  lemma Parts(a: string, e: string, b: string, rest: string)
    requires '<' !in e
    ensures var s := a + e + b + rest;
            var end := |a| + |e|;
            && a <= s && s[|a|..end] == e && s[end..end + |b|] == b && s[end..] == b + rest
            && (forall i | |a| <= i < end :: s[i] != '<')
  {
    TelegramForms.Middle(a, e, b, rest);
  }

  lemma ElementMatches(s: string, name: string, mark: string, end: nat, e: string)
    requires "<" + name + ">" <= s && FindMark(s, "</" + name + ">", |name| + 2, AnyChar) == Some(end)
    requires s[|name| + 2..end] == e
    ensures ElementAt(s, name, mark) == Some(Match(end + |name| + 3, mark + e + mark))
  {
  }

  lemma Grouped(a: string, e: string, b: string, rest: string)
    ensures a + e + b + rest == a + (e + b + rest) && |a + e + b| == |a| + |e| + |b|
  {
  }

  lemma Closes(open: string, e: string, close: string, rest: string)
    requires '<' !in e && close != "" && close[0] == '<'
    ensures var s := open + e + close + rest;
            && |open| + |e| <= |s| && s[|open|..|open| + |e|] == e
            && FindMark(s, close, |open|, AnyChar) == Some(|open| + |e|)
  {
    Parts(open, e, close, rest);
    FindsClose(open + e + close + rest, close, |open|, |open| + |e|);
  }

  lemma ElementFound(name: string, mark: string, e: string, rest: string, open: string, close: string)
    requires '<' !in e && open == "<" + name + ">" && close == "</" + name + ">"
    ensures ElementAt(open + e + close + rest, name, mark) == Some(Match(|open + e + close|, mark + e + mark))
  {
    Closes(open, e, close, rest);
    Grouped(open, e, close, rest);
    ElementMatches(open + e + close + rest, name, mark, |open| + |e|, e);
  }

  lemma ElementForm(name: string, mark: string, e: string, rest: string)
    requires '<' !in e
    ensures Rewrite(Element(name, mark), "<" + name + ">" + e + "</" + name + ">" + rest)
            == mark + e + mark + Rewrite(Element(name, mark), rest)
  {
    var open, close := "<" + name + ">", "</" + name + ">";
    ElementFound(name, mark, e, rest, open, close);
    var form := open + e + close;
    assert "<" + name + ">" + e + "</" + name + ">" == form;
    TelegramForms.FirstMatch(Element(name, mark), form, rest, MatchAt(Element(name, mark), form + rest),
                             mark + e + mark);
  }

  lemma CodeForm(e: string, rest: string)
    requires '<' !in e && e != ""
    ensures Rewrite(Code, "<code>" + e + "</code>" + rest) == "`" + e + "`" + Rewrite(Code, rest)
  {
    var s := "<code>" + e + "</code>" + rest;
    Parts("<code>", e, "</code>", rest);
    assert s[6..] == e + ("</code>" + rest);
    FindWithin(e, "</code>" + rest, '<');
    TelegramForms.FirstMatch(Code, "<code>" + e + "</code>", rest, CodeAt(s), "`" + e + "`");
  }

  lemma EmptyCodeStays(rest: string)
    ensures Rewrite(Code, Tag("code") + (Tag("/code") + rest)) == Tag("code") + (Tag("/code") + Rewrite(Code, rest))
  {
    var more := Tag("/code") + rest;
    var s := "<" + "code" + ">" + more;
    assert "<" + "code" + ">" == "<code>" && s[6..] == more && more[0] == '<';
    NoMatchStays(Code, "code", more);
    TagStays(Code, "/code", rest);
  }

  lemma FenceOpens(attributes: string, rest: string)
    requires '>' !in attributes
    ensures var s := "<pre><code" + attributes + ">" + rest;
            "<pre><code" <= s && Text.Find(s[10..], '>') == |attributes|
  {
    var s := "<pre><code" + attributes + ">" + rest;
    assert s[10..] == attributes + (">" + rest);
    FindWithin(attributes, ">" + rest, '>');
  }

  lemma FenceMatches(s: string, p: nat, end: nat, body: string)
    requires "<pre><code" <= s && p == 11 + Text.Find(s[10..], '>') <= |s|
    requires FindMark(s, "</code></pre>", p, AnyChar) == Some(end) && s[p..end] == body
    ensures PreCodeAt(s) == Some(Match(end + 13, "```\n" + body + "```"))
  {
    hide FindMark, Text.Find;
  }

  lemma FenceStarts(attributes: string, e: string, rest: string, open: string, s: string)
    requires '>' !in attributes && open == "<pre><code" + attributes + ">"
    requires s == open + e + "</code></pre>" + rest
    ensures "<pre><code" <= s && Text.Find(s[10..], '>') == |attributes|
  {
    Grouped(open, e, "</code></pre>", rest);
    FenceOpens(attributes, e + "</code></pre>" + rest);
  }

  lemma FenceAt(attributes: string, e: string, rest: string, open: string, s: string)
    requires '>' !in attributes && '<' !in e && open == "<pre><code" + attributes + ">"
    requires s == open + e + "</code></pre>" + rest
    ensures PreCodeAt(s) == Some(Match(|open| + |e| + 13, "```\n" + e + "```"))
  {
    hide *;
    FenceStarts(attributes, e, rest, open, s);
    Closes(open, e, "</code></pre>", rest);
    FenceMatches(s, |open|, |open| + |e|, e);
  }

  lemma FenceForm(attributes: string, e: string, rest: string)
    requires '>' !in attributes && '<' !in e
    ensures Rewrite(PreCode, "<pre><code" + attributes + ">" + e + "</code></pre>" + rest)
            == "```\n" + e + "```" + Rewrite(PreCode, rest)
  {
    var open := "<pre><code" + attributes + ">";
    var form := open + e + "</code></pre>";
    FenceAt(attributes, e, rest, open, form + rest);
    Grouped(open, e, "</code></pre>", rest);
    TelegramForms.FirstMatch(PreCode, form, rest, MatchAt(PreCode, form + rest), "```\n" + e + "```");
  }

  lemma {:induction false} SpacesRun(spaces: string, rest: string)
    requires (forall c <- spaces :: Text.IsSpace(c)) && rest != "" && !Text.IsSpace(rest[0])
    ensures WordRun(spaces + rest, Text.IsSpace) == |spaces|
  {
    if spaces == "" {
      assert spaces + rest == rest;
    } else {
      assert (spaces + rest)[0] == spaces[0] && (spaces + rest)[1..] == spaces[1..] + rest;
      SpacesRun(spaces[1..], rest);
    }
  }

  lemma Cut(s: string, a: string, c: char, b: string)
    requires s == a + ([c] + b) && c !in a
    ensures |a| < |s| && Text.Find(s, c) == |a| && s[..|a|] == a && s[|a| + 1..] == b
  {
    FindWithin(a, [c] + b, c);
  }

  lemma TextForm(s: string, attributes: string, text: string, t: string, rest: string, target: string)
    requires s == attributes + (['>'] + text) && text == t + (['<'] + rest) && "/a>" <= rest
    requires '>' !in attributes && '<' !in t
    ensures AnchorText(s, target) == Some(Patterns.Anchor(target, t, |attributes| + |t| + 5))
  {
    Cut(s, attributes, '>', text);
    Cut(text, t, '<', rest);
    assert text[|t|..] == ['<'] + rest;
  }

  lemma TargetUnfolds(s: string, c: nat, target: string, after: string)
    requires c == Text.Find(s, '"') && c < |s| && s[..c] == target && s[c + 1..] == after && IsSafeTarget(target)
    ensures AnchorTarget(s) == Longer(AnchorText(after, target), c + 1)
  {
    hide Text.Find, AnchorText, IsSafeTarget;
  }

  lemma TargetForm(s: string, target: string, after: string)
    requires s == target + (['"'] + after) && '"' !in target && IsSafeTarget(target)
    ensures AnchorTarget(s) == Longer(AnchorText(after, target), |target| + 1)
  {
    hide *;
    Cut(s, target, '"', after);
    TargetUnfolds(s, |target|, target, after);
  }

  lemma LinkUnfolds(s: string, n: nat)
    requires "<a" <= s && n == WordRun(s[2..], Text.IsSpace) && n > 0 && n + 8 <= |s| && "href=\"" <= s[2 + n..]
    ensures AnchorAt(s) == Longer(AnchorTarget(s[n + 8..]), n + 8)
  {
    hide WordRun, AnchorTarget;
  }

  lemma LinkOpens(s: string, spaces: string, v: string)
    requires s == "<a" + (spaces + ("href=\"" + v)) && spaces != "" && forall c <- spaces :: Text.IsSpace(c)
    ensures AnchorAt(s) == Longer(AnchorTarget(v), |spaces| + 8)
  {
    hide AnchorAt, AnchorTarget;
    assert s[2..] == spaces + ("href=\"" + v);
    SpacesRun(spaces, "href=\"" + v);
    assert s[2 + |spaces|..] == "href=\"" + v && s[|spaces| + 8..] == v;
    LinkUnfolds(s, |spaces|);
  }

  /** What follows the target, up to the end of the text. */
  lemma AnchorEnd(target: string, attributes: string, t: string, rest: string) returns (after: string)
    requires '>' !in attributes && '<' !in t
    ensures after == attributes + ">" + t + "</a>" + rest
    ensures AnchorText(after, target) == Some(Patterns.Anchor(target, t, |attributes| + |t| + 5))
  {
    hide *;
    var text := t + (['<'] + ("/a>" + rest));
    assert t + "</a>" + rest == text;
    after := attributes + (['>'] + text);
    TextForm(after, attributes, text, t, "/a>" + rest, target);
  }

  lemma AnchorSplits(spaces: string, target: string, attributes: string, t: string, rest: string, after: string,
                     form: string)
    requires after == attributes + ">" + t + "</a>" + rest
    requires form == "<a" + spaces + "href=\"" + target + "\"" + attributes + ">" + t + "</a>"
    ensures form + rest == "<a" + (spaces + ("href=\"" + (target + (['"'] + after))))
    ensures |form| == |spaces| + |target| + |attributes| + |t| + 14
  {
    var v := target + (['"'] + after);
    assert form + rest == "<a" + spaces + "href=\"" + v;
    assert "<a" + spaces + "href=\"" + v == "<a" + (spaces + ("href=\"" + v));
  }

  lemma AnchorIs(spaces: string, target: string, attributes: string, t: string, rest: string, form: string)
    requires form == "<a" + spaces + "href=\"" + target + "\"" + attributes + ">" + t + "</a>"
    requires spaces != "" && (forall c <- spaces :: Text.IsSpace(c)) && '"' !in target && IsSafeTarget(target)
    requires '>' !in attributes && '<' !in t
    ensures AnchorAt(form + rest) == Some(Patterns.Anchor(target, t, |form|))
  {
    hide AnchorAt, AnchorTarget, AnchorText, IsSafeTarget;
    var after := AnchorEnd(target, attributes, t, rest);
    AnchorSplits(spaces, target, attributes, t, rest, after, form);
    var v := target + (['"'] + after);
    LinkOpens(form + rest, spaces, v);
    TargetForm(v, target, after);
  }

  lemma AnchorForm(spaces: string, target: string, attributes: string, t: string, rest: string, form: string)
    requires form == "<a" + spaces + "href=\"" + target + "\"" + attributes + ">" + t + "</a>"
    requires spaces != "" && (forall c <- spaces :: Text.IsSpace(c)) && '"' !in target && IsSafe(target)
    requires '>' !in attributes && '<' !in t
    ensures Rewrite(SafeLink, form + rest) == "[" + t + "](" + target + ")" + Rewrite(SafeLink, rest)
  {
    hide AnchorAt, Rewrite;
    SameSafety(target);
    AnchorIs(spaces, target, attributes, t, rest, form);
    TelegramForms.FirstMatch(SafeLink, form, rest, MatchAt(SafeLink, form + rest), "[" + t + "](" + target + ")");
  }
}
