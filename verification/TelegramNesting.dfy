/** When the tags sent to Telegram nest, and not only balance. */
module TelegramNesting {
  import opened HtmlEntities
  import opened TelegramDocuments
  import opened TelegramHtml
  import opened Wrappers

  /** The tag that the text starts with. */
  ghost function TagAt(s: string): Option<Tag> {
    if exists t :: Spelled(t) <= s then var t :| Spelled(t) <= s; Some(t) else None
  }

  lemma TagAtIs(s: string, t: Tag)
    requires Spelled(t) <= s
    ensures TagAt(s) == Some(t)
  {
    TagsDiffer(s, t, TagAt(s).value);
  }

  /** The kinds that are open after a tag, innermost last; none if it closes another kind. */
  function After(t: Tag, open: seq<Kind>): Option<seq<Kind>> {
    if t.Opening? then Some(open + [t.kind])
    else if open != [] && open[|open| - 1] == t.kind then Some(open[..|open| - 1])
    else None
  }

  /** The kinds that are open after a text. */
  ghost function Scan(s: string, open: seq<Kind>): Option<seq<Kind>>
    decreases |s|
  {
    if s == "" then Some(open)
    else
      var now := if TagAt(s).Some? then After(TagAt(s).value, open) else Some(open);
      if now.None? then None else Scan(s[1..], now.value)
  }

  ghost predicate Nests(s: string) { Scan(s, []) == Some([]) }

  ghost function ScanOn(open: Option<seq<Kind>>, s: string): Option<seq<Kind>> {
    if open.None? then None else Scan(s, open.value)
  }

  lemma TagAtHead(a: string, b: string)
    requires a != "" && WellTagged(a)
    ensures TagAt(a + b) == TagAt(a)
  {
    if TagAt(a).Some? {
      HeadTag(a, b, TagAt(a).value);
      TagAtIs(a + b, TagAt(a).value);
    } else if TagAt(a + b).Some? {
      HeadTag(a, b, TagAt(a + b).value);
    }
  }

  lemma {:induction false} ScanJoins(a: string, b: string, open: seq<Kind>)
    requires WellTagged(a)
    ensures Scan(a + b, open) == ScanOn(Scan(a, open), b)
    decreases |a|
  {
    if a == "" {
      assert a + b == b;
    } else {
      TagAtHead(a, b);
      assert (a + b)[1..] == a[1..] + b;
      var now := if TagAt(a).Some? then After(TagAt(a).value, open) else Some(open);
      if now.Some? { ScanJoins(a[1..], b, now.value); }
    }
  }

  lemma {:induction false} ScanNoTags(s: string, open: seq<Kind>)
    requires '<' !in s
    ensures Scan(s, open) == Some(open)
  {
    if s != "" {
      if TagAt(s).Some? {
        TagSpelling(TagAt(s).value);
        assert false;
      }
      ScanNoTags(s[1..], open);
    }
  }

  lemma ScanTag(t: Tag, open: seq<Kind>)
    ensures Scan(Spelled(t), open) == After(t, open)
  {
    TagAtIs(Spelled(t), t);
    TagSpelling(t);
    if After(t, open).Some? { ScanNoTags(Spelled(t)[1..], After(t, open).value); }
  }

  /** Text that opens nothing that it does not close, whatever is open around it. */
  ghost predicate IsClosed(s: string) { WellTagged(s) && forall open :: Scan(s, open) == Some(open) }

  lemma NoTagsIsClosed(s: string)
    requires '<' !in s
    ensures IsClosed(s)
  {
    NoTags(s, BoldTag);
    forall open ensures Scan(s, open) == Some(open) { ScanNoTags(s, open); }
  }

  lemma ClosedJoins(a: string, b: string)
    requires IsClosed(a) && IsClosed(b)
    ensures IsClosed(a + b)
  {
    WellTaggedJoins(a, b);
    forall open ensures Scan(a + b, open) == Some(open) { ScanJoins(a, b, open); }
  }

  lemma WrapIsClosed(k: Kind, c: string)
    requires IsClosed(c)
    ensures IsClosed(Spelled(Opening(k)) + c + Spelled(Closing(k)))
  {
    var a, z := Spelled(Opening(k)), Spelled(Closing(k));
    OneTag(Opening(k), k);
    OneTag(Closing(k), k);
    WellTaggedJoins(a, c);
    WellTaggedJoins(a + c, z);
    forall open ensures Scan(a + c + z, open) == Some(open) {
      ScanTag(Opening(k), open);
      ScanJoins(a, c, open);
      ScanJoins(a + c, z, open);
      ScanTag(Closing(k), open + [k]);
      assert (open + [k])[..|open|] == open;
    }
  }

  // ---- Documents nest ----

  lemma AnchorIsClosed(t: string, url: string)
    requires '<' !in t && '<' !in url
    ensures IsClosed("<a href=\"" + url + "\">" + t + "</a>")
  {
    var c := url + ("\">" + t);
    NoTagsIsClosed(c);
    WrapIsClosed(LinkTag, c);
    assert "<a href=\"" + c + "</a>" == "<a href=\"" + url + "\">" + t + "</a>";
  }

  lemma FenceIsClosed(body: string)
    requires '<' !in body
    ensures IsClosed("<pre><code>" + body + "</code></pre>")
  {
    NoTagsIsClosed(body);
    WrapIsClosed(CodeTag, body);
    WrapIsClosed(PreTag, "<code>" + body + "</code>");
    PreCodeSpelled(body);
  }

  lemma EscapedHasNoTag(t: string)
    ensures '<' !in EscapeHtml(t)
  {
    EscapeIsSimultaneous(t);
    NoBracketInEscape(t);
  }

  lemma SpanIsClosed(sp: Span)
    ensures IsClosed(Html(EscapedSpan(sp)))
  {
    match sp
    case Fence(_, body) =>
      EscapedHasNoTag(body);
      FenceIsClosed(EscapeHtml(body));
    case Ticked(t) =>
      EscapedHasNoTag(t);
      NoTagsIsClosed(EscapeHtml(t));
      WrapIsClosed(CodeTag, EscapeHtml(t));
    case Strong(_, t) =>
      EscapedHasNoTag(t);
      NoTagsIsClosed(EscapeHtml(t));
      WrapIsClosed(BoldTag, EscapeHtml(t));
    case Slanted(_, t) =>
      EscapedHasNoTag(t);
      NoTagsIsClosed(EscapeHtml(t));
      WrapIsClosed(ItalicTag, EscapeHtml(t));
    case Anchored(t, url) =>
      EscapedHasNoTag(t);
      EscapedHasNoTag(url);
      AnchorIsClosed(EscapeHtml(t), EscapeHtml(url));
  }

  lemma {:induction false} RenderIsClosed(ps: seq<Piece>, last: string)
    ensures IsClosed(Render(Escaped(ps), EscapeHtml(last), 7))
  {
    if ps == [] {
      EscapedHasNoTag(last);
      NoTagsIsClosed(EscapeHtml(last));
    } else {
      var p := ps[0];
      RenderIsClosed(ps[1..], last);
      var rest := Render(Escaped(ps[1..]), EscapeHtml(last), 7);
      SpanIsClosed(p.span);
      ClosedJoins(Html(EscapedSpan(p.span)), rest);
      EscapedHasNoTag(p.before);
      NoTagsIsClosed(EscapeHtml(p.before));
      ClosedJoins(EscapeHtml(p.before), Html(EscapedSpan(p.span)) + rest);
      assert Escaped(ps)[1..] == Escaped(ps[1..]);
    }
  }

  /** Where forms do not overlap, the tags nest. */
  lemma DocumentsNest(ps: seq<Piece>, last: string, isWord: char -> bool)
    requires IsDocument(ps, last, isWord) && IsWordClass(isWord)
    ensures Nests(MarkdownToTelegramHtml(Render(ps, last, 0), isWord))
  {
    DocumentConverts(ps, last, isWord);
    RenderIsClosed(ps, last);
  }

  // ---- Tags and texts in turn ----

  /** What some tags leave open. */
  function Follow(tags: seq<Tag>, open: seq<Kind>): Option<seq<Kind>> {
    if tags == [] then Some(open)
    else if After(tags[0], open).None? then None
    else Follow(tags[1..], After(tags[0], open).value)
  }

  lemma ScanPast(text: string, t: Tag, rest: string, open: seq<Kind>)
    requires '<' !in text
    ensures Scan(text + (Spelled(t) + rest), open) == ScanOn(After(t, open), rest)
  {
    NoTags(text, BoldTag);
    ScanNoTags(text, open);
    ScanJoins(text, Spelled(t) + rest, open);
    OneTag(t, BoldTag);
    ScanTag(t, open);
    ScanJoins(Spelled(t), rest, open);
  }

  lemma Opens(k: Kind, rest: seq<Tag>, open: seq<Kind>)
    ensures Follow([Opening(k)] + rest, open) == Follow(rest, open + [k])
  {
    assert ([Opening(k)] + rest)[1..] == rest;
  }

  lemma Closes(k: Kind, j: Kind, rest: seq<Tag>, open: seq<Kind>)
    ensures Follow([Closing(k)] + rest, open + [j]) == if j == k then Follow(rest, open) else None
  {
    assert ([Closing(k)] + rest)[1..] == rest && (open + [j])[..|open|] == open;
  }

  lemma CrossedFails(x: Kind, y: Kind)
    requires x != y
    ensures Follow([Opening(x), Opening(y), Closing(x), Closing(y)], []) == None
  {
    var g := [Opening(x), Opening(y), Closing(x), Closing(y)];
    assert g == [Opening(x)] + ([Opening(y)] + ([Closing(x)] + [Closing(y)]));
    Opens(x, [Opening(y)] + ([Closing(x)] + [Closing(y)]), []);
    Opens(y, [Closing(x)] + [Closing(y)], [] + [x]);
    Closes(x, y, [Closing(y)], [] + [x]);
  }

  lemma InsideWorks(x: Kind, y: Kind)
    ensures Follow([Opening(x), Opening(y), Closing(y), Closing(x)], []) == Some([])
  {
    var g := [Opening(x), Opening(y), Closing(y), Closing(x)];
    assert g == [Opening(x)] + ([Opening(y)] + ([Closing(y)] + ([Closing(x)] + [])));
    Opens(x, [Opening(y)] + ([Closing(y)] + ([Closing(x)] + [])), []);
    Opens(y, [Closing(y)] + ([Closing(x)] + []), [] + [x]);
    Closes(y, y, [Closing(x)] + [], [] + [x]);
    Closes(x, x, [], []);
  }

  lemma InTurnWorks(x: Kind, y: Kind)
    ensures Follow([Opening(x), Closing(x), Opening(y), Closing(y)], []) == Some([])
  {
    var g := [Opening(x), Closing(x), Opening(y), Closing(y)];
    assert g == [Opening(x)] + ([Closing(x)] + ([Opening(y)] + ([Closing(y)] + [])));
    Opens(x, [Closing(x)] + ([Opening(y)] + ([Closing(y)] + [])), []);
    Closes(x, x, [Opening(y)] + ([Closing(y)] + []), []);
    Opens(y, [Closing(y)] + [], []);
    Closes(y, y, [], []);
  }
}
