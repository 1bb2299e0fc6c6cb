/**
 Documents in HTML: plain text, forms and other tags, one after the other. What Lark, DingTalk and
 WeChat are sent of them.
 */
module HtmlDocuments {
  import opened Wrappers
  import opened Patterns
  import opened EntityTexts
  import opened HtmlEntities
  import opened HtmlForms
  import opened StripTags
  import TelegramForms
  import Text

  datatype Part =
    | Words(text: string)
    | Fence(attributes: string, body: string)
    | CodeSpan(text: string)
    | Styled(name: string, text: string)
    | SafeAnchor(spaces: string, target: string, attributes: string, text: string)
    | LooseAnchor(attributes: string, text: string)
    | OtherTag(inner: string)

  /** The tag opens none of the forms. */
  predicate IsOther(inner: string) {
    && inner != "" && inner != "pre" && inner != "code"
    && inner != "b" && inner != "strong" && inner != "i" && inner != "em"
    && ("a" <= inner ==> !HasSafeTarget(inner[1..]))
  }

  predicate IsPart(p: Part) {
    match p
    case Words(t) => IsText(t)
    case Fence(attributes, body) => IsText(attributes) && IsText(body)
    case CodeSpan(t) => IsText(t)
    case Styled(name, t) => name in ["b", "strong", "i", "em"] && IsText(t)
    case SafeAnchor(spaces, target, attributes, t) =>
      && spaces != "" && (forall c <- spaces :: Text.IsSpace(c))
      && IsText(target) && '"' !in target && IsSafe(target) && IsText(attributes) && IsText(t)
    case LooseAnchor(attributes, t) => IsText(attributes) && !HasSafeTarget(attributes) && IsText(t)
    case OtherTag(inner) => IsText(inner) && IsOther(inner)
  }

  predicate IsHtml(ps: seq<Part>) { forall p <- ps :: IsPart(p) }

  function Html(p: Part): string {
    match p
    case Words(t) => t
    case Fence(attributes, body) => "<pre><code" + attributes + ">" + body + "</code></pre>"
    case CodeSpan(t) => "<code>" + t + "</code>"
    case Styled(name, t) => "<" + name + ">" + t + "</" + name + ">"
    case SafeAnchor(spaces, target, attributes, t) =>
      "<a" + spaces + "href=\"" + target + "\"" + attributes + ">" + t + "</a>"
    case LooseAnchor(attributes, t) => "<a" + attributes + ">" + t + "</a>"
    case OtherTag(inner) => "<" + inner + ">"
  }

  /** What Lark and DingTalk are sent. */
  function Marked(p: Part): string {
    match p
    case Words(t) => t
    case Fence(_, body) => "```\n" + body + "```"
    case CodeSpan(t) => if t == "" then "" else "`" + t + "`"
    case Styled(name, t) => if name == "b" || name == "strong" then "**" + t + "**" else "*" + t + "*"
    case SafeAnchor(_, target, _, t) => "[" + t + "](" + target + ")"
    case LooseAnchor(_, t) => t
    case OtherTag(_) => ""
  }

  /** What WeChat is sent. */
  function Bare(p: Part): string {
    match p
    case Words(t) => t
    case Fence(_, body) => body
    case CodeSpan(t) => t
    case Styled(_, t) => t
    case SafeAnchor(_, _, _, t) => t
    case LooseAnchor(_, t) => t
    case OtherTag(_) => ""
  }

  /** Which of the passes a part is for; the last removes tags. */
  function PassOf(p: Part): nat {
    match p
    case Words(_) => 8
    case Fence(_, _) => 0
    case CodeSpan(t) => if t == "" then 7 else 1
    case Styled(name, _) => if name == "b" then 2 else if name == "strong" then 3 else if name == "i" then 4 else 5
    case SafeAnchor(_, _, _, _) => 6
    case LooseAnchor(_, _) => 7
    case OtherTag(_) => 7
  }

  function PassNo(k: nat): Pattern
    requires k < 8
  {
    match k
    case 0 => PreCode
    case 1 => Code
    case 2 => Element("b", "**")
    case 3 => Element("strong", "**")
    case 4 => Element("i", "*")
    case 5 => Element("em", "*")
    case 6 => SafeLink
    case 7 => HtmlTag
  }

  /** A part after the first `k` passes. */
  function PartText(p: Part, k: nat): string { if PassOf(p) < k then Marked(p) else Html(p) }

  function Render(ps: seq<Part>, k: nat): string {
    if ps == [] then "" else PartText(ps[0], k) + Render(ps[1..], k)
  }

  // ---- One pass over a document ----

  lemma MarkedHasNoTag(p: Part)
    requires IsPart(p)
    ensures '<' !in Marked(p)
  {
  }

  lemma FourParts(a: string, b: string, c: string, d: string)
    ensures a + b + c + d == a + (b + (c + d))
  {
  }

  /** A tag, text and another tag, at neither of which the pass finds anything. */
  lemma TwoTagsStay(p: Pattern, a: string, t: string, b: string, rest: string)
    requires p == PreCode || p == Code || (p.Element? && '>' !in p.name) || p == SafeLink
    requires '<' !in t && a != "" && '>' !in a && '<' !in a && Passes(p, a)
    requires b != "" && '>' !in b && '<' !in b && Passes(p, b)
    ensures Rewrite(p, Tag(a) + t + Tag(b) + rest) == Tag(a) + t + Tag(b) + Rewrite(p, rest)
  {
    hide Rewrite, Tag, Passes;
    TagStays(p, a, t + (Tag(b) + rest));
    Copies(p, t, Tag(b) + rest);
    TagStays(p, b, rest);
    FourParts(Tag(a), t, Tag(b), rest);
    FourParts(Tag(a), t, Tag(b), Rewrite(p, rest));
  }

  /** Tags that the last pass removes. */
  lemma TwoTagsGo(a: string, t: string, b: string, rest: string)
    requires '<' !in t && a != "" && '>' !in a && b != "" && '>' !in b
    ensures Rewrite(HtmlTag, Tag(a) + t + Tag(b) + rest) == t + Rewrite(HtmlTag, rest)
  {
    hide Rewrite, Tag;
    FourParts(Tag(a), t, Tag(b), rest);
    TagGoes(a, t + (Tag(b) + rest));
    Copies(HtmlTag, t, Tag(b) + rest);
    TagGoes(b, rest);
  }

  /** The tags of a form that encloses text. */
  function Opening(p: Part): string
    requires !p.Words? && !p.Fence? && !p.OtherTag?
  {
    match p
    case CodeSpan(_) => "code"
    case Styled(name, _) => name
    case SafeAnchor(spaces, target, attributes, _) => "a" + spaces + "href=\"" + target + "\"" + attributes
    case LooseAnchor(attributes, _) => "a" + attributes
  }

  function Closing(p: Part): string
    requires !p.Words? && !p.Fence? && !p.OtherTag?
  {
    match p
    case CodeSpan(_) => "/code"
    case Styled(name, _) => "/" + name
    case SafeAnchor(_, _, _, _) => "/a"
    case LooseAnchor(_, _) => "/a"
  }

  lemma AnchorGroups(a: string, b: string, c: string, d: string, e: string, t: string)
    ensures a + b + c + d + e + ">" + t + "</a>" == (a + (b + c + d + e) + ">") + t + "</a>"
  {
  }

  lemma TagOfAnchor(x: string)
    ensures Tag("a" + x) == "<a" + x + ">" && Tag("/a") == "</a>"
  {
  }

  lemma AnchorInner(spaces: string, target: string, attributes: string)
    ensures "a" + spaces + "href=\"" + target + "\"" + attributes
            == "a" + (spaces + "href=\"" + target + "\"" + attributes)
  {
  }

  lemma StyledTags(name: string, t: string)
    ensures "<" + name + ">" + t + "</" + name + ">" == Tag(name) + t + Tag("/" + name)
  {
    assert Tag("/" + name) == "</" + name + ">";
  }

  lemma EnclosedText(p: Part)
    requires !p.Words? && !p.Fence? && !p.OtherTag?
    ensures Html(p) == Tag(Opening(p)) + p.text + Tag(Closing(p))
  {
    match p
    case CodeSpan(t) => assert Tag("code") == "<code>" && Tag("/code") == "</code>";
    case Styled(name, t) => StyledTags(name, t);
    case SafeAnchor(spaces, target, attributes, t) =>
      AnchorInner(spaces, target, attributes);
      TagOfAnchor(spaces + "href=\"" + target + "\"" + attributes);
      AnchorGroups("<a", spaces, "href=\"", target + "\"", attributes, t);
    case LooseAnchor(attributes, t) => TagOfAnchor(attributes);
  }

  lemma AnchorTagHasNo(c: char, spaces: string, target: string, attributes: string)
    requires c == '<' || c == '>' || c == '&'
    requires (forall x <- spaces :: Text.IsSpace(x)) && c !in target && c !in attributes
    ensures c !in "a" + spaces + "href=\"" + target + "\"" + attributes
  {
    assert c !in spaces by { assert !Text.IsSpace(c); }
  }

  lemma StyledTagHasNo(name: string)
    requires name in ["b", "strong", "i", "em"]
    ensures forall c <- name :: c != '<' && c != '>' && c != '&'
  {
  }

  lemma TagsAreTags(p: Part)
    requires IsPart(p) && !p.Words? && !p.Fence? && !p.OtherTag?
    ensures Opening(p) != "" && '>' !in Opening(p) && '<' !in Opening(p) && '<' !in p.text
    ensures Closing(p) != "" && '>' !in Closing(p) && '<' !in Closing(p)
  {
    hide HasSafeTarget, IsSafe, IsOther, Text.IsSpace;
    match p
    case CodeSpan(t) =>
    case Styled(name, t) => StyledTagHasNo(name);
    case SafeAnchor(spaces, target, attributes, t) =>
      AnchorTagHasNo('<', spaces, target, attributes);
      AnchorTagHasNo('>', spaces, target, attributes);
    case LooseAnchor(attributes, t) =>
  }

  lemma LaterTagsPass(p: Part, k: nat)
    requires IsPart(p) && !p.Words? && !p.Fence? && !p.OtherTag? && k < 7 && k < PassOf(p)
    requires !(k == 1 && p.CodeSpan?)
    ensures Passes(PassNo(k), Opening(p)) && Passes(PassNo(k), Closing(p))
  {
    assert Closing(p)[0] == '/';
    match p
    case CodeSpan(_) =>
    case Styled(name, _) => assert name in ["b", "strong", "i", "em"];
    case SafeAnchor(_, _, _, _) => assert Opening(p)[0] == 'a';
    case LooseAnchor(attributes, _) => assert Opening(p)[0] == 'a' && Opening(p)[1..] == attributes;
  }

  lemma LaterEmptyCode(p: Part, rest: string)
    requires p == CodeSpan("")
    ensures Rewrite(Code, Html(p) + rest) == Html(p) + Rewrite(Code, rest)
  {
    hide Rewrite;
    EmptyCodeStays(rest);
    FourParts(Tag("code"), "", Tag("/code"), rest);
    FourParts(Tag("code"), "", Tag("/code"), Rewrite(Code, rest));
    assert forall x: string :: "" + x == x;
    EnclosedText(p);
  }

  lemma LaterEnclosed(p: Part, k: nat, rest: string)
    requires IsPart(p) && !p.Words? && !p.Fence? && !p.OtherTag? && k < 7 && k < PassOf(p)
    ensures Rewrite(PassNo(k), Html(p) + rest) == Html(p) + Rewrite(PassNo(k), rest)
  {
    hide Rewrite, Tag, Html, Opening, Closing, Passes, IsPart;
    EnclosedText(p);
    TagsAreTags(p);
    if k == 1 && p.CodeSpan? {
      LaterEmptyCode(p, rest);
    } else {
      LaterTagsPass(p, k);
      TwoTagsStay(PassNo(k), Opening(p), p.text, Closing(p), rest);
    }
  }

  lemma OtherPasses(inner: string, k: nat)
    requires IsOther(inner) && k < 7
    ensures Passes(PassNo(k), inner)
  {
  }

  lemma OtherText(inner: string)
    ensures Html(OtherTag(inner)) == Tag(inner)
  {
  }

  lemma LaterPart(p: Part, k: nat, rest: string)
    requires IsPart(p) && k < 8 && k < PassOf(p)
    ensures Rewrite(PassNo(k), Html(p) + rest) == Html(p) + Rewrite(PassNo(k), rest)
  {
    hide Rewrite, Tag, Passes;
    match p
    case Words(t) => Copies(PassNo(k), t, rest);
    case OtherTag(inner) =>
      OtherPasses(inner, k);
      OtherText(inner);
      TagStays(PassNo(k), inner, rest);
    case CodeSpan(_) => LaterEnclosed(p, k, rest);
    case Styled(_, _) => LaterEnclosed(p, k, rest);
    case SafeAnchor(_, _, _, _) => LaterEnclosed(p, k, rest);
    case LooseAnchor(_, _) => LaterEnclosed(p, k, rest);
    case Fence(_, _) =>
  }

  lemma LastPass(p: Part, rest: string)
    requires IsPart(p) && PassOf(p) == 7
    ensures Rewrite(HtmlTag, Html(p) + rest) == Marked(p) + Rewrite(HtmlTag, rest)
  {
    hide Rewrite, Tag;
    if p.OtherTag? {
      OtherText(p.inner);
      TagGoes(p.inner, rest);
      assert "" + Rewrite(HtmlTag, rest) == Rewrite(HtmlTag, rest);
    } else {
      EnclosedText(p);
      TagsAreTags(p);
      TwoTagsGo(Opening(p), p.text, Closing(p), rest);
    }
  }

  lemma OwnPart(p: Part, rest: string)
    requires IsPart(p) && PassOf(p) < 8
    ensures Rewrite(PassNo(PassOf(p)), Html(p) + rest) == Marked(p) + Rewrite(PassNo(PassOf(p)), rest)
  {
    hide Rewrite;
    if PassOf(p) == 7 {
      LastPass(p, rest);
    } else {
      match p
      case Fence(attributes, body) => FenceForm(attributes, body, rest);
      case CodeSpan(t) => CodeForm(t, rest);
      case Styled(name, t) =>
        assert name in ["b", "strong", "i", "em"];
        ElementForm(name, if name == "b" || name == "strong" then "**" else "*", t, rest);
      case SafeAnchor(spaces, target, attributes, t) => AnchorForm(spaces, target, attributes, t, rest, Html(p));
      case Words(_) =>
      case LooseAnchor(_, _) =>
      case OtherTag(_) =>
    }
  }

  lemma PartStep(p: Part, k: nat, rest: string)
    requires IsPart(p) && k < 8
    ensures Rewrite(PassNo(k), PartText(p, k) + rest) == PartText(p, k + 1) + Rewrite(PassNo(k), rest)
  {
    hide Rewrite, Marked, Html, IsPart;
    if PassOf(p) < k {
      MarkedHasNoTag(p);
      Copies(PassNo(k), Marked(p), rest);
    } else if PassOf(p) == k {
      OwnPart(p, rest);
    } else {
      LaterPart(p, k, rest);
    }
  }

  lemma {:induction false} PassRenders(ps: seq<Part>, k: nat)
    requires IsHtml(ps) && k < 8
    ensures Rewrite(PassNo(k), Render(ps, k)) == Render(ps, k + 1)
  {
    if ps != [] {
      PassRenders(ps[1..], k);
      PartStep(ps[0], k, Render(ps[1..], k));
    }
  }

  // ---- All passes ----

  lemma NoAmpersandStays(s: string)
    requires '&' !in s
    ensures DecodeSafeEntities(s) == s
  {
    WithoutAmpersand(s, "&quot;");
    WithoutAmpersand(s, "&#39;");
    WithoutAmpersand(s, "&apos;");
    WithoutAmpersand(s, "&#");
    Text.ReplaceAbsent(s, "&quot;", "\"");
    Text.ReplaceAbsent(s, "&#39;", "'");
    Text.ReplaceAbsent(s, "&apos;", "'");
    NoEntityLeft(s, true);
    NoEntityLeft(s, false);
  }

  /** A document as it is written. */
  function Document(ps: seq<Part>): string { if ps == [] then "" else Html(ps[0]) + Document(ps[1..]) }

  /** Its parts in place, in markdown. */
  function Markdown(ps: seq<Part>): string { if ps == [] then "" else Marked(ps[0]) + Markdown(ps[1..]) }

  /** Its text alone. */
  function BareText(ps: seq<Part>): string { if ps == [] then "" else Bare(ps[0]) + BareText(ps[1..]) }

  lemma {:induction false} RenderEnds(ps: seq<Part>)
    requires IsHtml(ps)
    ensures Render(ps, 0) == Document(ps) && Render(ps, 8) == Markdown(ps)
  {
    if ps != [] {
      RenderEnds(ps[1..]);
      var p := ps[0];
      assert p in ps && (p.Words? ==> Html(p) == Marked(p));
    }
  }

  lemma AnchorHasNoAmpersand(spaces: string, target: string, attributes: string, t: string)
    requires (forall c <- spaces :: Text.IsSpace(c)) && '&' !in target && '&' !in attributes && '&' !in t
    ensures '&' !in "<a" + spaces + "href=\"" + target + "\"" + attributes + ">" + t + "</a>"
  {
    assert '&' !in spaces by { assert !Text.IsSpace('&'); }
  }

  lemma HtmlHasNoAmpersand(p: Part)
    requires IsPart(p)
    ensures '&' !in Html(p)
  {
    hide HasSafeTarget, IsSafe, IsOther, Text.IsSpace;
    match p
    case Words(t) =>
    case Fence(attributes, body) =>
    case CodeSpan(t) =>
    case Styled(name, t) => StyledTagHasNo(name);
    case SafeAnchor(spaces, target, attributes, t) => AnchorHasNoAmpersand(spaces, target, attributes, t);
    case LooseAnchor(attributes, t) =>
    case OtherTag(inner) =>
  }

  lemma {:induction false} DocumentHasNoAmpersand(ps: seq<Part>)
    requires IsHtml(ps)
    ensures '&' !in Document(ps)
  {
    if ps != [] {
      DocumentHasNoAmpersand(ps[1..]);
      HtmlHasNoAmpersand(ps[0]);
    }
  }

  lemma TagsPass(ps: seq<Part>)
    requires IsHtml(ps)
    ensures OnePass(TagsToMarkdown(Render(ps, 0))) == Render(ps, 8)
  {
    hide Rewrite, Render, IsHtml;
    PassRenders(ps, 0);
    PassRenders(ps, 1);
    PassRenders(ps, 2);
    PassRenders(ps, 3);
    PassRenders(ps, 4);
    PassRenders(ps, 5);
    PassRenders(ps, 6);
    PassRenders(ps, 7);
  }

  /** Lark and DingTalk: every part in place, in markdown. */
  lemma DocumentToMarkdown(ps: seq<Part>)
    requires IsHtml(ps)
    ensures HtmlToMarkdown(Document(ps)) == Markdown(ps)
  {
    RenderEnds(ps);
    DocumentHasNoAmpersand(ps);
    NoAmpersandStays(Document(ps));
    TagsPass(ps);
  }

  /** The same of a document some of whose characters, brackets included, are written as entities. */
  lemma EntityDocument(ts: seq<Token>, ps: seq<Part>)
    requires IsEntityText(ts) && IsHtml(ps) && Meaning(ts) == Document(ps)
    ensures HtmlToMarkdown(Source(ts)) == Markdown(ps)
  {
    EntitiesDecode(ts);
    DocumentHasNoAmpersand(ps);
    NoAmpersandStays(Document(ps));
    DocumentToMarkdown(ps);
  }

  // ---- WeChat ----

  lemma SixParts(a: string, b: string, c: string, d: string, e: string, f: string)
    ensures (a + b) + c + (d + e) + f == a + (b + (c + (d + (e + f))))
  {
  }

  lemma FenceTags(attributes: string)
    ensures "<pre><code" + attributes + ">" == Tag("pre") + Tag("code" + attributes)
    ensures "</code></pre>" == Tag("/code") + Tag("/pre")
  {
  }

  lemma FenceText(attributes: string, body: string, rest: string)
    ensures Html(Fence(attributes, body)) + rest
            == Tag("pre") + (Tag("code" + attributes) + (body + (Tag("/code") + (Tag("/pre") + rest))))
  {
    hide Tag;
    FenceTags(attributes);
    SixParts(Tag("pre"), Tag("code" + attributes), body, Tag("/code"), Tag("/pre"), rest);
  }

  lemma BareFence(attributes: string, body: string, rest: string)
    requires IsPart(Fence(attributes, body))
    ensures Rewrite(HtmlTag, Html(Fence(attributes, body)) + rest) == body + Rewrite(HtmlTag, rest)
  {
    hide Rewrite, Tag, Html;
    var end := Tag("/code") + (Tag("/pre") + rest);
    FenceText(attributes, body, rest);
    TagGoes("pre", Tag("code" + attributes) + (body + end));
    TagGoes("code" + attributes, body + end);
    Copies(HtmlTag, body, end);
    TagGoes("/code", Tag("/pre") + rest);
    TagGoes("/pre", rest);
  }

  lemma BareEnclosed(p: Part, rest: string)
    requires IsPart(p) && !p.Words? && !p.Fence? && !p.OtherTag?
    ensures Rewrite(HtmlTag, Html(p) + rest) == p.text + Rewrite(HtmlTag, rest)
  {
    hide Rewrite, Tag, Html, Opening, Closing, IsPart;
    EnclosedText(p);
    TagsAreTags(p);
    TwoTagsGo(Opening(p), p.text, Closing(p), rest);
  }

  lemma BarePart(p: Part, rest: string)
    requires IsPart(p)
    ensures Rewrite(HtmlTag, Html(p) + rest) == Bare(p) + Rewrite(HtmlTag, rest)
  {
    hide Rewrite, Tag;
    match p
    case Words(t) => Copies(HtmlTag, t, rest);
    case Fence(attributes, body) => BareFence(attributes, body, rest);
    case OtherTag(inner) =>
      LastPass(p, rest);
    case CodeSpan(_) => BareEnclosed(p, rest);
    case Styled(_, _) => BareEnclosed(p, rest);
    case SafeAnchor(_, _, _, _) => BareEnclosed(p, rest);
    case LooseAnchor(_, _) => BareEnclosed(p, rest);
  }

  lemma {:induction false} BareIsText(ps: seq<Part>)
    requires IsHtml(ps)
    ensures IsText(BareText(ps))
  {
    if ps != [] {
      BareIsText(ps[1..]);
      assert ps[0] in ps && IsText(Bare(ps[0]));
    }
  }

  lemma {:induction false} BareDocument(ps: seq<Part>)
    requires IsHtml(ps)
    ensures OnePass(Document(ps)) == BareText(ps)
  {
    hide Rewrite, Html, Bare, IsPart;
    if ps == [] {
      RewriteEmpty(HtmlTag);
    } else {
      BareDocument(ps[1..]);
      BarePart(ps[0], Document(ps[1..]));
    }
  }

  lemma {:induction false} NoBracketsStay(s: string)
    requires '<' !in s && '>' !in s
    ensures WithoutBrackets(s) == s
  {
    if s != "" { NoBracketsStay(s[1..]); }
  }

  /** WeChat: the text of every part in place, and nothing of the tags. */
  lemma DocumentToText(ps: seq<Part>)
    requires IsHtml(ps)
    ensures StripHtml(Document(ps)) == BareText(ps)
  {
    BareDocument(ps);
    BareIsText(ps);
    var s := BareText(ps);
    NoAmpersandStays(s);
    WithoutAmpersand(s, "&amp;");
    WithoutAmpersand(s, "&lt;");
    WithoutAmpersand(s, "&gt;");
    WithoutAmpersand(s, "&nbsp;");
    Text.ReplaceAbsent(s, "&amp;", "&");
    Text.ReplaceAbsent(s, "&lt;", "<");
    Text.ReplaceAbsent(s, "&gt;", ">");
    Text.ReplaceAbsent(s, "&nbsp;", " ");
    NoBracketsStay(s);
  }
}
