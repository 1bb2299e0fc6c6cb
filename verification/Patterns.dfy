/**
 The patterns of the message formatter, as matchers of the text that starts at a position, and
 the leftmost-first replacement of all their matches.
 */
module Patterns {
  import opened Wrappers
  import opened Text

  datatype Pattern =
    | HtmlTag                            // <[^>]+>
    | Entity(hex: bool)                  // &#x([0-9a-fA-F]+);  and  &#(\d+);
    | CodeBlock(isWord: char -> bool)    // ```(?:\w*)\n?([\s\S]*?)```
    | InlineCode                         // `([^`]+)`
    | Bold(mark: string)                 // \*\*(.+?)\*\*  and  __(.+?)__
    | Italic(mark: string)               // \*(.+?)\*  and  _(.+?)_
    | Link                               // \[([^\]]+)\]\(([^)]+)\)
    | PreCode                            // <pre><code[^>]*>([\s\S]*?)</code></pre>
    | Code                               // <code>([^<]+)</code>
    | Element(name: string, mark: string) // <b>([\s\S]*?)</b>  and  strong, i, em
    | SafeLink                           // <a\s+href="((?:https?://|mailto:|/)[^"]*)"[^>]*>([^<]*)</a>

  /** A match at the start of a text: how much it covers, and what replaces it. */
  datatype Match = Match(length: nat, replacement: string)

  predicate Fits(m: Option<Match>, s: string) { m.Some? ==> 0 < m.value.length <= |s| }

  /** The length of a tag at the start of the text, or 0. */
  function TagLength(s: string): (n: nat)
    ensures n <= |s|
  {
    if s == "" || s[0] != '<' then 0
    else
      var end := Find(s[1..], '>');
      if 1 <= end < |s| - 1 then end + 2 else 0
  }

  predicate IsHex(c: char) { '0' <= c <= '9' || 'a' <= c <= 'f' || 'A' <= c <= 'F' }

  function DigitValue(c: char): nat
    requires IsHex(c)
  {
    if c <= '9' then c as nat - '0' as nat
    else if c <= 'F' then c as nat - 'A' as nat + 10
    else c as nat - 'a' as nat + 10
  }

  /** How many digits the text starts with. */
  function DigitRun(s: string, hex: bool): (n: nat)
    ensures n <= |s| && forall i :: 0 <= i < n ==> IsHex(s[i])
  {
    if s != "" && IsHex(s[0]) && (hex || s[0] <= '9') then 1 + DigitRun(s[1..], hex) else 0
  }

  function Value(digits: string, base: nat): nat
    requires forall c <- digits :: IsHex(c)
  {
    if digits == "" then 0 else Value(digits[..|digits| - 1], base) * base + DigitValue(digits[|digits| - 1])
  }

  /** A numeric entity; one that names no character is replaced by itself. */
  function EntityAt(s: string, hex: bool): (m: Option<Match>)
    ensures Fits(m, s)
  {
    var prefix := if hex then "&#x" else "&#";
    if !(prefix <= s) then None
    else
      var n := DigitRun(s[|prefix|..], hex);
      var end := |prefix| + n;
      if n == 0 || end >= |s| || s[end] != ';' then None
      else
        var v := Value(s[|prefix|..][..n], if hex then 16 else 10);
        var isCharacter := v < 0xD800 || 0xE000 <= v < 0x11_0000;
        Some(Match(end + 1, if isCharacter then [v as char] else s[..end + 1]))
  }

  function WordRun(s: string, isWord: char -> bool): (n: nat)
    ensures n <= |s|
  {
    if s != "" && isWord(s[0]) then 1 + WordRun(s[1..], isWord) else 0
  }

  /** The first occurrence of `mark` from `j` on, past characters that may stand inside. */
  function FindMark(s: string, mark: string, j: nat, inside: char -> bool): (r: Option<nat>)
    requires j <= |s|
    ensures r.Some? ==> j <= r.value && r.value + |mark| <= |s| && s[r.value..r.value + |mark|] == mark
    decreases |s| - j
  {
    if j + |mark| > |s| then None
    else if s[j..j + |mark|] == mark then Some(j)
    else if j < |s| && inside(s[j]) then FindMark(s, mark, j + 1, inside)
    else None
  }

  predicate AnyChar(c: char) { true }

  predicate NotNewline(c: char) { c != '\n' }

  predicate NotBacktick(c: char) { c != '`' }

  const FENCE := "```"

  function CodeBlockAt(s: string, isWord: char -> bool): (m: Option<Match>)
    ensures Fits(m, s)
  {
    if !(FENCE <= s) then None
    else
      var p := 3 + WordRun(s[3..], isWord);
      var q := if p < |s| && s[p] == '\n' then p + 1 else p;
      var end := FindMark(s, FENCE, q, AnyChar);
      if end.None? then None
      else Some(Match(end.value + 3, "<pre><code>" + s[q..end.value] + "</code></pre>"))
  }

  /** Text between two marks, at least one character, none of them excluded. */
  function MarkedAt(s: string, mark: string, inside: char -> bool, before: string, after: string): (m: Option<Match>)
    ensures Fits(m, s)
  {
    if mark == "" || !(mark <= s) || |s| == |mark| || !inside(s[|mark|]) then None
    else
      var end := FindMark(s, mark, |mark| + 1, inside);
      if end.None? then None
      else Some(Match(end.value + |mark|, before + s[|mark|..end.value] + after))
  }

  function LinkAt(s: string): (m: Option<Match>)
    ensures Fits(m, s)
  {
    if s == "" || s[0] != '[' then None
    else
      var j := 1 + Find(s[1..], ']');
      if j < 2 || j + 1 >= |s| || s[j + 1] != '(' then None
      else
        var k := j + 2 + Find(s[j + 2..], ')');
        if k < j + 3 || k >= |s| then None
        else Some(Match(k + 1, "<a href=\"" + s[j + 2..k] + "\">" + s[1..j] + "</a>"))
  }

  function PreCodeAt(s: string): (m: Option<Match>)
    ensures Fits(m, s)
  {
    var open := "<pre><code";
    if !(open <= s) then None
    else
      var p := |open| + Find(s[|open|..], '>') + 1;
      if p > |s| then None
      else
        var end := FindMark(s, "</code></pre>", p, AnyChar);
        if end.None? then None
        else Some(Match(end.value + 13, "```\n" + s[p..end.value] + "```"))
  }

  function CodeAt(s: string): (m: Option<Match>)
    ensures Fits(m, s)
  {
    if !("<code>" <= s) then None
    else
      var end := 6 + Find(s[6..], '<');
      if end == 6 || !("</code>" <= s[end..]) then None
      else Some(Match(end + 7, "`" + s[6..end] + "`"))
  }

  function ElementAt(s: string, name: string, mark: string): (m: Option<Match>)
    ensures Fits(m, s)
  {
    var open, close := "<" + name + ">", "</" + name + ">";
    if !(open <= s) then None
    else
      var end := FindMark(s, close, |open|, AnyChar);
      if end.None? then None
      else Some(Match(end.value + |close|, mark + s[|open|..end.value] + mark))
  }

  predicate IsSafeTarget(url: string) {
    "http://" <= url || "https://" <= url || "mailto:" <= url || "/" <= url
  }

  /** What a link is made of, and how much of the text it covers. */
  datatype Anchor = Anchor(target: string, text: string, length: nat)

  /** From the end of the target on. */
  function AnchorText(s: string, target: string): (r: Option<Anchor>)
    ensures r.Some? ==> r.value.length <= |s|
  {
    var d := Find(s, '>');
    if d == |s| then None
    else
      var text := s[d + 1..];
      var e := Find(text, '<');
      if !("</a>" <= text[e..]) then None else Some(Anchor(target, text[..e], d + e + 5))
  }

  /** The same with so many characters before it. */
  function Longer(r: Option<Anchor>, n: nat): Option<Anchor> {
    if r.None? then None else Some(r.value.(length := n + r.value.length))
  }

  /** From the target on. */
  function AnchorTarget(s: string): (r: Option<Anchor>)
    ensures r.Some? ==> r.value.length <= |s|
  {
    var c := Find(s, '"');
    if c == |s| || !IsSafeTarget(s[..c]) then None else Longer(AnchorText(s[c + 1..], s[..c]), c + 1)
  }

  function AnchorAt(s: string): (r: Option<Anchor>)
    ensures r.Some? ==> 0 < r.value.length <= |s|
  {
    if !("<a" <= s) then None
    else
      var spaces := WordRun(s[2..], IsSpace);
      if spaces == 0 || !("href=\"" <= s[2 + spaces..]) then None else Longer(AnchorTarget(s[spaces + 8..]), spaces + 8)
  }

  function SafeLinkAt(s: string): (m: Option<Match>)
    ensures Fits(m, s)
  {
    var r := AnchorAt(s);
    if r.None? then None else Some(Match(r.value.length, "[" + r.value.text + "](" + r.value.target + ")"))
  }

  /** The match at the start of the text, if there is one. */
  function MatchAt(p: Pattern, s: string): (m: Option<Match>)
    ensures Fits(m, s)
  {
    match p
    case HtmlTag => if TagLength(s) > 0 then Some(Match(TagLength(s), "")) else None
    case Entity(hex) => EntityAt(s, hex)
    case CodeBlock(isWord) => CodeBlockAt(s, isWord)
    case InlineCode => MarkedAt(s, "`", NotBacktick, "<code>", "</code>")
    case Bold(mark) => MarkedAt(s, mark, NotNewline, "<b>", "</b>")
    case Italic(mark) => MarkedAt(s, mark, NotNewline, "<i>", "</i>")
    case Link => LinkAt(s)
    case PreCode => PreCodeAt(s)
    case Code => CodeAt(s)
    case Element(name, mark) => ElementAt(s, name, mark)
    case SafeLink => SafeLinkAt(s)
  }

  /** Replaces every match, leftmost first and without overlap. */
  function Rewrite(p: Pattern, s: string): string
    decreases |s|
  {
    if s == "" then ""
    else
      match MatchAt(p, s)
      case Some(m) => m.replacement + Rewrite(p, s[m.length..])
      case None => [s[0]] + Rewrite(p, s[1..])
  }
}
