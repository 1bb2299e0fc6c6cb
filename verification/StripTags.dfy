/** Removing HTML tags: the loop to a fixpoint, and the platform texts that end with it. */
module StripTags {
  import Text
  import opened Patterns
  import opened HtmlEntities

  predicate HasTag(s: string) {
    s != "" && (TagLength(s) > 0 || HasTag(s[1..]))
  }

  function OnePass(s: string): string { Rewrite(HtmlTag, s) }

  lemma {:induction false} PassKeepsNoClose(s: string)
    requires '>' !in s
    ensures OnePass(s) == s
  {
    if s != "" {
      PassKeepsNoClose(s[1..]);
      assert s == [s[0]] + s[1..];
    }
  }

  lemma KeptCharacterStartsNoTag(s: string)
    requires s != "" && TagLength(s) == 0
    ensures TagLength([s[0]] + OnePass(s[1..])) == 0
  {
    var rest := OnePass(s[1..]);
    assert ([s[0]] + rest)[1..] == rest;
    if s[0] == '<' && |s| > 1 {
      if s[1] == '>' {
        assert s[1..][0] == '>';
        assert rest[0] == '>';
      } else {
        assert s[1..][0] == s[1];
        assert s[1..][..|s| - 1] == s[1..];
        PassKeepsNoClose(s[1..]);
        assert rest == s[1..];
        assert [s[0]] + rest == s;
      }
    }
  }

  /**
   One pass leaves no tag behind, however tags were nested: a `<` stays only if a `>` follows it
   at once, and that one stays too, or if no `>` follows it at all.
   */
  lemma {:induction false} OnePassIsEnough(s: string)
    ensures !HasTag(OnePass(s))
    decreases |s|
  {
    if s != "" {
      var n := TagLength(s);
      if n > 0 {
        OnePassIsEnough(s[n..]);
        assert OnePass(s) == OnePass(s[n..]);
      } else {
        OnePassIsEnough(s[1..]);
        KeptCharacterStartsNoTag(s);
        assert ([s[0]] + OnePass(s[1..]))[1..] == OnePass(s[1..]);
      }
    }
  }

  /** A pass changes the text exactly when there is a tag. */
  lemma {:induction false} PassChangesIff(s: string)
    ensures HasTag(s) <==> OnePass(s) != s
    ensures |OnePass(s)| <= |s| && (HasTag(s) ==> |OnePass(s)| < |s|)
    decreases |s|
  {
    if s != "" {
      var n := TagLength(s);
      if n > 0 {
        PassChangesIff(s[n..]);
      } else {
        PassChangesIff(s[1..]);
        assert s == [s[0]] + s[1..];
      }
    }
  }

  /** The loop of the source, counting the passes that changed the text. */
  method StripTagsLoop(text: string) returns (result: string, ghost changes: nat)
    ensures result == OnePass(text) && !HasTag(result)
    ensures changes == if HasTag(text) then 1 else 0
  {
    result, changes := text, 0;
    OnePassIsEnough(text);
    PassChangesIff(text);
    PassChangesIff(OnePass(text));
    while true
      invariant changes == 0 ==> result == text
      invariant changes > 0 ==> changes == 1 && HasTag(text) && result == OnePass(text)
      decreases |result|
    {
      var stripped := Rewrite(HtmlTag, result);
      if stripped == result {
        break;
      }
      result, changes := stripped, changes + 1;
    }
  }

  function TagsToMarkdown(text: string): string {
    var s := Rewrite(Code, Rewrite(PreCode, text));
    var s := Rewrite(Element("strong", "**"), Rewrite(Element("b", "**"), s));
    var s := Rewrite(Element("em", "*"), Rewrite(Element("i", "*"), s));
    Rewrite(SafeLink, s)
  }

  /** Lark and DingTalk: safe entities, then tags to markdown, then no tags at all. */
  function HtmlToMarkdown(text: string): string {
    OnePass(TagsToMarkdown(DecodeSafeEntities(text)))
  }

  /** No tag survives, not even one spelled with numeric entities or put together by a rewrite. */
  lemma MarkdownHasNoTag(text: string)
    ensures !HasTag(HtmlToMarkdown(text))
  {
    OnePassIsEnough(TagsToMarkdown(DecodeSafeEntities(text)));
  }

  function WithoutBrackets(s: string): string {
    if s == "" then ""
    else if s[0] == '<' || s[0] == '>' then WithoutBrackets(s[1..])
    else [s[0]] + WithoutBrackets(s[1..])
  }

  /** WeChat. */
  function StripHtml(text: string): string {
    WithoutBrackets(DecodeAllEntities(OnePass(text)))
  }

  lemma {:induction false} NoBracketsLeft(s: string)
    ensures '<' !in WithoutBrackets(s) && '>' !in WithoutBrackets(s)
  {
    if s != "" { NoBracketsLeft(s[1..]); }
  }

  lemma StripHtmlHasNoBracket(text: string)
    ensures '<' !in StripHtml(text) && '>' !in StripHtml(text)
  {
    NoBracketsLeft(DecodeAllEntities(OnePass(text)));
  }

  /** Escaped text that spells no entity reaches WeChat as it was, but for its angle brackets. */
  lemma StripHtmlOfEscaped(s: string)
    requires !Text.Has(s, "&lt;") && !Text.Has(s, "&gt;") && !Text.Has(s, "&nbsp;")
    ensures StripHtml(EscapeHtml(s)) == WithoutBrackets(s)
  {
    EscapeIsSimultaneous(s);
    NoBracketInEscape(s);
    PassKeepsNoClose(EscapeHtml(s));
    DecodeRestoresIff(s);
  }
}
