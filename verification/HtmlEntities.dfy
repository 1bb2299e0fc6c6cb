/** Escaping text for HTML, and decoding HTML entities. */
module HtmlEntities {
  import opened Text
  import Patterns

  // ---- Escaping ----

  function ReplaceChar(s: string, c: char, r: string): string {
    if s == "" then "" else (if s[0] == c then r else [s[0]]) + ReplaceChar(s[1..], c, r)
  }

  function EscapeHtml(s: string): string {
    ReplaceChar(ReplaceChar(ReplaceChar(s, '&', "&amp;"), '<', "&lt;"), '>', "&gt;")
  }

  function Name(c: char): string {
    match c
    case '&' => "&amp;"
    case '<' => "&lt;"
    case '>' => "&gt;"
    case _ => [c]
  }

  /** Every character of `cs` replaced by its entity, all at once. */
  function EscapeOnly(s: string, cs: set<char>): string {
    if s == "" then "" else (if s[0] in cs then Name(s[0]) else [s[0]]) + EscapeOnly(s[1..], cs)
  }

  const SPECIAL: set<char> := {'&', '<', '>'}

  lemma {:induction false} ReplaceCharSplits(a: string, b: string, c: char, r: string)
    ensures ReplaceChar(a + b, c, r) == ReplaceChar(a, c, r) + ReplaceChar(b, c, r)
  {
    if a == "" {
      assert a + b == b;
    } else {
      ReplaceCharSplits(a[1..], b, c, r);
      assert (a + b)[1..] == a[1..] + b && (a + b)[0] == a[0];
      var head := if a[0] == c then r else [a[0]];
      assert head + (ReplaceChar(a[1..], c, r) + ReplaceChar(b, c, r))
             == (head + ReplaceChar(a[1..], c, r)) + ReplaceChar(b, c, r);
    }
  }

  lemma {:induction false} Plain(s: string, c: char, r: string)
    requires c !in s
    ensures ReplaceChar(s, c, r) == s
  {
    if s != "" { Plain(s[1..], c, r); }
  }

  lemma EscapeOne(c: char, head: string)
    requires head == if c == '&' then "&amp;" else [c]
    ensures ReplaceChar(ReplaceChar(head, '<', "&lt;"), '>', "&gt;") == if c in SPECIAL then Name(c) else [c]
  {
    if c == '&' {
      Plain("&amp;", '<', "&lt;");
      Plain("&amp;", '>', "&gt;");
    } else if c == '<' {
      assert ReplaceChar([c], '<', "&lt;") == "&lt;";
      Plain("&lt;", '>', "&gt;");
    }
  }

  /** No replacement touches what an earlier one put in: together they are one map over characters. */
  lemma {:induction false} EscapeIsSimultaneous(s: string)
    ensures EscapeHtml(s) == EscapeOnly(s, SPECIAL)
  {
    if s != "" {
      EscapeIsSimultaneous(s[1..]);
      var head, rest := (if s[0] == '&' then "&amp;" else [s[0]]), ReplaceChar(s[1..], '&', "&amp;");
      ReplaceCharSplits(head, rest, '<', "&lt;");
      ReplaceCharSplits(ReplaceChar(head, '<', "&lt;"), ReplaceChar(rest, '<', "&lt;"), '>', "&gt;");
      EscapeOne(s[0], head);
    }
  }

  lemma {:induction false} NoBracketInEscape(s: string)
    ensures '<' !in EscapeOnly(s, SPECIAL) && '>' !in EscapeOnly(s, SPECIAL)
  {
    if s != "" { NoBracketInEscape(s[1..]); }
  }

  /** Escaping adds no character but those of the entities. */
  lemma {:induction false} EscapeAddsNot(s: string, c: char)
    requires c !in s && c !in "&amp;" && c !in "&lt;" && c !in "&gt;"
    ensures c !in EscapeOnly(s, SPECIAL)
  {
    if s != "" { EscapeAddsNot(s[1..], c); }
  }

  /** Reads escaped text back in one pass. */
  function Unescape(s: string): string
    decreases |s|
  {
    if s == "" then ""
    else if "&amp;" <= s then "&" + Unescape(s[5..])
    else if "&lt;" <= s then "<" + Unescape(s[4..])
    else if "&gt;" <= s then ">" + Unescape(s[4..])
    else [s[0]] + Unescape(s[1..])
  }

  lemma UnescapeOne(c: char, rest: string)
    ensures Unescape((if c in SPECIAL then Name(c) else [c]) + rest) == [c] + Unescape(rest)
  {
  }

  lemma {:induction false} UnescapeInverts(s: string)
    ensures Unescape(EscapeHtml(s)) == s
  {
    EscapeIsSimultaneous(s);
    if s != "" {
      UnescapeInverts(s[1..]);
      EscapeIsSimultaneous(s[1..]);
      UnescapeOne(s[0], EscapeOnly(s[1..], SPECIAL));
      assert s == [s[0]] + s[1..];
    }
  }

  /** Different texts have different escapes. */
  lemma EscapeIsInjective(s: string, t: string)
    requires EscapeHtml(s) == EscapeHtml(t)
    ensures s == t
  {
    UnescapeInverts(s);
    UnescapeInverts(t);
  }

  // ---- Decoding ----

  function DecodeSafeEntities(s: string): string {
    var quotes := ReplaceAll(ReplaceAll(ReplaceAll(s, "&quot;", "\""), "&#39;", "'"), "&apos;", "'");
    Patterns.Rewrite(Patterns.Entity(false), Patterns.Rewrite(Patterns.Entity(true), quotes))
  }

  function DecodeAllEntities(s: string): string {
    ReplaceAll(ReplaceAll(ReplaceAll(ReplaceAll(DecodeSafeEntities(s), "&amp;", "&"), "&lt;", "<"), "&gt;", ">"),
               "&nbsp;", " ")
  }

  // ---- Decoding what was escaped ----

  /** Every ampersand starts one of the three escapes. */
  predicate OnlyEscapes(s: string) {
    s == "" || ((s[0] == '&' ==> "&amp;" <= s || "&lt;" <= s || "&gt;" <= s) && OnlyEscapes(s[1..]))
  }

  lemma {:induction false} NoAmpersandFirst(a: string, b: string)
    requires OnlyEscapes(b) && '&' !in a
    ensures OnlyEscapes(a + b)
  {
    if a == "" {
      assert a + b == b;
    } else {
      NoAmpersandFirst(a[1..], b);
      assert (a + b)[1..] == a[1..] + b;
    }
  }

  lemma OneEscape(name: string, rest: string)
    requires (name == "&amp;" || name == "&lt;" || name == "&gt;") && OnlyEscapes(rest)
    ensures OnlyEscapes(name + rest)
  {
    NoAmpersandFirst(name[1..], rest);
    assert (name + rest)[1..] == name[1..] + rest;
    assert name <= name + rest;
  }

  lemma {:induction false} EscapedHasOnlyEscapes(s: string)
    ensures OnlyEscapes(EscapeOnly(s, SPECIAL))
  {
    if s != "" {
      EscapedHasOnlyEscapes(s[1..]);
      if s[0] in SPECIAL {
        OneEscape(Name(s[0]), EscapeOnly(s[1..], SPECIAL));
      } else {
        NoAmpersandFirst([s[0]], EscapeOnly(s[1..], SPECIAL));
      }
    }
  }

  lemma {:induction false} SpellsNothingElse(s: string, p: string)
    requires OnlyEscapes(s) && |p| >= 2 && p[0] == '&'
    requires p[1] == 'q' || p[1] == '#' || (|p| >= 3 && p[1] == 'a' && p[2] == 'p')
    ensures !Has(s, p)
  {
    if s != "" {
      SpellsNothingElse(s[1..], p);
    }
  }

  lemma NoEntityAt(s: string, hex: bool)
    requires !Has(s, "&#")
    ensures Patterns.EntityAt(s, hex).None?
  {
  }

  lemma {:induction false} NoEntityLeft(s: string, hex: bool)
    requires !Has(s, "&#")
    ensures Patterns.Rewrite(Patterns.Entity(hex), s) == s
  {
    if s != "" {
      NoEntityAt(s, hex);
      assert |s| >= 2 ==> Has(s, "&#") == ("&#" <= s || Has(s[1..], "&#"));
      NoEntityLeft(s[1..], hex);
      assert s == [s[0]] + s[1..];
    }
  }

  /** No occurrence of `p` starts at this character, whatever comes after `a`. */
  predicate NoStart(a: string, i: nat, p: string)
    requires i < |a| && |p| >= 2
  {
    a[i] != p[0] || (i + 1 < |a| && a[i + 1] != p[1])
  }

  lemma PrefixHeads(p: string, s: string)
    requires |p| >= 2
    ensures p <= s ==> p[0] == s[0] && p[1] == s[1]
  {
  }

  lemma {:induction false} StepOver(a: string, b: string, p: string, r: string)
    requires |p| >= 2 && forall i: nat | i < |a| :: NoStart(a, i, p)
    ensures ReplaceAll(a + b, p, r) == a + ReplaceAll(b, p, r)
  {
    if a == "" {
      assert a + b == b;
    } else {
      assert NoStart(a, 0, p);
      assert (a + b)[0] == a[0] && (|a| > 1 ==> (a + b)[1] == a[1]);
      PrefixHeads(p, a + b);
      ReplaceStep(a + b, p, r);
      assert (a + b)[1..] == a[1..] + b;
      forall i: nat | i < |a[1..]| ensures NoStart(a[1..], i, p) { assert NoStart(a, i + 1, p); }
      StepOver(a[1..], b, p, r);
    }
  }

  lemma {:induction false} UndoAmpersands(s: string)
    ensures ReplaceAll(EscapeOnly(s, SPECIAL), "&amp;", "&") == EscapeOnly(s, SPECIAL - {'&'})
  {
    if s != "" {
      UndoAmpersands(s[1..]);
      var rest := EscapeOnly(s[1..], SPECIAL);
      if s[0] == '&' {
        ReplaceMatch("&amp;", "&", rest);
      } else {
        StepOver(if s[0] in SPECIAL then Name(s[0]) else [s[0]], rest, "&amp;", "&");
      }
    }
  }

  lemma {:induction false} PlainPrefix(s: string, cs: set<char>, p: string)
    requires cs <= {'<', '>'} && forall c <- p :: c != '&' && c !in cs
    ensures p <= EscapeOnly(s, cs) <==> p <= s
  {
    var e := EscapeOnly(s, cs);
    if p != "" && s != "" {
      assert p[0] in p && (p <= e ==> p[0] == e[0]) && (p <= s ==> p[0] == s[0]);
      if s[0] !in cs {
        assert forall c <- p[1..] :: c in p;
        PlainPrefix(s[1..], cs, p[1..]);
        assert p <= s <==> p[0] == s[0] && p[1..] <= s[1..];
        assert e[1..] == EscapeOnly(s[1..], cs);
        assert p <= e <==> p[0] == e[0] && p[1..] <= e[1..];
      }
    }
  }

  lemma UndoAtAmpersand(s: string, cs: set<char>, p: string, r: string)
    requires cs <= {'<', '>'} && s != "" && s[0] == '&' && (p == "&lt;" || p == "&gt;") && !(p <= s)
    ensures ReplaceAll(EscapeOnly(s, cs), p, r) == "&" + ReplaceAll(EscapeOnly(s[1..], cs), p, r)
  {
    var e := EscapeOnly(s, cs);
    PlainPrefix(s[1..], cs, p[1..]);
    assert p <= s <==> p[1..] <= s[1..];
    assert e[1..] == EscapeOnly(s[1..], cs);
    assert p <= e <==> p[1..] <= e[1..];
    ReplaceStep(e, p, r);
  }

  lemma {:induction false} KeepsPlain(a: string, rest: string, cs: set<char>)
    requires forall c <- a :: c !in cs
    ensures EscapeOnly(a + rest, cs) == a + EscapeOnly(rest, cs)
  {
    if a == "" {
      assert a + rest == rest;
    } else {
      KeepsPlain(a[1..], rest, cs);
      assert (a + rest)[1..] == a[1..] + rest;
    }
  }

  /**
   Decoding one entity of partly escaped text decodes it in the text itself too, and leaves the
   other escapes alone.
   */
  lemma {:induction false} UndoOne(s: string, cs: set<char>, c: char)
    requires c in cs && cs <= {'<', '>'}
    ensures ReplaceAll(EscapeOnly(s, cs), Name(c), [c]) == EscapeOnly(ReplaceAll(s, Name(c), [c]), cs - {c})
    decreases |s|
  {
    var p := Name(c);
    if s == "" {
    } else if p <= s {
      var rest := s[4..];
      UndoOne(rest, cs, c);
      assert s == p + rest;
      KeepsPlain(p, rest, cs);
      ReplaceMatch(p, [c], EscapeOnly(rest, cs));
    } else {
      UndoOne(s[1..], cs, c);
      ReplaceStep(s, p, [c]);
      var rest := EscapeOnly(s[1..], cs);
      if s[0] == c {
        ReplaceMatch(p, [c], rest);
      } else if s[0] == '&' {
        UndoAtAmpersand(s, cs, p, [c]);
      } else {
        StepOver(if s[0] in cs then Name(s[0]) else [s[0]], rest, p, [c]);
      }
    }
  }

  lemma {:induction false} EscapeNothing(s: string)
    ensures EscapeOnly(s, {}) == s
  {
    if s != "" {
      EscapeNothing(s[1..]);
      assert s == [s[0]] + s[1..];
    }
  }

  lemma SafeDecodingOfEscape(s: string)
    ensures DecodeSafeEntities(EscapeHtml(s)) == EscapeOnly(s, SPECIAL)
  {
    EscapeIsSimultaneous(s);
    var e := EscapeOnly(s, SPECIAL);
    EscapedHasOnlyEscapes(s);
    SpellsNothingElse(e, "&quot;");
    SpellsNothingElse(e, "&#39;");
    SpellsNothingElse(e, "&apos;");
    SpellsNothingElse(e, "&#");
    NoEntityLeft(e, true);
    NoEntityLeft(e, false);
    ReplaceAbsent(e, "&quot;", "\"");
    ReplaceAbsent(e, "&#39;", "'");
    ReplaceAbsent(e, "&apos;", "'");
  }

  lemma UndoBrackets(s: string)
    ensures ReplaceAll(ReplaceAll(EscapeOnly(s, {'<', '>'}), "&lt;", "<"), "&gt;", ">")
            == ReplaceAll(ReplaceAll(s, "&lt;", "<"), "&gt;", ">")
  {
    UndoOne(s, {'<', '>'}, '<');
    assert {'<', '>'} - {'<'} == {'>'} && {'>'} - {'>'} == {};
    var u := ReplaceAll(s, "&lt;", "<");
    UndoOne(u, {'>'}, '>');
    EscapeNothing(ReplaceAll(u, "&gt;", ">"));
  }

  /** Decoding escaped text is decoding the three remaining entities in the text itself. */
  lemma DecodeOfEscape(s: string)
    ensures DecodeAllEntities(EscapeHtml(s))
            == ReplaceAll(ReplaceAll(ReplaceAll(s, "&lt;", "<"), "&gt;", ">"), "&nbsp;", " ")
  {
    SafeDecodingOfEscape(s);
    UndoAmpersands(s);
    assert SPECIAL - {'&'} == {'<', '>'};
    UndoBrackets(s);
  }

  /**
   Decoding brings escaped text back exactly when the text itself contains none of the three
   entities that the last replacements look for, as no text without an ampersand does.
   */
  lemma DecodeRestoresIff(s: string)
    ensures DecodeAllEntities(EscapeHtml(s)) == s <==> !Has(s, "&lt;") && !Has(s, "&gt;") && !Has(s, "&nbsp;")
  {
    DecodeOfEscape(s);
    var u := ReplaceAll(s, "&lt;", "<");
    var v := ReplaceAll(u, "&gt;", ">");
    ReplaceShortens(s, "&lt;", "<");
    ReplaceShortens(u, "&gt;", ">");
    ReplaceShortens(v, "&nbsp;", " ");
    if !Has(s, "&lt;") {
      ReplaceAbsent(s, "&lt;", "<");
      if !Has(s, "&gt;") {
        ReplaceAbsent(s, "&gt;", ">");
        if !Has(s, "&nbsp;") { ReplaceAbsent(s, "&nbsp;", " "); }
      }
    }
  }

  lemma {:induction false} WithoutAmpersand(s: string, p: string)
    requires '&' !in s && p != "" && p[0] == '&'
    ensures !Has(s, p)
  {
    if s != "" { WithoutAmpersand(s[1..], p); }
  }

  /** Both decoding stages together undo the escape of any text without an ampersand. */
  lemma DecodeRestoresPlainText(s: string)
    requires '&' !in s
    ensures DecodeAllEntities(EscapeHtml(s)) == s
  {
    WithoutAmpersand(s, "&lt;");
    WithoutAmpersand(s, "&gt;");
    WithoutAmpersand(s, "&nbsp;");
    DecodeRestoresIff(s);
  }
}
