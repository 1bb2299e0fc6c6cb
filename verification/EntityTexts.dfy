/** Text with quote entities and numeric entities, and what the safe decoding makes of it. */
module EntityTexts {
  import opened Wrappers
  import opened Patterns
  import opened HtmlEntities
  import TelegramForms
  import Text

  datatype Token =
    | Plain(text: string)
    | Quote
    | Apostrophe
    | Decimal(digits: string)
    | Hexadecimal(digits: string)

  predicate IsToken(t: Token) {
    match t
    case Plain(s) => '&' !in s
    case Quote => true
    case Apostrophe => true
    case Decimal(ds) => ds != "" && forall c <- ds :: '0' <= c <= '9'
    case Hexadecimal(ds) => ds != "" && forall c <- ds :: '0' <= c <= '9' || 'a' <= c <= 'f' || 'A' <= c <= 'F'
  }

  function Written(t: Token): string {
    match t
    case Plain(s) => s
    case Quote => "&quot;"
    case Apostrophe => "&apos;"
    case Decimal(ds) => "&#" + ds + ";"
    case Hexadecimal(ds) => "&#x" + ds + ";"
  }

  function Digit(c: char): nat
    requires IsHex(c)
  {
    match c
    case '0' => 0
    case '1' => 1
    case '2' => 2
    case '3' => 3
    case '4' => 4
    case '5' => 5
    case '6' => 6
    case '7' => 7
    case '8' => 8
    case '9' => 9
    case 'a' | 'A' => 10
    case 'b' | 'B' => 11
    case 'c' | 'C' => 12
    case 'd' | 'D' => 13
    case 'e' | 'E' => 14
    case _ => 15
  }

  /** A numeral read from the left. */
  function Number(acc: nat, digits: string, base: nat): nat
    requires forall c <- digits :: IsHex(c)
    decreases |digits|
  {
    if digits == "" then acc else Number(acc * base + Digit(digits[0]), digits[1..], base)
  }

  predicate IsScalar(n: nat) { n < 0xD800 || 0xE000 <= n <= 0x10_FFFF }

  /** The character that an entity names; one that names none stays as it is. */
  function Decoded(t: Token): string
    requires IsToken(t)
  {
    match t
    case Plain(s) => s
    case Quote => "\""
    case Apostrophe => "'"
    case Decimal(ds) => var n := Number(0, ds, 10); if IsScalar(n) then [n as char] else Written(t)
    case Hexadecimal(ds) => var n := Number(0, ds, 16); if IsScalar(n) then [n as char] else Written(t)
  }

  // ---- Numerals ----

  lemma DigitIsValue(c: char)
    requires IsHex(c)
    ensures Digit(c) == DigitValue(c)
  {
  }

  lemma {:induction false} NumberSnoc(acc: nat, digits: string, c: char, base: nat)
    requires IsHex(c) && forall d <- digits :: IsHex(d)
    ensures Number(acc, digits + [c], base) == Number(acc, digits, base) * base + Digit(c)
    decreases |digits|
  {
    if digits == "" {
      assert digits + [c] == [c];
      assert Number(acc, [c], base) == Number(acc * base + Digit(c), [c][1..], base);
    } else {
      assert (digits + [c])[0] == digits[0] && (digits + [c])[1..] == digits[1..] + [c];
      NumberSnoc(acc * base + Digit(digits[0]), digits[1..], c, base);
    }
  }

  lemma {:induction false} NumberIsValue(digits: string, base: nat)
    requires forall d <- digits :: IsHex(d)
    ensures Number(0, digits, base) == Value(digits, base)
  {
    if digits != "" {
      var n := |digits| - 1;
      NumberIsValue(digits[..n], base);
      assert digits == digits[..n] + [digits[n]];
      NumberSnoc(0, digits[..n], digits[n], base);
      DigitIsValue(digits[n]);
    }
  }

  // ---- Entities that a stage goes by ----

  /** An entity with its name written out. */
  function Entity(name: string): string { "&" + name + ";" }

  lemma SameEntity(a: string, b: string, rest: string)
    requires ';' !in a && ';' !in b && "&" + a + ";" <= "&" + b + ";" + rest
    ensures a == b
  {
    var s, t := "&" + a + ";", "&" + b + ";" + rest;
    assert s[|a| + 1] == ';' == t[|a| + 1] && t[|b| + 1] == ';';
    assert s[1..|a| + 1] == a && t[1..|b| + 1] == b;
  }

  lemma {:induction false} TextStays(a: string, b: string, p: string, r: string)
    requires '&' !in a && p != "" && p[0] == '&'
    ensures Text.ReplaceAll(a + b, p, r) == a + Text.ReplaceAll(b, p, r)
  {
    if a == "" {
      assert a + b == b;
    } else {
      assert (a + b)[0] == a[0] && (a + b)[1..] == a[1..] + b;
      Text.ReplaceStep(a + b, p, r);
      TextStays(a[1..], b, p, r);
    }
  }

  lemma EntityParts(name: string, rest: string)
    ensures Entity(name) + rest == ['&'] + ((name + ";") + rest)
    ensures "&" + name + ";" + rest == Entity(name) + rest
  {
  }

  /** A replacement of one entity leaves every other. */
  lemma EntityStays(name: string, other: string, r: string, rest: string)
    requires ';' !in name && ';' !in other && '&' !in name && name != other
    ensures Text.ReplaceAll(Entity(name) + rest, Entity(other), r)
            == Entity(name) + Text.ReplaceAll(rest, Entity(other), r)
  {
    hide Text.ReplaceAll;
    var s := Entity(name) + rest;
    EntityParts(name, rest);
    if Entity(other) <= s { SameEntity(other, name, rest); }
    Text.ReplaceStep(s, Entity(other), r);
    assert s[0] == '&' && s[1..] == (name + ";") + rest;
    TextStays(name + ";", rest, Entity(other), r);
    EntityParts(name, Text.ReplaceAll(rest, Entity(other), r));
  }

  lemma NoMatchStep(p: Pattern, s: string)
    requires s != "" && MatchAt(p, s).None?
    ensures Rewrite(p, s) == [s[0]] + Rewrite(p, s[1..])
  {
  }

  lemma NoAmpersandNoMatch(s: string, hex: bool)
    requires s != "" && s[0] != '&'
    ensures EntityAt(s, hex).None?
  {
  }

  lemma {:induction false} TextGoesBy(hex: bool, a: string, b: string)
    requires '&' !in a
    ensures Rewrite(Patterns.Entity(hex), a + b) == a + Rewrite(Patterns.Entity(hex), b)
  {
    hide EntityAt, Rewrite;
    if a == "" {
      assert a + b == b;
      assert a + Rewrite(Patterns.Entity(hex), b) == Rewrite(Patterns.Entity(hex), b);
    } else {
      var s := a + b;
      assert s[0] == a[0] && s[1..] == a[1..] + b && a == [a[0]] + a[1..];
      NoAmpersandNoMatch(s, hex);
      NoMatchStep(Patterns.Entity(hex), s);
      TextGoesBy(hex, a[1..], b);
    }
  }

  lemma NoMatchGoesBy(hex: bool, a: string, b: string)
    requires a != "" && '&' !in a[1..] && EntityAt(a + b, hex).None?
    ensures Rewrite(Patterns.Entity(hex), a + b) == a + Rewrite(Patterns.Entity(hex), b)
  {
    hide Rewrite, EntityAt;
    var s := a + b;
    assert s[0] == a[0] && s[1..] == a[1..] + b && a == [a[0]] + a[1..];
    TextGoesBy(hex, a[1..], b);
    NoMatchStep(Patterns.Entity(hex), s);
  }

  // ---- One stage ----

  function Name(t: Token): string
    requires !t.Plain?
  {
    match t
    case Quote => "quot"
    case Apostrophe => "apos"
    case Decimal(ds) => "#" + ds
    case Hexadecimal(ds) => "#x" + ds
  }

  lemma WrittenIsEntity(t: Token)
    requires !t.Plain? && IsToken(t)
    ensures Written(t) == Entity(Name(t)) && ';' !in Name(t) && '&' !in Name(t)
  {
  }

  /** Which of the stages decodes an entity. */
  function Turn(t: Token): nat {
    match t
    case Plain(_) => 5
    case Quote => 0
    case Apostrophe => 2
    case Decimal(ds) => if ds == "39" then 1 else 4
    case Hexadecimal(_) => 3
  }

  function Stage(k: nat, s: string): string
    requires k < 5
  {
    match k
    case 0 => Text.ReplaceAll(s, "&quot;", "\"")
    case 1 => Text.ReplaceAll(s, "&#39;", "'")
    case 2 => Text.ReplaceAll(s, "&apos;", "'")
    case 3 => Rewrite(Patterns.Entity(true), s)
    case 4 => Rewrite(Patterns.Entity(false), s)
  }

  /** A token after the first `k` stages. */
  function TokenText(t: Token, k: nat): string
    requires IsToken(t)
  {
    if Turn(t) < k then Decoded(t) else Written(t)
  }

  lemma TextPasses(k: nat, a: string, b: string)
    requires k < 5 && '&' !in a
    ensures Stage(k, a + b) == a + Stage(k, b)
  {
    hide Text.ReplaceAll, Rewrite;
    match k
    case 0 => TextStays(a, b, "&quot;", "\"");
    case 1 => TextStays(a, b, "&#39;", "'");
    case 2 => TextStays(a, b, "&apos;", "'");
    case 3 => TextGoesBy(true, a, b);
    case 4 => TextGoesBy(false, a, b);
  }

  lemma ThirtyNine()
    ensures Number(0, "39", 10) == 39 && Decoded(Decimal("39")) == "'"
  {
    assert "39"[1..] == "9" && "9"[1..] == "";
    assert Number(3, "9", 10) == Number(39, "", 10);
    assert Number(0, "39", 10) == Number(3, "9", 10);
  }

  lemma OwnName(t: Token, rest: string)
    requires IsToken(t) && Turn(t) < 3
    ensures Stage(Turn(t), Written(t) + rest) == Decoded(t) + Stage(Turn(t), rest)
  {
    hide Text.ReplaceAll;
    match t
    case Quote => Text.ReplaceMatch("&quot;", "\"", rest);
    case Apostrophe => Text.ReplaceMatch("&apos;", "'", rest);
    case Decimal(ds) =>
      ThirtyNine();
      assert "&#" + "39" + ";" == "&#39;";
      Text.ReplaceMatch("&#39;", "'", rest);
    case Hexadecimal(_) =>
    case Plain(_) =>
  }

  lemma {:induction false} RunOf(digits: string, hex: bool, rest: string)
    requires forall c <- digits :: IsHex(c) && (hex || c <= '9')
    requires rest != "" && rest[0] == ';'
    ensures DigitRun(digits + rest, hex) == |digits|
  {
    if digits == "" {
      assert digits + rest == rest;
    } else {
      assert (digits + rest)[0] == digits[0] && (digits + rest)[1..] == digits[1..] + rest;
      RunOf(digits[1..], hex, rest);
    }
  }

  lemma NumericUnfolds(s: string, hex: bool, n: nat, v: nat)
    requires var prefix := if hex then "&#x" else "&#";
             && prefix <= s && n == DigitRun(s[|prefix|..], hex) && n > 0 && |prefix| + n < |s|
             && s[|prefix| + n] == ';' && v == Value(s[|prefix|..][..n], if hex then 16 else 10)
    ensures var end := n + if hex then 4 else 3;
            EntityAt(s, hex) == Some(Match(end, if IsScalar(v) then [v as char] else s[..end]))
  {
    hide DigitRun, Value;
  }

  lemma NumericMatches(prefix: string, hex: bool, ds: string, rest: string)
    requires prefix == (if hex then "&#x" else "&#") && ds != "" && forall c <- ds :: IsHex(c) && (hex || c <= '9')
    ensures var n := Number(0, ds, if hex then 16 else 10);
            EntityAt(prefix + ds + ";" + rest, hex)
            == Some(Match(|prefix + ds + ";"|, if IsScalar(n) then [n as char] else prefix + ds + ";"))
  {
    hide EntityAt, DigitRun, Value, Number;
    var s := prefix + ds + ";" + rest;
    var more := ";" + rest;
    assert prefix <= s && s[|prefix|..] == ds + more && more[0] == ';';
    RunOf(ds, hex, more);
    var end := |prefix| + |ds|;
    assert s[end] == ';' && s[|prefix|..][..|ds|] == ds && s[..end + 1] == prefix + ds + ";";
    NumberIsValue(ds, if hex then 16 else 10);
    NumericUnfolds(s, hex, |ds|, Number(0, ds, if hex then 16 else 10));
  }

  lemma OwnNumber(t: Token, rest: string)
    requires IsToken(t) && (t.Decimal? || t.Hexadecimal?)
    ensures Rewrite(Patterns.Entity(t.Hexadecimal?), Written(t) + rest)
            == Decoded(t) + Rewrite(Patterns.Entity(t.Hexadecimal?), rest)
  {
    hide Rewrite;
    var hex := t.Hexadecimal?;
    var prefix := if hex then "&#x" else "&#";
    NumericMatches(prefix, hex, t.digits, rest);
    var form := prefix + t.digits + ";";
    var m := MatchAt(Patterns.Entity(hex), form + rest);
    TelegramForms.FirstMatch(Patterns.Entity(hex), form, rest, m, Decoded(t));
  }

  lemma OtherName(t: Token, k: nat)
    requires IsToken(t) && !t.Plain? && k < 3 && k < Turn(t)
    ensures Name(t) != (if k == 0 then "quot" else if k == 1 then "#39" else "apos")
  {
    match t
    case Decimal(ds) =>
      assert ("#" + ds)[1..] == ds && "#39"[1..] == "39";
      assert ("#" + ds)[0] == '#';
    case Hexadecimal(ds) => assert ("#x" + ds)[0] == '#' && ("#x" + ds)[1] == 'x';
    case Apostrophe =>
    case Quote =>
    case Plain(_) =>
  }

  lemma LaterName(t: Token, k: nat, rest: string)
    requires IsToken(t) && !t.Plain? && k < 3 && k < Turn(t)
    ensures Stage(k, Written(t) + rest) == Written(t) + Stage(k, rest)
  {
    hide Text.ReplaceAll, Written, Name;
    WrittenIsEntity(t);
    OtherName(t, k);
    assert Entity("quot") == "&quot;" && Entity("#39") == "&#39;" && Entity("apos") == "&apos;";
    match k
    case 0 => EntityStays(Name(t), "quot", "\"", rest);
    case 1 => EntityStays(Name(t), "#39", "'", rest);
    case 2 => EntityStays(Name(t), "apos", "'", rest);
  }

  lemma NoNumber(s: string, hex: bool)
    requires "&#" <= s && |s| > 2 && (if hex then s[2] != 'x' else !IsHex(s[2]))
    ensures EntityAt(s, hex).None?
  {
    assert s[2..][0] == s[2];
  }

  /** Neither kind of number is taken for the other. */
  lemma OtherNumber(t: Token, rest: string)
    requires IsToken(t) && (t.Decimal? || t.Hexadecimal?)
    ensures Rewrite(Patterns.Entity(t.Decimal?), Written(t) + rest)
            == Written(t) + Rewrite(Patterns.Entity(t.Decimal?), rest)
  {
    hide Rewrite, EntityAt;
    WrittenIsEntity(t);
    var a := Written(t);
    assert a[1..] == Name(t) + ";" && (a + rest)[2] == a[2] && "&#" <= a + rest;
    if t.Decimal? { assert a[2] == t.digits[0] && t.digits[0] in t.digits; } else { assert a[2] == 'x'; }
    NoNumber(a + rest, t.Decimal?);
    NoMatchGoesBy(t.Decimal?, a, rest);
  }

  lemma AmpersandAlone(rest: string)
    requires rest == "" || rest[0] != '#'
    ensures EntityAt("&" + rest, false).None?
  {
    var s := "&" + rest;
    if rest != "" { assert s[1] == rest[0]; }
  }

  /** What is decoded before holds no ampersand, but for the character 38. */
  lemma DecodedPasses(t: Token, k: nat, rest: string)
    requires IsToken(t) && k < 5 && Turn(t) < k
    requires k == 4 && t.Hexadecimal? && Decoded(t) == "&" ==> rest == "" || rest[0] != '#'
    ensures Stage(k, Decoded(t) + rest) == Decoded(t) + Stage(k, rest)
  {
    hide Rewrite, Text.ReplaceAll;
    if t.Hexadecimal? && !IsScalar(Number(0, t.digits, 16)) {
      OtherNumber(t, rest);
    } else if t.Hexadecimal? && Decoded(t) == "&" {
      assert "&"[1..] == "";
      AmpersandAlone(rest);
      NoMatchGoesBy(false, "&", rest);
    } else {
      if t.Decimal? { ThirtyNine(); }
      TextPasses(k, Decoded(t), rest);
    }
  }

  lemma TokenStep(t: Token, k: nat, rest: string)
    requires IsToken(t) && k < 5
    requires k == 4 && t.Hexadecimal? && Decoded(t) == "&" ==> rest == "" || rest[0] != '#'
    ensures Stage(k, TokenText(t, k) + rest) == TokenText(t, k + 1) + Stage(k, rest)
  {
    hide Rewrite, Text.ReplaceAll, Decoded;
    if t.Plain? {
      TextPasses(k, t.text, rest);
    } else if Turn(t) < k {
      DecodedPasses(t, k, rest);
    } else if Turn(t) == k {
      if k < 3 { OwnName(t, rest); } else { OwnNumber(t, rest); }
    } else if k < 3 {
      LaterName(t, k, rest);
    } else {
      OtherNumber(t, rest);
    }
  }

  function TextOf(ts: seq<Token>, k: nat): string
    requires forall t <- ts :: IsToken(t)
  {
    if ts == [] then "" else TokenText(ts[0], k) + TextOf(ts[1..], k)
  }

  /** No ampersand that a hexadecimal entity spells comes right before a number sign. */
  predicate IsEntityText(ts: seq<Token>) {
    && (forall t <- ts :: IsToken(t))
    && forall i | 0 <= i < |ts| && ts[i].Hexadecimal? && Decoded(ts[i]) == "&" ::
         var rest := TextOf(ts[i + 1..], 4); rest == "" || rest[0] != '#'
  }

  lemma TailIsEntityText(ts: seq<Token>)
    requires IsEntityText(ts) && ts != []
    ensures IsEntityText(ts[1..])
  {
    forall i | 0 <= i < |ts[1..]| && ts[1..][i].Hexadecimal? && Decoded(ts[1..][i]) == "&"
      ensures var rest := TextOf(ts[1..][i + 1..], 4); rest == "" || rest[0] != '#'
    {
      assert ts[1..][i] == ts[i + 1] && ts[1..][i + 1..] == ts[i + 2..];
    }
  }

  lemma {:induction false} StagePasses(ts: seq<Token>, k: nat)
    requires (forall t <- ts :: IsToken(t)) && k < 5 && (k == 4 ==> IsEntityText(ts))
    ensures Stage(k, TextOf(ts, k)) == TextOf(ts, k + 1)
  {
    if ts != [] {
      if k == 4 {
        TailIsEntityText(ts);
        assert ts[1..] == ts[0 + 1..];
      }
      StagePasses(ts[1..], k);
      assert ts[0] in ts;
      TokenStep(ts[0], k, TextOf(ts[1..], k));
    }
  }

  function Source(ts: seq<Token>): string { if ts == [] then "" else Written(ts[0]) + Source(ts[1..]) }

  function Meaning(ts: seq<Token>): string
    requires forall t <- ts :: IsToken(t)
  {
    if ts == [] then "" else Decoded(ts[0]) + Meaning(ts[1..])
  }

  lemma {:induction false} TextEnds(ts: seq<Token>)
    requires forall t <- ts :: IsToken(t)
    ensures TextOf(ts, 0) == Source(ts) && TextOf(ts, 5) == Meaning(ts)
  {
    if ts != [] {
      TextEnds(ts[1..]);
      assert ts[0] in ts;
    }
  }

  /** All stages but the last. */
  lemma FourStages(ts: seq<Token>)
    requires forall t <- ts :: IsToken(t)
    ensures DecodeSafeEntities(TextOf(ts, 0)) == Stage(4, TextOf(ts, 4))
  {
    hide Rewrite, Text.ReplaceAll, TextOf, IsToken;
    StagePasses(ts, 0);
    StagePasses(ts, 1);
    StagePasses(ts, 2);
    StagePasses(ts, 3);
  }

  /** Quote entities and numeric entities become their characters, in place, and nothing else changes. */
  lemma EntitiesDecode(ts: seq<Token>)
    requires IsEntityText(ts)
    ensures DecodeSafeEntities(Source(ts)) == Meaning(ts)
  {
    FourStages(ts);
    StagePasses(ts, 4);
    TextEnds(ts);
  }

  lemma TwentySix()
    ensures Number(0, "26", 16) == 38
  {
    assert "26"[1..] == "6" && "6"[1..] == "";
    assert Number(2, "6", 16) == Number(38, "", 16);
    assert Number(0, "26", 16) == Number(2, "6", 16);
  }

  lemma RewriteEmpty(p: Pattern)
    ensures Rewrite(p, "") == ""
  {
  }

  lemma TwoTokens(a: Token, b: Token, k: nat)
    requires IsToken(a) && IsToken(b)
    ensures TextOf([a, b], k) == TokenText(a, k) + TokenText(b, k)
  {
    assert [a, b][1..] == [b] && [b][1..] == [];
    assert TextOf([b], k) == TokenText(b, k) + TextOf([], k);
  }

  /** An ampersand spelled in hexadecimal right before a number sign: the text is decoded twice. */
  lemma DecodedTwice(ds: string)
    requires IsToken(Decimal(ds))
    ensures DecodeSafeEntities("&#x26;#" + ds + ";") == Decoded(Decimal(ds))
  {
    hide Rewrite, Text.ReplaceAll, TextOf;
    var hash := "#" + ds + ";";
    TwentySix();
    assert '&' !in hash && '&' as nat == 38;
    FourStages([Hexadecimal("26"), Plain(hash)]);
    TwoTokens(Hexadecimal("26"), Plain(hash), 0);
    TwoTokens(Hexadecimal("26"), Plain(hash), 4);
    assert "&#x" + "26" + ";" + hash == "&#x26;#" + ds + ";" && "&" + hash == "&#" + ds + ";";
    OwnNumber(Decimal(ds), "");
    RewriteEmpty(Patterns.Entity(false));
    assert Written(Decimal(ds)) + "" == "&#" + ds + ";" && Decoded(Decimal(ds)) + "" == Decoded(Decimal(ds));
  }
}
