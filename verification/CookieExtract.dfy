/** Reading tokens out of request headers: the Cookie header's parser, and the order of sources. */
module CookieExtract {
  import opened Wrappers
  import opened Text

  // ---- Parsing ----

  function Split(s: string, sep: char): (parts: seq<string>)
    ensures parts != [] && forall p <- parts :: sep !in p
    decreases |s|
  {
    var i := Find(s, sep);
    if i == |s| then [s] else [s[..i]] + Split(s[i + 1..], sep)
  }

  datatype Pair = Pair(name: string, value: string)

  /** What a part of the header stands for: the text before and after the first `=`, trimmed. */
  function ParsePart(part: string): Option<Pair> {
    var t := Trim(part);
    var i := Find(t, '=');
    if i == |t| then None else Some(Pair(Trim(t[..i]), Trim(t[i + 1..])))
  }

  function ParseParts(parts: seq<string>): seq<Pair> {
    if parts == [] then []
    else
      match ParsePart(parts[0])
      case None => ParseParts(parts[1..])
      case Some(p) => [p] + ParseParts(parts[1..])
  }

  function Parse(header: string): seq<Pair> { ParseParts(Split(header, ';')) }

  /** The value of the first pair of that name whose value is not empty. */
  function FirstValue(pairs: seq<Pair>, name: string): Option<string> {
    if pairs == [] then None
    else if pairs[0].name == name && pairs[0].value != "" then Some(pairs[0].value)
    else FirstValue(pairs[1..], name)
  }

  lemma SearchStep(parts: seq<string>, k: nat, name: string)
    requires k < |parts|
    ensures var p := ParsePart(parts[k]);
            FirstValue(ParseParts(parts[k..]), name)
            == if p.Some? && p.value.name == name && p.value.value != "" then Some(p.value.value)
               else FirstValue(ParseParts(parts[k + 1..]), name)
  {
  }

  /** The search over the parts, with its early return. */
  method ExtractCookieValue(header: Option<string>, name: string) returns (r: Option<string>)
    ensures r == if header.None? then None else FirstValue(Parse(header.value), name)
  {
    if header.None? { return None; }
    var parts := Split(header.value, ';');
    var k := 0;
    while k < |parts|
      invariant 0 <= k <= |parts|
      invariant FirstValue(ParseParts(parts), name) == FirstValue(ParseParts(parts[k..]), name)
    {
      SearchStep(parts, k, name);
      var p := ParsePart(parts[k]);
      k := k + 1;
      if p.None? {
        continue;
      }
      if p.value.name == name {
        if p.value.value != "" {
          return Some(p.value.value);
        }
      }
    }
    return None;
  }

  // ---- Printing, as in section 4.2.1 of RFC 6265 ----

  function PrintPair(p: Pair): string { p.name + "=" + p.value }

  function Print(pairs: seq<Pair>): string {
    if pairs == [] then ""
    else if |pairs| == 1 then PrintPair(pairs[0])
    else PrintPair(pairs[0]) + "; " + Print(pairs[1..])
  }

  /** Names and values that a header can carry. A value may hold further `=` signs. */
  predicate IsPrintable(p: Pair) {
    IsTrimmed(p.name) && '=' !in p.name && ';' !in p.name && IsTrimmed(p.value) && ';' !in p.value
  }

  // ---- The two are inverse ----

  lemma FindSplits(a: string, c: char, b: string)
    requires c !in a
    ensures Find(a + [c] + b, c) == |a|
  {
    assert (a + [c] + b)[..|a|] == a;
    FindAt(a + [c] + b, c, |a|);
  }

  lemma SplitsAt(a: string, c: char, b: string)
    requires c !in a
    ensures Split(a + [c] + b, c) == [a] + Split(b, c)
  {
    FindSplits(a, c, b);
    assert (a + [c] + b)[..|a|] == a && (a + [c] + b)[|a| + 1..] == b;
  }

  lemma TrimTakesPart(s: string, c: char)
    requires c !in s
    ensures c !in Trim(s)
  {
    TrimStartTrims(s);
    TrimEndTrims(TrimStart(s));
  }

  /** Any part of a header: a name and a value with white space around them, or a text without `=`. */
  datatype Part =
    | Named(before: string, name: string, middle: string, between: string, value: string, after: string)
    | Bare(text: string)

  predicate IsPart(p: Part) {
    match p
    case Named(before, name, middle, between, value, after) =>
      && IsBlank(before) && IsBlank(middle) && IsBlank(between) && IsBlank(after)
      && IsPrintable(Pair(name, value))
    case Bare(text) => '=' !in text && ';' !in text
  }

  function Written(p: Part): string {
    match p
    case Named(before, name, middle, between, value, after) =>
      before + name + middle + "=" + between + value + after
    case Bare(text) => text
  }

  function Header(parts: seq<Part>): string
    requires parts != []
  {
    if |parts| == 1 then Written(parts[0]) else Written(parts[0]) + ";" + Header(parts[1..])
  }

  /** The names and values of the parts that have both. */
  function NamedPairs(parts: seq<Part>): seq<Pair> {
    if parts == [] then []
    else (if parts[0].Named? then [Pair(parts[0].name, parts[0].value)] else []) + NamedPairs(parts[1..])
  }

  lemma NamedTrims(p: Part)
    requires IsPart(p) && p.Named?
    ensures Trim(Written(p)) == (if p.name == "" then "" else p.name + p.middle) + ['=']
                                + (if p.value == "" then "" else p.between + p.value)
  {
    var front := if p.name == "" then p.before + p.middle else p.before;
    var left := if p.name == "" then "" else p.name + p.middle;
    var right := if p.value == "" then "" else p.between + p.value;
    var back := if p.value == "" then p.between + p.after else p.after;
    assert Written(p) == front + (left + ['='] + right) + back;
    TrimOf(front, left + ['='] + right, back);
  }

  lemma CutsAtEquals(part: string, left: string, right: string)
    requires Trim(part) == left + ['='] + right && '=' !in left
    ensures ParsePart(part) == Some(Pair(Trim(left), Trim(right)))
  {
    hide Trim;
    FindSplits(left, '=', right);
    var t := left + ['='] + right;
    assert t[..|left|] == left && t[|left| + 1..] == right;
  }

  lemma SideTrims(before: string, text: string, after: string)
    requires IsBlank(before) && IsTrimmed(text) && IsBlank(after)
    ensures Trim(if text == "" then "" else text + after) == text == Trim(if text == "" then "" else before + text)
  {
    TrimOf("", text, if text == "" then "" else after);
    TrimOf(if text == "" then "" else before, text, "");
    assert "" + text + after == text + after && before + text + "" == before + text;
  }

  lemma NamedMeans(p: Part)
    requires IsPart(p) && p.Named?
    ensures ParsePart(Written(p)) == Some(Pair(p.name, p.value))
  {
    hide Trim, Written, IsTrimmed;
    NamedTrims(p);
    SideTrims(p.between, p.name, p.middle);
    SideTrims(p.between, p.value, p.middle);
    CutsAtEquals(Written(p), if p.name == "" then "" else p.name + p.middle,
                 if p.value == "" then "" else p.between + p.value);
  }

  lemma PartMeans(p: Part)
    requires IsPart(p)
    ensures ';' !in Written(p)
    ensures ParsePart(Written(p)) == if p.Named? then Some(Pair(p.name, p.value)) else None
  {
    if p.Named? {
      NamedMeans(p);
    } else {
      TrimTakesPart(p.text, '=');
    }
  }

  lemma MoreParts(first: string, rest: string)
    requires ';' !in first
    ensures ParseParts(Split(first + ";" + rest, ';'))
            == (if ParsePart(first).Some? then [ParsePart(first).value] else []) + ParseParts(Split(rest, ';'))
  {
    SplitsAt(first, ';', rest);
    assert first + ";" + rest == first + [';'] + rest;
    assert ([first] + Split(rest, ';'))[1..] == Split(rest, ';');
  }

  lemma OnePart(first: string)
    requires ';' !in first
    ensures ParseParts(Split(first, ';')) == if ParsePart(first).Some? then [ParsePart(first).value] else []
  {
  }

  /**
   A header means the names and values of its parts, in order and without the white space around
   them; a part without `=` means nothing.
   */
  lemma {:induction false} HeaderMeansParts(parts: seq<Part>)
    requires parts != [] && forall p <- parts :: IsPart(p)
    ensures Parse(Header(parts)) == NamedPairs(parts)
  {
    PartMeans(parts[0]);
    if |parts| == 1 {
      OnePart(Written(parts[0]));
    } else {
      HeaderMeansParts(parts[1..]);
      MoreParts(Written(parts[0]), Header(parts[1..]));
    }
  }

  predicate ArePrintable(pairs: seq<Pair>) { forall p <- pairs :: IsPrintable(p) }

  /** The parts of a printed header, the first with or without a space before it. */
  function PartsOf(pairs: seq<Pair>, space: string): seq<Part> {
    if pairs == [] then []
    else [Part.Named(space, pairs[0].name, "", "", pairs[0].value, "")] + PartsOf(pairs[1..], " ")
  }

  lemma {:induction false} PartsOfPrinted(pairs: seq<Pair>, space: string)
    requires pairs != [] && ArePrintable(pairs) && IsBlank(space)
    ensures var parts := PartsOf(pairs, space);
            |parts| == |pairs| && (forall p <- parts :: IsPart(p)) && NamedPairs(parts) == pairs
            && Header(parts) == space + Print(pairs)
  {
    var first := Part.Named(space, pairs[0].name, "", "", pairs[0].value, "");
    assert Written(first) == space + PrintPair(pairs[0]);
    if |pairs| > 1 {
      PartsOfPrinted(pairs[1..], " ");
      var rest := Print(pairs[1..]);
      assert (space + PrintPair(pairs[0])) + ";" + (" " + rest) == space + (PrintPair(pairs[0]) + "; " + rest);
    }
  }

  /** Parsing a printed header gives its pairs back. */
  lemma ParseInverts(pairs: seq<Pair>)
    requires ArePrintable(pairs)
    ensures Parse(Print(pairs)) == pairs
  {
    if pairs == [] {
      OnePart("");
    } else {
      PartsOfPrinted(pairs, "");
      HeaderMeansParts(PartsOf(pairs, ""));
      assert "" + Print(pairs) == Print(pairs);
    }
  }

  predicate Holds(p: Pair, name: string) { p.name == name && p.value != "" }

  lemma {:induction false} FirstOfThem(pairs: seq<Pair>, name: string)
    ensures var r := FirstValue(pairs, name);
            && (r == None <==> forall p <- pairs :: !Holds(p, name))
            && (r.Some? ==> exists k :: 0 <= k < |pairs| && Holds(pairs[k], name) && pairs[k].value == r.value
                                         && forall i | 0 <= i < k :: !Holds(pairs[i], name))
  {
    if pairs != [] && !Holds(pairs[0], name) {
      FirstOfThem(pairs[1..], name);
      assert pairs == [pairs[0]] + pairs[1..];
      if FirstValue(pairs, name).Some? {
        var k :| 0 <= k < |pairs[1..]| && Holds(pairs[1..][k], name)
            && pairs[1..][k].value == FirstValue(pairs, name).value
            && forall i | 0 <= i < k :: !Holds(pairs[1..][i], name);
        assert Holds(pairs[k + 1], name);
        forall i | 0 <= i < k + 1 ensures !Holds(pairs[i], name) {
          if i > 0 { assert pairs[1..][i - 1] == pairs[i]; }
        }
      }
    }
  }

  /**
   From a header of any parts, the value of the first one of that name with a value is extracted,
   and none exactly when there is no such part.
   */
  lemma ExtractFindsFirst(parts: seq<Part>, name: string)
    requires parts != [] && forall p <- parts :: IsPart(p)
    ensures var r := FirstValue(Parse(Header(parts)), name);
            var pairs := NamedPairs(parts);
            && (r == None <==> forall p <- pairs :: !Holds(p, name))
            && (r.Some? ==> exists k :: 0 <= k < |pairs| && Holds(pairs[k], name) && pairs[k].value == r.value
                                         && forall i | 0 <= i < k :: !Holds(pairs[i], name))
  {
    HeaderMeansParts(parts);
    FirstOfThem(NamedPairs(parts), name);
  }

  // ---- Any header ----

  lemma PartIsPrintable(part: string)
    requires ';' !in part
    ensures ParsePart(part).Some? ==> IsPrintable(ParsePart(part).value)
  {
    var t := Trim(part);
    TrimTakesPart(part, ';');
    var i := Find(t, '=');
    if i < |t| {
      TrimTrims(t[..i]);
      TrimTrims(t[i + 1..]);
      TrimTakesPart(t[..i], ';');
      TrimTakesPart(t[..i], '=');
      TrimTakesPart(t[i + 1..], ';');
    }
  }

  lemma {:induction false} PartsArePrintable(parts: seq<string>)
    requires forall part <- parts :: ';' !in part
    ensures ArePrintable(ParseParts(parts))
  {
    if parts != [] {
      PartIsPrintable(parts[0]);
      PartsArePrintable(parts[1..]);
    }
  }

  /** Whatever the header, its pairs can be printed, and the printed header means the same. */
  lemma AnyHeaderMeansPairs(header: string)
    ensures ArePrintable(Parse(header)) && Parse(Print(Parse(header))) == Parse(header)
  {
    PartsArePrintable(Split(header, ';'));
    ParseInverts(Parse(header));
  }

  // ---- Tokens ----

  const COOKIE_NAME := "aionui-session"
  const BEARER := "Bearer "

  function BearerToken(authorization: Option<string>): Option<string> {
    if authorization.None? || !(BEARER <= authorization.value) || authorization.value == BEARER then None
    else Some(authorization.value[|BEARER|..])
  }

  function CookieToken(cookie: Option<string>): Option<string> {
    if cookie.None? then None else FirstValue(Parse(cookie.value), COOKIE_NAME)
  }

  function Token(authorization: Option<string>, cookie: Option<string>): Option<string> {
    if BearerToken(authorization).Some? then BearerToken(authorization) else CookieToken(cookie)
  }

  function WsToken(authorization: Option<string>, cookie: Option<string>, protocols: Option<string>): Option<string> {
    if BearerToken(authorization).Some? then BearerToken(authorization)
    else if CookieToken(cookie).Some? then CookieToken(cookie)
    else if protocols.None? then None
    else
      var first := Trim(Split(protocols.value, ',')[0]);
      if first == "" then None else Some(first)
  }

  /** No token in the Authorization header: it is absent, of another scheme, or holds nothing else. */
  predicate HasNoBearer(authorization: Option<string>) {
    authorization.None? || !("Bearer " <= authorization.value) || |authorization.value| == 7
  }

  /** The name and value of a session cookie. */
  predicate IsSession(p: Pair) { Holds(p, "aionui-session") }

  /** A bearer token goes before every other header, and is taken whole. */
  lemma BearerIsTaken(t: string, cookie: Option<string>, protocols: Option<string>)
    requires t != ""
    ensures Token(Some("Bearer " + t), cookie) == Some(t)
    ensures WsToken(Some("Bearer " + t), cookie, protocols) == Some(t)
  {
    assert BEARER <= BEARER + t && (BEARER + t)[|BEARER|..] == t;
  }

  /** Any other Authorization header is as good as none. */
  lemma NoBearerIsPassed(authorization: Option<string>, cookie: Option<string>, protocols: Option<string>)
    requires HasNoBearer(authorization)
    ensures Token(authorization, cookie) == Token(None, cookie)
    ensures WsToken(authorization, cookie, protocols) == WsToken(None, cookie, protocols)
  {
    if authorization.Some? && BEARER <= authorization.value {
      assert authorization.value[..7] == BEARER;
    }
  }

  /**
   Then comes the first session cookie with a value, in any header that is made of parts; without
   one there is no token, and none without a cookie header.
   */
  lemma SessionIsTaken(parts: seq<Part>, protocols: Option<string>)
    requires parts != [] && forall p <- parts :: IsPart(p)
    ensures Token(None, None) == None
    ensures var token := Token(None, Some(Header(parts)));
            var pairs := NamedPairs(parts);
            && (token == None <==> forall p <- pairs :: !IsSession(p))
            && (token.Some? ==> WsToken(None, Some(Header(parts)), protocols) == token)
            && (token.Some? ==> exists k :: 0 <= k < |pairs| && IsSession(pairs[k]) && pairs[k].value == token.value
                                             && forall i | 0 <= i < k :: !IsSession(pairs[i]))
  {
    HeaderMeansParts(parts);
    FirstOfThem(NamedPairs(parts), "aionui-session");
  }

  lemma NotSplit(s: string, c: char)
    requires c !in s
    ensures Split(s, c) == [s]
  {
    assert Find(s, c) == |s|;
  }

  lemma FirstBeforeComma(first: string, rest: string)
    requires ',' !in first && (rest == "" || rest[0] == ',')
    ensures Split(first + rest, ',')[0] == first
  {
    hide Split;
    if rest == "" {
      assert first + rest == first;
      NotSplit(first, ',');
    } else {
      SplitsAt(first, ',', rest[1..]);
      assert first + rest == first + [','] + rest[1..];
    }
  }

  /**
   Without any of them, a WebSocket's token is the text before the first comma of its protocols,
   without the white space around it, and none exactly without such a header or such a text.
   */
  lemma ProtocolIsTaken(authorization: Option<string>, cookie: Option<string>, before: string, text: string,
                        after: string, rest: string)
    requires Token(authorization, cookie) == None
    requires IsBlank(before) && IsBlank(after) && IsTrimmed(text) && ',' !in text && (rest == "" || rest[0] == ',')
    ensures WsToken(authorization, cookie, None) == None
    ensures WsToken(authorization, cookie, Some(before + text + after + rest)) == if text == "" then None
            else Some(text)
  {
    FirstBeforeComma(before + text + after, rest);
    TrimOf(before, text, after);
  }
}
