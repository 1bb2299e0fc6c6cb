/** Strings as the source's standard library handles them: white space, trimming, replacement. */
module Text {

  /** Unicode's White_Space property. */
  predicate IsSpace(c: char) {
    || '\t' <= c <= '\r' || c == ' ' || c == '\U{0085}' || c == '\U{00A0}' || c == '\U{1680}'
    || '\U{2000}' <= c <= '\U{200A}' || c == '\U{2028}' || c == '\U{2029}' || c == '\U{202F}'
    || c == '\U{205F}' || c == '\U{3000}'
  }

  function TrimStart(s: string): string {
    if s != "" && IsSpace(s[0]) then TrimStart(s[1..]) else s
  }

  function TrimEnd(s: string): string {
    if s != "" && IsSpace(s[|s| - 1]) then TrimEnd(s[..|s| - 1]) else s
  }

  function Trim(s: string): string { TrimEnd(TrimStart(s)) }

  /** Nothing to trim off. */
  predicate IsTrimmed(s: string) { s == "" || (!IsSpace(s[0]) && !IsSpace(s[|s| - 1])) }

  lemma {:induction false} TrimStartTrims(s: string)
    ensures var r := TrimStart(s);
            && |r| <= |s| && s[|s| - |r|..] == r && (r != "" ==> !IsSpace(r[0]))
            && forall i | 0 <= i < |s| - |r| :: IsSpace(s[i])
  {
    if s != "" && IsSpace(s[0]) {
      TrimStartTrims(s[1..]);
      var n := |s| - |TrimStart(s)|;
      assert s[1..][n - 1..] == s[n..];
      forall i | 0 <= i < n ensures IsSpace(s[i]) {
        if i > 0 { assert s[1..][i - 1] == s[i]; }
      }
    } else {
      assert s[0..] == s;
    }
  }

  lemma {:induction false} TrimEndTrims(s: string)
    ensures var r := TrimEnd(s);
            && r <= s && (r != "" ==> !IsSpace(r[|r| - 1]))
            && forall i | |r| <= i < |s| :: IsSpace(s[i])
  {
    if s != "" && IsSpace(s[|s| - 1]) { TrimEndTrims(s[..|s| - 1]); }
  }

  /** Trimming leaves no space at either end, and nothing but a trimmed text unchanged. */
  lemma TrimTrims(s: string)
    ensures IsTrimmed(Trim(s)) && (IsTrimmed(s) <==> Trim(s) == s)
  {
    TrimStartTrims(s);
    TrimEndTrims(TrimStart(s));
    var t := TrimStart(s);
    if Trim(s) != "" {
      assert Trim(s)[0] == t[0];
    }
  }

  predicate IsBlank(s: string) { forall c <- s :: IsSpace(c) }

  lemma {:induction false} TrimStartOf(blank: string, rest: string)
    requires IsBlank(blank) && (rest == "" || !IsSpace(rest[0]))
    ensures TrimStart(blank + rest) == rest
  {
    if blank == "" {
      assert blank + rest == rest;
    } else {
      TrimStartOf(blank[1..], rest);
      assert (blank + rest)[0] == blank[0] && (blank + rest)[1..] == blank[1..] + rest;
    }
  }

  lemma {:induction false} TrimEndOf(front: string, blank: string)
    requires IsBlank(blank) && (front == "" || !IsSpace(front[|front| - 1]))
    ensures TrimEnd(front + blank) == front
  {
    if blank == "" {
      assert front + blank == front;
    } else {
      var n := |blank| - 1;
      TrimEndOf(front, blank[..n]);
      var s := front + blank;
      assert s[|s| - 1] == blank[n] && s[..|s| - 1] == front + blank[..n];
    }
  }

  /** White space around a trimmed text is what trimming takes away. */
  lemma TrimOf(before: string, text: string, after: string)
    requires IsBlank(before) && IsTrimmed(text) && IsBlank(after)
    ensures Trim(before + text + after) == text
  {
    if text == "" {
      assert before + text + after == (before + after) + "";
      TrimStartOf(before + after, "");
    } else {
      assert before + text + after == before + (text + after);
      TrimStartOf(before, text + after);
      TrimEndOf(text, after);
    }
  }

  /** The first position of a character, or the length of the text. */
  function Find(s: string, c: char): (i: nat)
    ensures i <= |s| && c !in s[..i] && (i < |s| ==> s[i] == c)
  {
    if s == "" || s[0] == c then 0 else 1 + Find(s[1..], c)
  }

  lemma {:induction false} FindAt(s: string, c: char, n: nat)
    requires n < |s| && s[n] == c && c !in s[..n]
    ensures Find(s, c) == n
  {
  }

  /** Replaces the occurrences of a non-empty pattern, leftmost first and without overlap. */
  function ReplaceAll(s: string, p: string, r: string): string
    requires p != ""
  {
    if |s| < |p| then s
    else if p <= s then r + ReplaceAll(s[|p|..], p, r)
    else [s[0]] + ReplaceAll(s[1..], p, r)
  }

  predicate Has(s: string, p: string) {
    |p| <= |s| && (p <= s || (s != "" && Has(s[1..], p)))
  }

  lemma ReplaceStep(s: string, p: string, r: string)
    requires p != "" && s != "" && !(p <= s)
    ensures ReplaceAll(s, p, r) == [s[0]] + ReplaceAll(s[1..], p, r)
  {
  }

  lemma ReplaceMatch(p: string, r: string, rest: string)
    requires p != ""
    ensures ReplaceAll(p + rest, p, r) == r + ReplaceAll(rest, p, r)
  {
  }

  lemma {:induction false} ReplaceAbsent(s: string, p: string, r: string)
    requires p != "" && !Has(s, p)
    ensures ReplaceAll(s, p, r) == s
  {
    if |s| >= |p| {
      ReplaceAbsent(s[1..], p, r);
      assert s == [s[0]] + s[1..];
    }
  }

  /** Replacing by something shorter shortens the text exactly when there was an occurrence. */
  lemma {:induction false} ReplaceShortens(s: string, p: string, r: string)
    requires |r| < |p|
    ensures |ReplaceAll(s, p, r)| <= |s|
    ensures Has(s, p) <==> |ReplaceAll(s, p, r)| < |s|
  {
    if |s| >= |p| {
      if p <= s {
        ReplaceShortens(s[|p|..], p, r);
      } else {
        ReplaceShortens(s[1..], p, r);
      }
    }
  }
}
