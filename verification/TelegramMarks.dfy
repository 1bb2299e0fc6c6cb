/**
 Texts in which marks of any kinds come in any order, overlapping or not: what the seven passes
 make of them, and when the tags nest.
 */
module TelegramMarks {
  import opened Patterns
  import TelegramDocuments
  import TelegramForms
  import opened TelegramHtml
  import opened Wrappers

  datatype Mark = Tick | Stars | Lines | Star | Line | Open | Middle | Close

  function Delimiter(m: Mark): string {
    match m
    case Tick => "`"
    case Stars => "**"
    case Lines => "__"
    case Star => "*"
    case Line => "_"
    case Open => "["
    case Middle => "]("
    case Close => ")"
  }

  /** What stands between two texts: a mark, or the tag that a pass made of it. */
  datatype Sep = Raw(mark: Mark) | Made(tag: Tag)

  function TextOf(s: Sep): string { if s.Raw? then Delimiter(s.mark) else Spelled(s.tag) }

  function Weave(texts: seq<string>, seps: seq<Sep>): string
    requires |texts| == |seps| + 1
  {
    if seps == [] then texts[0] else texts[0] + (TextOf(seps[0]) + Weave(texts[1..], seps[1..]))
  }

  /** Next to each other, the two do not run into one delimiter, and enclose no empty part of a link. */
  predicate Separate(a: Sep, b: Sep) {
    a.Made? || b.Made?
    || (Delimiter(a.mark)[|Delimiter(a.mark)| - 1] != Delimiter(b.mark)[0]
        && !(a.mark.Open? && b.mark.Middle?) && !(a.mark.Middle? && b.mark.Close?))
  }

  /** Texts without a delimiter; between two marks there is text of one line, or none if they are separate. */
  predicate AreApart(texts: seq<string>, seps: seq<Sep>) {
    && |texts| == |seps| + 1
    && (forall t <- texts :: TelegramForms.IsPlain(t))
    && (forall i | 1 <= i < |seps| :: '\n' !in texts[i] && (texts[i] != "" || Separate(seps[i - 1], seps[i])))
  }

  lemma TailIsApart(texts: seq<string>, seps: seq<Sep>)
    requires AreApart(texts, seps) && seps != []
    ensures AreApart(texts[1..], seps[1..])
  {
    forall i | 1 <= i < |seps[1..]|
      ensures '\n' !in texts[1..][i] && (texts[1..][i] != "" || Separate(seps[1..][i - 1], seps[1..][i]))
    {
      assert texts[1..][i] == texts[i + 1] && seps[1..][i - 1] == seps[i] && seps[1..][i] == seps[i + 1];
    }
  }

  lemma {:induction false} DropIsApart(texts: seq<string>, seps: seq<Sep>, n: nat)
    requires AreApart(texts, seps) && n <= |seps|
    ensures AreApart(texts[n..], seps[n..])
  {
    if n > 0 {
      TailIsApart(texts, seps);
      DropIsApart(texts[1..], seps[1..], n - 1);
      assert texts[1..][n - 1..] == texts[n..] && seps[1..][n - 1..] == seps[n..];
    }
  }

  lemma FourParts(a: string, b: string, c: string, d: string)
    ensures a + (b + (c + d)) == (a + (b + c)) + d
  {
  }

  lemma {:induction false} WeaveSplits(texts: seq<string>, seps: seq<Sep>, n: nat)
    requires |texts| == |seps| + 1 && n < |seps|
    ensures Weave(texts, seps)
            == Weave(texts[..n + 1], seps[..n]) + (TextOf(seps[n]) + Weave(texts[n + 1..], seps[n + 1..]))
  {
    if n == 0 {
      assert texts[..1][0] == texts[0] && seps[..0] == [];
    } else {
      WeaveSplits(texts[1..], seps[1..], n - 1);
      assert texts[1..][..n] == texts[..n + 1][1..] && seps[1..][..n - 1] == seps[..n][1..];
      assert texts[1..][n..] == texts[n + 1..] && seps[1..][n..] == seps[n + 1..] && seps[1..][n - 1] == seps[n];
      FourParts(texts[0], TextOf(seps[0]), Weave(texts[..n + 1][1..], seps[..n][1..]),
                TextOf(seps[n]) + Weave(texts[n + 1..], seps[n + 1..]));
    }
  }

  // ---- A pass for marks that come in pairs ----

  predicate IsPair(k: Mark) { k.Tick? || k.Stars? || k.Lines? || k.Star? || k.Line? }

  function PassFor(k: Mark): (p: Pattern)
    requires IsPair(k)
    ensures IsTelegram(p) && Start(p) == Delimiter(k)[0]
  {
    match k
    case Tick => InlineCode
    case Stars => Bold("**")
    case Lines => Bold("__")
    case Star => Italic("*")
    case Line => Italic("_")
  }

  function KindOf(k: Mark): Kind
    requires IsPair(k)
  {
    match k
    case Tick => CodeTag
    case Stars => BoldTag
    case Lines => BoldTag
    case Star => ItalicTag
    case Line => ItalicTag
  }

  /** The first mark of a pair opens and the second closes. */
  function Paired(seps: seq<Sep>, k: Mark, opens: bool): (r: seq<Sep>)
    requires IsPair(k)
    ensures |r| == |seps|
  {
    if seps == [] then []
    else if seps[0] == Raw(k)
    then [Made(if opens then Opening(KindOf(k)) else Closing(KindOf(k)))] + Paired(seps[1..], k, !opens)
    else [seps[0]] + Paired(seps[1..], k, opens)
  }

  function CountOf(seps: seq<Sep>, k: Mark): nat {
    if seps == [] then 0 else (if seps[0] == Raw(k) then 1 else 0) + CountOf(seps[1..], k)
  }

  predicate InPairs(seps: seq<Sep>, k: Mark) { CountOf(seps, k) % 2 == 0 }

  /** How many come before the first mark of the kind. */
  function Before(seps: seq<Sep>, k: Mark): (n: nat)
    ensures n <= |seps| && Raw(k) !in seps[..n] && (n < |seps| ==> seps[n] == Raw(k))
  {
    if seps == [] || seps[0] == Raw(k) then 0 else 1 + Before(seps[1..], k)
  }

  lemma {:induction false} CountAfter(seps: seq<Sep>, k: Mark)
    ensures var n := Before(seps, k);
            if n < |seps| then CountOf(seps, k) == 1 + CountOf(seps[n + 1..], k) else CountOf(seps, k) == 0
  {
    if seps != [] && seps[0] != Raw(k) {
      CountAfter(seps[1..], k);
      var n := Before(seps[1..], k);
      if n < |seps[1..]| { assert seps[1..][n + 1..] == seps[n + 2..]; }
    }
  }

  lemma Prepend<T>(x: T, a: seq<T>, b: seq<T>)
    ensures [x] + (a + b) == ([x] + a) + b
  {
  }

  lemma {:induction false} PairedSplits(seps: seq<Sep>, k: Mark, opens: bool, n: nat)
    requires IsPair(k) && n < |seps| && seps[n] == Raw(k) && Raw(k) !in seps[..n]
    ensures Paired(seps, k, opens)
            == seps[..n]
                + ([Made(if opens then Opening(KindOf(k)) else Closing(KindOf(k)))] + Paired(seps[n + 1..], k, !opens))
  {
    if n > 0 {
      assert seps[0] == seps[..n][0] && seps[1..][..n - 1] == seps[..n][1..] && seps[1..][n..] == seps[n + 1..];
      PairedSplits(seps[1..], k, opens, n - 1);
      Prepend(seps[0], seps[1..][..n - 1],
              [Made(if opens then Opening(KindOf(k)) else Closing(KindOf(k)))] + Paired(seps[n + 1..], k, !opens));
      assert [seps[0]] + seps[..n][1..] == seps[..n];
    }
  }

  /** The marks of two characters that were there are gone when the pass for one comes. */
  predicate IsTurn(seps: seq<Sep>, k: Mark) {
    && (k.Star? ==> Raw(Stars) !in seps)
    && (k.Line? ==> Raw(Lines) !in seps)
  }

  /** Whether the weave starts with something that is not the character. */
  lemma WeaveStarts(texts: seq<string>, seps: seq<Sep>, before: Sep, c: char)
    requires AreApart(texts, seps) && c in DELIMITERS && before.Raw? && Delimiter(before.mark) == [c]
    requires seps != [] ==> texts[0] != "" || Separate(before, seps[0])
    ensures Weave(texts, seps) == "" || Weave(texts, seps)[0] != c
    ensures seps != [] ==> Weave(texts, seps) != ""
  {
    assert texts[0] in texts;
    if texts[0] != "" {
      assert texts[0][0] in texts[0] && Weave(texts, seps)[0] == texts[0][0];
    } else if seps != [] {
      assert Weave(texts, seps)[0] == TextOf(seps[0])[0];
      if seps[0].Made? { TagSpelling(seps[0].tag); }
    }
  }

  // ---- What stands between two marks of a kind ----

  /** Every occurrence of the character is followed, in the text, by another. */
  predicate Lone(s: string, c: char) { forall i | 0 <= i < |s| && s[i] == c :: i + 1 < |s| && s[i + 1] != c }

  lemma LoneAfter(a: string, b: string, c: char)
    requires Lone(b, c) && c !in a
    ensures Lone(a + b, c)
  {
    forall i | 0 <= i < |a + b| && (a + b)[i] == c ensures i + 1 < |a + b| && (a + b)[i + 1] != c {
      assert i >= |a| ==> (a + b)[i] == b[i - |a|];
    }
  }

  lemma LoneFirst(b: string, c: char)
    requires Lone(b, c) && b != "" && b[0] != c
    ensures Lone([c] + b, c)
  {
    forall i | 0 <= i < |[c] + b| && ([c] + b)[i] == c ensures i + 1 < |[c] + b| && ([c] + b)[i + 1] != c {
      assert i >= 1 ==> ([c] + b)[i] == b[i - 1];
    }
  }

  lemma {:induction false} WeaveHasNo(texts: seq<string>, seps: seq<Sep>, c: char)
    requires |texts| == |seps| + 1 && (forall t <- texts :: c !in t) && forall s <- seps :: c !in TextOf(s)
    ensures c !in Weave(texts, seps)
  {
    assert texts[0] in texts;
    if seps != [] {
      assert seps[0] in seps;
      WeaveHasNo(texts[1..], seps[1..], c);
    }
  }

  lemma NextIsOther(texts: seq<string>, seps: seq<Sep>, n: nat, c: char)
    requires AreApart(texts, seps) && 1 <= n < |seps| && c in DELIMITERS
    requires seps[0].Raw? && Delimiter(seps[0].mark) == [c] && seps[n].Raw? && Delimiter(seps[n].mark)[0] == c
    ensures var w := Weave(texts[1..][..n], seps[1..][..n - 1]); w != "" && w[0] != c
  {
    assert texts[1] in texts;
    if texts[1] != "" {
      assert texts[1][0] in texts[1];
    } else {
      assert n > 1 && seps[1..][..n - 1][0] == seps[1];
      if seps[1].Made? { TagSpelling(seps[1].tag); }
    }
  }

  lemma HasNoMark(s: Sep, k: Mark)
    requires IsPair(k) && s != Raw(k) && !(s.Raw? && Delimiter(s.mark) == [Delimiter(k)[0]])
    requires k.Star? ==> s != Raw(Stars)
    requires k.Line? ==> s != Raw(Lines)
    ensures Delimiter(k)[0] !in TextOf(s)
  {
    if s.Made? { TagHasNoDelimiter(s.tag, Delimiter(k)[0]); }
  }

  lemma LoneStep(sep: Sep, w: string, k: Mark)
    requires (k.Stars? || k.Lines?) && sep != Raw(k) && Lone(w, Delimiter(k)[0])
    requires sep.Raw? && Delimiter(sep.mark) == [Delimiter(k)[0]] ==> w != "" && w[0] != Delimiter(k)[0]
    ensures Lone(TextOf(sep) + w, Delimiter(k)[0])
  {
    if sep.Raw? && Delimiter(sep.mark) == [Delimiter(k)[0]] {
      LoneFirst(w, Delimiter(k)[0]);
    } else {
      HasNoMark(sep, k);
      LoneAfter(TextOf(sep), w, Delimiter(k)[0]);
    }
  }

  lemma InnerStep(texts: seq<string>, seps: seq<Sep>, k: Mark, n: nat, c: char)
    requires AreApart(texts, seps) && (k.Stars? || k.Lines?) && Delimiter(k)[0] == c
    requires 1 <= n < |seps| && seps[0] != Raw(k) && seps[n] == Raw(k)
    requires Lone(Weave(texts[1..][..n], seps[1..][..n - 1]), c)
    ensures Lone(Weave(texts[..n + 1], seps[..n]), c)
  {
    var w := Weave(texts[1..][..n], seps[1..][..n - 1]);
    if seps[0].Raw? && Delimiter(seps[0].mark) == [c] { NextIsOther(texts, seps, n, c); }
    LoneStep(seps[0], w, k);
    assert texts[0] in texts;
    LoneAfter(texts[0], TextOf(seps[0]) + w, c);
    assert texts[1..][..n] == texts[..n + 1][1..] && seps[1..][..n - 1] == seps[..n][1..];
  }

  /** Between two marks of two characters, the mark of one is always lone. */
  lemma {:induction false} InnerIsLone(texts: seq<string>, seps: seq<Sep>, k: Mark, n: nat, c: char)
    requires AreApart(texts, seps) && (k.Stars? || k.Lines?) && Delimiter(k)[0] == c
    requires n < |seps| && seps[n] == Raw(k) && Raw(k) !in seps[..n]
    ensures Lone(Weave(texts[..n + 1], seps[..n]), c)
  {
    if n == 0 {
      assert texts[0] in texts && Weave(texts[..1], seps[..0]) == texts[0];
    } else {
      assert seps[0] == seps[..n][0] && seps[1..][..n - 1] == seps[..n][1..];
      TailIsApart(texts, seps);
      InnerIsLone(texts[1..], seps[1..], k, n - 1, c);
      InnerStep(texts, seps, k, n, c);
    }
  }

  // ---- One pair ----

  lemma {:induction false} FindsDouble(s: string, c: char, j: nat, end: nat)
    requires j <= end && end + 2 <= |s| && s[end..end + 2] == [c, c]
    requires forall i | j <= i < end :: s[i] != '\n' && (s[i] == c ==> s[i + 1] != c)
    ensures FindMark(s, [c, c], j, NotNewline) == Some(end)
    decreases end - j
  {
    if j < end {
      assert s[j..j + 2] == [s[j], s[j + 1]];
      FindsDouble(s, c, j + 1, end);
    }
  }

  lemma DoubleAt(c: char, e: string, rest: string)
    requires e != "" && Lone(e, c) && '\n' !in e
    ensures var s := [c, c] + e + [c, c] + rest;
            FindMark(s, [c, c], 3, NotNewline) == Some(|e| + 2)
  {
    var s := [c, c] + e + [c, c] + rest;
    forall i | 3 <= i < |e| + 2 ensures s[i] != '\n' && (s[i] == c ==> s[i + 1] != c) {
      assert s[i] == e[i - 2];
      if s[i] == c { assert s[i + 1] == e[i - 1]; }
    }
    assert s[|e| + 2..|e| + 4] == [c, c];
    FindsDouble(s, c, 3, |e| + 2);
  }

  lemma DoubleMatches(c: char, e: string, rest: string)
    requires e != "" && Lone(e, c) && '\n' !in e
    ensures MarkedAt([c, c] + e + [c, c] + rest, [c, c], NotNewline, "<b>", "</b>")
            == Some(Match(|e| + 4, "<b>" + e + "</b>"))
  {
    DoubleAt(c, e, rest);
    var s := [c, c] + e + [c, c] + rest;
    assert s[2..|e| + 2] == e && s[2] == e[0];
  }

  predicate IsInner(k: Mark, e: string)
    requires IsPair(k)
  {
    && e != "" && (k.Tick? || '\n' !in e)
    && (if k.Stars? || k.Lines? then Lone(e, Delimiter(k)[0]) else Delimiter(k)[0] !in e)
  }

  lemma PairMatches(k: Mark, e: string, rest: string)
    requires IsPair(k) && IsInner(k, e)
    ensures var d := Delimiter(k);
            MatchAt(PassFor(k), d + e + d + rest)
            == Some(Match(|d + e + d|, Spelled(Opening(KindOf(k))) + e + Spelled(Closing(KindOf(k)))))
  {
    hide MarkedAt, Lone;
    match k
    case Tick => TelegramForms.SpanMatches("`", e, rest, NotBacktick, "<code>", "</code>");
    case Star => TelegramForms.SpanMatches("*", e, rest, NotNewline, "<i>", "</i>");
    case Line => TelegramForms.SpanMatches("_", e, rest, NotNewline, "<i>", "</i>");
    case Stars => assert ['*', '*'] == "**"; DoubleMatches('*', e, rest);
    case Lines => assert ['_', '_'] == "__"; DoubleMatches('_', e, rest);
  }

  lemma OnePair(k: Mark, e: string, rest: string)
    requires IsPair(k) && IsInner(k, e)
    ensures var d := Delimiter(k);
            Rewrite(PassFor(k), d + (e + (d + rest)))
            == Spelled(Opening(KindOf(k))) + (e + (Spelled(Closing(KindOf(k))) + Rewrite(PassFor(k), rest)))
  {
    var p, d := PassFor(k), Delimiter(k);
    var a, z := Spelled(Opening(KindOf(k))), Spelled(Closing(KindOf(k)));
    PairMatches(k, e, rest);
    TelegramForms.FirstMatch(p, d + e + d, rest, MatchAt(p, d + e + d + rest), a + e + z);
    TelegramDocuments.Regroup(d, e, d, rest);
    TelegramDocuments.Regroup(a, e, z, Rewrite(p, rest));
  }

  // ---- One pass ----

  /** A pass over a text, and what stands after it, where none of its matches starts. */
  lemma Steps(p: Pattern, text: string, sep: string, rest: string)
    requires IsTelegram(p) && Start(p) !in text && Rewrite(p, sep + rest) == sep + Rewrite(p, rest)
    ensures Rewrite(p, text + (sep + rest)) == text + (sep + Rewrite(p, rest))
  {
    PassCopies(p, text, sep + rest);
  }

  /** A single mark is passed by where the pass looks for more in a row. */
  lemma PassesBy(p: Pattern, sep: Sep, texts: seq<string>, seps: seq<Sep>)
    requires IsTelegram(p) && (p.CodeBlock? || p.Bold?) && sep.Raw? && Delimiter(sep.mark) == [Start(p)]
    requires AreApart(texts, seps) && (seps != [] ==> texts[0] != "" || Separate(sep, seps[0]))
    requires Start(p) in DELIMITERS
    ensures Rewrite(p, TextOf(sep) + Weave(texts, seps)) == TextOf(sep) + Rewrite(p, Weave(texts, seps))
  {
    WeaveStarts(texts, seps, sep, Start(p));
    TelegramDocuments.LoneMark(p, Start(p), Weave(texts, seps));
  }

  lemma OtherSep(k: Mark, texts: seq<string>, seps: seq<Sep>)
    requires IsPair(k) && AreApart(texts, seps) && seps != [] && seps[0] != Raw(k) && IsTurn(seps, k)
    ensures var p, rest := PassFor(k), Weave(texts[1..], seps[1..]);
            Rewrite(p, TextOf(seps[0]) + rest) == TextOf(seps[0]) + Rewrite(p, rest)
  {
    var p, rest := PassFor(k), Weave(texts[1..], seps[1..]);
    TailIsApart(texts, seps);
    if seps[0].Raw? && Delimiter(seps[0].mark) == [Start(p)] {
      PassesBy(p, seps[0], texts[1..], seps[1..]);
    } else {
      assert seps[0] in seps;
      HasNoMark(seps[0], k);
      PassCopies(p, TextOf(seps[0]), rest);
    }
  }

  lemma InnerIsNotEmpty(k: Mark, texts: seq<string>, seps: seq<Sep>)
    requires IsPair(k) && AreApart(texts, seps) && Before(seps, k) < |seps|
    requires texts[0] != "" || Separate(Raw(k), seps[0])
    ensures Weave(texts[..Before(seps, k) + 1], seps[..Before(seps, k)]) != ""
  {
    var n := Before(seps, k);
    if texts[0] == "" && n > 0 && seps[0].Made? { TagSpelling(seps[0].tag); }
  }

  lemma InnerHasNoNewline(texts: seq<string>, seps: seq<Sep>, n: nat)
    requires AreApart(texts, seps) && '\n' !in texts[0] && n < |seps|
    ensures '\n' !in Weave(texts[..n + 1], seps[..n])
  {
    var ts, ss := texts[..n + 1], seps[..n];
    forall t <- ts ensures '\n' !in t {
      var i :| 0 <= i < |ts| && ts[i] == t;
      assert texts[i] == t;
    }
    forall x <- ss ensures '\n' !in TextOf(x) {}
    WeaveHasNo(ts, ss, '\n');
  }

  lemma InnerHasNoMark(texts: seq<string>, seps: seq<Sep>, k: Mark)
    requires IsPair(k) && AreApart(texts, seps) && IsTurn(seps, k) && (k.Tick? || k.Star? || k.Line?)
    requires Before(seps, k) < |seps|
    ensures Delimiter(k)[0] !in Weave(texts[..Before(seps, k) + 1], seps[..Before(seps, k)])
  {
    var n, c := Before(seps, k), Delimiter(k)[0];
    var ts, ss := texts[..n + 1], seps[..n];
    forall t <- ts ensures c !in t { assert t in texts; }
    forall x <- ss ensures c !in TextOf(x) {
      assert x in seps;
      HasNoMark(x, k);
    }
    WeaveHasNo(ts, ss, c);
  }

  lemma InnerIs(k: Mark, texts: seq<string>, seps: seq<Sep>)
    requires IsPair(k) && AreApart(texts, seps) && '\n' !in texts[0] && IsTurn(seps, k)
    requires Before(seps, k) < |seps| && (texts[0] != "" || Separate(Raw(k), seps[0]))
    ensures IsInner(k, Weave(texts[..Before(seps, k) + 1], seps[..Before(seps, k)]))
  {
    InnerIsNotEmpty(k, texts, seps);
    InnerHasNoNewline(texts, seps, Before(seps, k));
    if k.Stars? || k.Lines? {
      InnerIsLone(texts, seps, k, Before(seps, k), Delimiter(k)[0]);
    } else {
      InnerHasNoMark(texts, seps, k);
    }
  }

  lemma PairAfter(k: Mark, text: string, e: string, rest: string)
    requires IsPair(k) && Delimiter(k)[0] !in text && IsInner(k, e)
    ensures var d := Delimiter(k);
            Rewrite(PassFor(k), text + (d + (e + (d + rest))))
            == text + (Spelled(Opening(KindOf(k))) + (e + (Spelled(Closing(KindOf(k))) + Rewrite(PassFor(k), rest))))
  {
    OnePair(k, e, rest);
    PassCopies(PassFor(k), text, Delimiter(k) + (e + (Delimiter(k) + rest)));
  }

  lemma PairIsThere(texts: seq<string>, seps: seq<Sep>, k: Mark)
    requires IsPair(k) && AreApart(texts, seps) && InPairs(seps, k) && IsTurn(seps, k) && seps != []
             && seps[0] == Raw(k)
    ensures var n := Before(seps[1..], k);
            && n < |seps[1..]| && InPairs(seps[1..][n + 1..], k) && IsTurn(seps[1..][n + 1..], k)
            && IsInner(k, Weave(texts[1..][..n + 1], seps[1..][..n]))
  {
    var ts, ss := texts[1..], seps[1..];
    TailIsApart(texts, seps);
    CountAfter(ss, k);
    assert ss[0] == seps[1] && ts[0] == texts[1];
    InnerIs(k, ts, ss);
  }

  /** The pass starts with the first pair and goes on after it. */
  lemma FirstPair(texts: seq<string>, seps: seq<Sep>, k: Mark)
    requires IsPair(k) && AreApart(texts, seps) && InPairs(seps, k) && IsTurn(seps, k) && seps != []
             && seps[0] == Raw(k)
    ensures var n := Before(seps[1..], k);
            && n < |seps[1..]|
            && Rewrite(PassFor(k), Weave(texts, seps))
               == texts[0] + (Spelled(Opening(KindOf(k)))
                  + (Weave(texts[1..][..n + 1], seps[1..][..n])
                     + (Spelled(Closing(KindOf(k)))
                         + Rewrite(PassFor(k), Weave(texts[1..][n + 1..], seps[1..][n + 1..])))))
  {
    PairIsThere(texts, seps, k);
    var ts, ss := texts[1..], seps[1..];
    var n := Before(ss, k);
    WeaveSplits(ts, ss, n);
    assert texts[0] in texts;
    PairAfter(k, texts[0], Weave(ts[..n + 1], ss[..n]), Weave(ts[n + 1..], ss[n + 1..]));
  }

  lemma WeaveAfter(texts: seq<string>, seps: seq<Sep>, s: Sep)
    requires |texts| == |seps| + 2
    ensures Weave(texts, [s] + seps) == texts[0] + (TextOf(s) + Weave(texts[1..], seps))
  {
    assert ([s] + seps)[1..] == seps;
  }

  lemma PartsOf<T>(a: seq<T>, s: T, b: seq<T>)
    ensures var r := a + ([s] + b); |r| == |a| + 1 + |b| && r[..|a|] == a && r[|a|] == s && r[|a| + 1..] == b
  {
  }

  lemma WeaveAt(texts: seq<string>, seps: seq<Sep>, a: seq<Sep>, s: Sep, b: seq<Sep>)
    requires |texts| == |seps| + 1 && |a| < |seps| && seps[..|a|] == a && seps[|a|] == s && seps[|a| + 1..] == b
    ensures Weave(texts, seps) == Weave(texts[..|a| + 1], a) + (TextOf(s) + Weave(texts[|a| + 1..], b))
  {
    WeaveSplits(texts, seps, |a|);
  }

  lemma WeaveAround(texts: seq<string>, a: seq<Sep>, s: Sep, b: seq<Sep>)
    requires |texts| == |a| + |b| + 2
    ensures Weave(texts, a + ([s] + b)) == Weave(texts[..|a| + 1], a) + (TextOf(s) + Weave(texts[|a| + 1..], b))
  {
    PartsOf(a, s, b);
    WeaveAt(texts, a + ([s] + b), a, s, b);
  }

  lemma PairedWeaves(texts: seq<string>, seps: seq<Sep>, k: Mark)
    requires IsPair(k) && |texts| == |seps| + 1 && seps != [] && seps[0] == Raw(k) && Before(seps[1..], k) < |seps[1..]|
    ensures var n := Before(seps[1..], k);
            Weave(texts, Paired(seps, k, true))
            == texts[0] + (Spelled(Opening(KindOf(k)))
               + (Weave(texts[1..][..n + 1], seps[1..][..n])
                  + (Spelled(Closing(KindOf(k))) + Weave(texts[1..][n + 1..], Paired(seps[1..][n + 1..], k, true)))))
  {
    var ts, ss := texts[1..], seps[1..];
    var n := Before(ss, k);
    PairedSplits(ss, k, false, n);
    WeaveAfter(texts, Paired(ss, k, false), Made(Opening(KindOf(k))));
    WeaveAround(ts, ss[..n], Made(Closing(KindOf(k))), Paired(ss[n + 1..], k, true));
  }

  lemma PassOther(texts: seq<string>, seps: seq<Sep>, k: Mark)
    requires IsPair(k) && AreApart(texts, seps) && IsTurn(seps, k) && seps != [] && seps[0] != Raw(k)
    requires Rewrite(PassFor(k), Weave(texts[1..], seps[1..])) == Weave(texts[1..], Paired(seps[1..], k, true))
    ensures Rewrite(PassFor(k), Weave(texts, seps)) == Weave(texts, Paired(seps, k, true))
  {
    assert texts[0] in texts;
    OtherSep(k, texts, seps);
    Steps(PassFor(k), texts[0], TextOf(seps[0]), Weave(texts[1..], seps[1..]));
    WeaveAfter(texts, Paired(seps[1..], k, true), seps[0]);
  }

  lemma AfterPair(texts: seq<string>, seps: seq<Sep>, k: Mark) returns (ts: seq<string>, ss: seq<Sep>)
    requires IsPair(k) && AreApart(texts, seps) && InPairs(seps, k) && IsTurn(seps, k) && seps != []
             && seps[0] == Raw(k)
    ensures AreApart(ts, ss) && InPairs(ss, k) && IsTurn(ss, k) && |ss| < |seps|
    ensures Rewrite(PassFor(k), Weave(ts, ss)) == Weave(ts, Paired(ss, k, true)) ==>
              Rewrite(PassFor(k), Weave(texts, seps)) == Weave(texts, Paired(seps, k, true))
  {
    PairIsThere(texts, seps, k);
    TailIsApart(texts, seps);
    var n := Before(seps[1..], k);
    DropIsApart(texts[1..], seps[1..], n + 1);
    ts, ss := texts[1..][n + 1..], seps[1..][n + 1..];
    FirstPair(texts, seps, k);
    PairedWeaves(texts, seps, k);
  }

  /** The marks of a kind become tags, the first of each two opening, and nothing else changes. */
  lemma {:induction false} PassPairs(texts: seq<string>, seps: seq<Sep>, k: Mark)
    requires IsPair(k) && AreApart(texts, seps) && InPairs(seps, k) && IsTurn(seps, k)
    ensures Rewrite(PassFor(k), Weave(texts, seps)) == Weave(texts, Paired(seps, k, true))
    decreases |seps|
  {
    if seps == [] {
      assert texts[0] in texts;
      TelegramForms.PassLeaves(PassFor(k), texts[0]);
    } else if seps[0] != Raw(k) {
      TailIsApart(texts, seps);
      PassPairs(texts[1..], seps[1..], k);
      PassOther(texts, seps, k);
    } else {
      var ts, ss := AfterPair(texts, seps, k);
      PassPairs(ts, ss, k);
    }
  }

  lemma NoTick(s: Sep)
    requires s != Raw(Tick)
    ensures '`' !in TextOf(s)
  {
    HasNoMark(s, Tick);
  }

  /** No fence is found: there are no three backticks in a row. */
  lemma {:induction false} NoFence(texts: seq<string>, seps: seq<Sep>, isWord: char -> bool)
    requires AreApart(texts, seps)
    ensures Rewrite(CodeBlock(isWord), Weave(texts, seps)) == Weave(texts, seps)
  {
    var p := CodeBlock(isWord);
    assert texts[0] in texts;
    if seps == [] {
      TelegramForms.PassLeaves(p, texts[0]);
    } else {
      var rest := Weave(texts[1..], seps[1..]);
      TailIsApart(texts, seps);
      NoFence(texts[1..], seps[1..], isWord);
      if seps[0] == Raw(Tick) {
        PassesBy(p, seps[0], texts[1..], seps[1..]);
      } else {
        NoTick(seps[0]);
        PassCopies(p, TextOf(seps[0]), rest);
      }
      Steps(p, texts[0], TextOf(seps[0]), rest);
    }
  }
}
