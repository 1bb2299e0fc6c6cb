/** All seven passes over texts with marks in any order, and exactly when the tags nest. */
module TelegramOverlaps {
  import HtmlEntities
  import opened Patterns
  import TelegramDocuments
  import opened TelegramForms
  import opened TelegramHtml
  import opened TelegramMarks
  import opened TelegramNesting
  import opened Wrappers

  // ---- The passes for pairs, one after the other ----

  lemma {:induction false} PairedAt(seps: seq<Sep>, k: Mark, opens: bool, i: nat)
    requires IsPair(k) && i < |seps|
    ensures var r := Paired(seps, k, opens)[i]; if seps[i] == Raw(k) then r.Made? else r == seps[i]
  {
    if i > 0 { PairedAt(seps[1..], k, if seps[0] == Raw(k) then !opens else opens, i - 1); }
  }

  lemma PairedIsApart(texts: seq<string>, seps: seq<Sep>, k: Mark)
    requires IsPair(k) && AreApart(texts, seps)
    ensures AreApart(texts, Paired(seps, k, true))
  {
    var r := Paired(seps, k, true);
    forall i | 1 <= i < |r| ensures '\n' !in texts[i] && (texts[i] != "" || Separate(r[i - 1], r[i])) {
      PairedAt(seps, k, true, i - 1);
      PairedAt(seps, k, true, i);
    }
  }

  /** What is left after the pass: the marks of the kind are gone, the others are as they were. */
  lemma PairedLeaves(seps: seq<Sep>, k: Mark, m: Mark)
    requires IsPair(k)
    ensures Raw(m) in Paired(seps, k, true) <==> m != k && Raw(m) in seps
  {
    var r := Paired(seps, k, true);
    forall i | 0 <= i < |seps| ensures r[i] == Raw(m) <==> m != k && seps[i] == Raw(m) { PairedAt(seps, k, true, i); }
    if Raw(m) in seps && m != k {
      var i :| 0 <= i < |seps| && seps[i] == Raw(m);
      assert r[i] == Raw(m);
    }
  }

  lemma {:induction false} PairedCount(seps: seq<Sep>, k: Mark, opens: bool, m: Mark)
    requires IsPair(k) && m != k
    ensures CountOf(Paired(seps, k, opens), m) == CountOf(seps, m)
  {
    if seps != [] {
      var r := Paired(seps, k, opens);
      var later := if seps[0] == Raw(k) then !opens else opens;
      PairedCount(seps[1..], k, later, m);
      assert r[1..] == Paired(seps[1..], k, later);
    }
  }

  predicate IsLink(s: Sep) { s.Raw? && !IsPair(s.mark) }

  function NextOf(m: Mark): Mark { if m.Open? then Middle else if m.Middle? then Close else Open }

  /** The marks of links come in threes, in order; `due` is the next one. */
  predicate LinksOk(seps: seq<Sep>, due: Mark) {
    if seps == [] then due == Open
    else if IsLink(seps[0]) then seps[0].mark == due && LinksOk(seps[1..], NextOf(due))
    else LinksOk(seps[1..], due)
  }

  lemma {:induction false} PairedLinks(seps: seq<Sep>, k: Mark, opens: bool, due: Mark)
    requires IsPair(k) && LinksOk(seps, due)
    ensures LinksOk(Paired(seps, k, opens), due)
  {
    if seps != [] {
      var r := Paired(seps, k, opens);
      var later := if seps[0] == Raw(k) then !opens else opens;
      PairedLinks(seps[1..], k, later, if IsLink(seps[0]) then NextOf(due) else due);
      assert r[1..] == Paired(seps[1..], k, later);
    }
  }

  function ThreePaired(seps: seq<Sep>): seq<Sep> {
    Paired(Paired(Paired(seps, Tick, true), Stars, true), Lines, true)
  }

  function AllPaired(seps: seq<Sep>): seq<Sep> { Paired(Paired(ThreePaired(seps), Star, true), Line, true) }

  ghost predicate AllInPairs(seps: seq<Sep>) { forall k | IsPair(k) :: InPairs(seps, k) }

  lemma {:induction false} NoneCounted(seps: seq<Sep>, k: Mark)
    requires Raw(k) !in seps
    ensures CountOf(seps, k) == 0
  {
    if seps != [] { NoneCounted(seps[1..], k); }
  }

  lemma PairedInPairs(seps: seq<Sep>, k: Mark)
    requires IsPair(k) && AllInPairs(seps)
    ensures AllInPairs(Paired(seps, k, true))
  {
    var r := Paired(seps, k, true);
    forall m | IsPair(m) ensures InPairs(r, m) {
      if m == k {
        PairedLeaves(seps, k, k);
        NoneCounted(r, k);
      } else {
        PairedCount(seps, k, true, m);
      }
    }
  }

  /** One pass, and what it leaves for the next. */
  lemma Stage(texts: seq<string>, seps: seq<Sep>, k: Mark)
    requires IsPair(k) && AreApart(texts, seps) && AllInPairs(seps) && IsTurn(seps, k)
    ensures var r := Paired(seps, k, true);
            && Rewrite(PassFor(k), Weave(texts, seps)) == Weave(texts, r)
            && AreApart(texts, r) && AllInPairs(r)
            && (forall m | IsPair(m) :: Raw(m) in r <==> m != k && Raw(m) in seps)
  {
    assert InPairs(seps, k);
    PassPairs(texts, seps, k);
    PairedIsApart(texts, seps, k);
    PairedInPairs(seps, k);
    forall m | IsPair(m) ensures Raw(m) in Paired(seps, k, true) <==> m != k && Raw(m) in seps {
      PairedLeaves(seps, k, m);
    }
  }

  lemma FirstStages(texts: seq<string>, seps: seq<Sep>, isWord: char -> bool)
    requires AreApart(texts, seps) && AllInPairs(seps)
    ensures var r := ThreePaired(seps);
            && Rewrite(Bold("__"), Rewrite(Bold("**"), CodeSpans(Weave(texts, seps), isWord))) == Weave(texts, r)
            && AreApart(texts, r) && AllInPairs(r) && Raw(Tick) !in r && Raw(Stars) !in r && Raw(Lines) !in r
  {
    NoFence(texts, seps, isWord);
    Stage(texts, seps, Tick);
    var a := Paired(seps, Tick, true);
    Stage(texts, a, Stars);
    Stage(texts, Paired(a, Stars, true), Lines);
  }

  lemma LastStages(texts: seq<string>, seps: seq<Sep>)
    requires AreApart(texts, seps) && AllInPairs(seps) && Raw(Tick) !in seps && Raw(Stars) !in seps
             && Raw(Lines) !in seps
    ensures var r := Paired(Paired(seps, Star, true), Line, true);
            && Rewrite(Italic("_"), Rewrite(Italic("*"), Weave(texts, seps))) == Weave(texts, r)
            && AreApart(texts, r) && (forall m | IsPair(m) :: Raw(m) !in r)
  {
    Stage(texts, seps, Star);
    Stage(texts, Paired(seps, Star, true), Line);
  }

  lemma LinksLast(seps: seq<Sep>)
    requires LinksOk(seps, Open)
    ensures LinksOk(AllPaired(seps), Open)
  {
    PairedLinks(seps, Tick, true, Open);
    var a := Paired(seps, Tick, true);
    PairedLinks(a, Stars, true, Open);
    PairedLinks(Paired(a, Stars, true), Lines, true, Open);
    PairedLinks(ThreePaired(seps), Star, true, Open);
    PairedLinks(Paired(ThreePaired(seps), Star, true), Line, true, Open);
  }

  /** Six passes. */
  lemma PairsPass(texts: seq<string>, seps: seq<Sep>, isWord: char -> bool)
    requires AreApart(texts, seps) && AllInPairs(seps) && LinksOk(seps, Open)
    ensures var r := AllPaired(seps);
            && Emphasis(CodeSpans(Weave(texts, seps), isWord)) == Weave(texts, r)
            && AreApart(texts, r) && (forall m | IsPair(m) :: Raw(m) !in r) && LinksOk(r, Open)
  {
    FirstStages(texts, seps, isWord);
    LastStages(texts, ThreePaired(seps));
    LinksLast(seps);
  }

  // ---- The pass for links ----

  /** Texts, a tag after each, and a last one. */
  function Woven(texts: seq<string>, tags: seq<Tag>): string
    requires |texts| == |tags| + 1
  {
    if tags == [] then texts[0] else texts[0] + (Spelled(tags[0]) + Woven(texts[1..], tags[1..]))
  }

  function TagsIn(seps: seq<Sep>): seq<Tag> {
    if seps == [] then [] else (if seps[0].Made? then [seps[0].tag] else []) + TagsIn(seps[1..])
  }

  predicate AllMade(seps: seq<Sep>) { forall s <- seps :: s.Made? }

  lemma {:induction false} MadeIsWoven(texts: seq<string>, seps: seq<Sep>)
    requires |texts| == |seps| + 1 && AllMade(seps)
    ensures |TagsIn(seps)| == |seps| && Weave(texts, seps) == Woven(texts, TagsIn(seps))
  {
    if seps != [] {
      assert seps[0] in seps;
      MadeIsWoven(texts[1..], seps[1..]);
      assert TagsIn(seps)[1..] == TagsIn(seps[1..]);
    }
  }

  /** The last text of one list and the first of the other, with the end of the attribute between them. */
  function Joined(a: seq<string>, b: seq<string>): (r: seq<string>)
    requires a != [] && b != []
    ensures |r| == |a| + |b| - 1
  {
    if |a| == 1 then [a[0] + ("\">" + b[0])] + b[1..] else [a[0]] + Joined(a[1..], b)
  }

  lemma ThreeParts(a: string, b: string, c: string)
    ensures (a + b) + c == a + (b + c)
  {
  }

  lemma WovenCons(x: string, texts: seq<string>, g: Tag, tags: seq<Tag>)
    requires |texts| == |tags| + 1
    ensures Woven([x] + texts, [g] + tags) == x + (Spelled(g) + Woven(texts, tags))
  {
    assert ([x] + texts)[1..] == texts && ([g] + tags)[1..] == tags;
  }

  lemma Uncons<T>(a: seq<T>)
    requires a != []
    ensures a == [a[0]] + a[1..]
  {
  }

  lemma UnconsSum<T>(a: seq<T>, b: seq<T>)
    requires a != []
    ensures a + b == [a[0]] + (a[1..] + b)
  {
  }

  lemma WovenFirst(x: string, b: seq<string>, t: seq<Tag>)
    requires |b| == |t| + 1
    ensures Woven([x + ("\">" + b[0])] + b[1..], t) == x + ("\">" + Woven(b, t))
  {
    if t != [] {
      Uncons(t);
      WovenCons(x + ("\">" + b[0]), b[1..], t[0], t[1..]);
      var rest := Spelled(t[0]) + Woven(b[1..], t[1..]);
      ThreeParts(x, "\">" + b[0], rest);
      ThreeParts("\">", b[0], rest);
    }
  }

  lemma {:induction false} WovenJoined(a: seq<string>, s: seq<Tag>, b: seq<string>, t: seq<Tag>)
    requires |a| == |s| + 1 && |b| == |t| + 1
    ensures Woven(Joined(a, b), s + t) == Woven(a, s) + ("\">" + Woven(b, t))
  {
    if s == [] {
      assert s + t == t;
      WovenFirst(a[0], b, t);
    } else {
      WovenJoined(a[1..], s[1..], b, t);
      UnconsSum(s, t);
      WovenCons(a[0], Joined(a[1..], b), s[0], s[1..] + t);
      FourParts(a[0], Spelled(s[0]), Woven(a[1..], s[1..]), "\">" + Woven(b, t));
    }
  }

  lemma {:induction false} WovenAround(a: seq<string>, s: seq<Tag>, g: Tag, b: seq<string>, t: seq<Tag>)
    requires |a| == |s| + 1 && |b| == |t| + 1
    ensures Woven(a + b, s + ([g] + t)) == Woven(a, s) + (Spelled(g) + Woven(b, t))
  {
    if s == [] {
      assert s + ([g] + t) == [g] + t && a + b == [a[0]] + b;
      WovenCons(a[0], b, g, t);
    } else {
      WovenAround(a[1..], s[1..], g, b, t);
      UnconsSum(s, [g] + t);
      UnconsSum(a, b);
      WovenCons(a[0], a[1..] + b, s[0], s[1..] + ([g] + t));
      FourParts(a[0], Spelled(s[0]), Woven(a[1..], s[1..]), Spelled(g) + Woven(b, t));
    }
  }

  /** The tags in the order in which they are sent: a link's target comes before its text. */
  function LinkTags(seps: seq<Sep>): seq<Tag>
    decreases |seps|
  {
    if seps == [] then []
    else if seps[0].Made? then [seps[0].tag] + LinkTags(seps[1..])
    else
      var ss := seps[1..];
      var n := Before(ss, Middle);
      if n == |ss| then []
      else
        var us := ss[n + 1..];
        var m := Before(us, Close);
        if m == |us| then []
        else [Opening(LinkTag)] + ((TagsIn(us[..m]) + TagsIn(ss[..n])) + ([Closing(LinkTag)] + LinkTags(us[m + 1..])))
  }

  /** The texts in that order. */
  function LinkTexts(texts: seq<string>, seps: seq<Sep>): seq<string>
    requires |texts| == |seps| + 1
    decreases |seps|, 1
  {
    if seps == [] then texts
    else if seps[0].Made? then [texts[0]] + LinkTexts(texts[1..], seps[1..])
    else
      var n := Before(seps[1..], Middle);
      if n == |seps[1..]| then []
      else [texts[0]] + AnchorTexts(texts[1..][..n + 1], texts[1..][n + 1..], seps[1..][n + 1..])
  }

  /** From the target of a link on; `ts` are the texts before it. */
  function AnchorTexts(ts: seq<string>, vs: seq<string>, us: seq<Sep>): seq<string>
    requires ts != [] && |vs| == |us| + 1
    decreases |us|, 2
  {
    var m := Before(us, Close);
    if m == |us| then [] else Joined(vs[..m + 1], ts) + LinkTexts(vs[m + 1..], us[m + 1..])
  }

  /** Only links are left, and they are whole. */
  predicate OnlyLinks(seps: seq<Sep>, due: Mark) {
    LinksOk(seps, due) && forall s <- seps :: s.Made? || IsLink(s)
  }

  lemma {:induction false} DueComes(seps: seq<Sep>, due: Mark)
    requires OnlyLinks(seps, due) && due != Open && IsLink(Raw(due))
    ensures var n := Before(seps, due);
            n < |seps| && AllMade(seps[..n]) && OnlyLinks(seps[n + 1..], NextOf(due))
  {
    assert seps != [] && seps[0] in seps;
    if seps[0].Made? {
      DueComes(seps[1..], due);
      var n := Before(seps[1..], due);
      assert seps[1..][n + 1..] == seps[n + 2..] && seps[..n + 1] == [seps[0]] + seps[1..][..n];
    }
  }

  lemma RestIsLinks(seps: seq<Sep>)
    requires OnlyLinks(seps, Open) && seps != []
    ensures seps[0].Made? ==> OnlyLinks(seps[1..], Open)
    ensures !seps[0].Made? ==> seps[0] == Raw(Open) && OnlyLinks(seps[1..], Middle)
  {
    assert seps[0] in seps;
  }

  lemma MadeHasNo(texts: seq<string>, seps: seq<Sep>, c: char)
    requires |texts| == |seps| + 1 && AllMade(seps) && (forall t <- texts :: IsPlain(t)) && c in DELIMITERS
    ensures c !in Weave(texts, seps)
  {
    forall s <- seps ensures c !in TextOf(s) { TagHasNoDelimiter(s.tag, c); }
    WeaveHasNo(texts, seps, c);
  }

  /** A part of a link: only texts and tags, and not empty. */
  lemma LinkPart(texts: seq<string>, seps: seq<Sep>, before: Sep, n: nat, c: char)
    requires AreApart(texts, seps) && n < |seps| && AllMade(seps[..n]) && c in DELIMITERS
    requires texts[0] != "" || Separate(before, seps[0])
    requires (before == Raw(Open) && seps[n] == Raw(Middle)) || (before == Raw(Middle) && seps[n] == Raw(Close))
    ensures var e := Weave(texts[..n + 1], seps[..n]); e != "" && c !in e
  {
    forall t <- texts[..n + 1] ensures IsPlain(t) { assert t in texts; }
    MadeHasNo(texts[..n + 1], seps[..n], c);
    if texts[0] == "" && n > 0 {
      assert seps[..n][0] == seps[0] && seps[0] in seps[..n];
      TagSpelling(seps[0].tag);
    }
  }

  lemma SixParts(a: string, b: string, c: string, d: string, e: string, f: string)
    ensures a + b + c + d + e + f == a + (b + (c + (d + (e + f))))
  {
  }

  /** A link at the start of the text: what comes out of it. */
  lemma OneLink(e: string, url: string, rest: string)
    requires e != "" && url != "" && ']' !in e && ')' !in url
    ensures Rewrite(Link, "[" + (e + ("](" + (url + (")" + rest)))))
            == "<a href=\"" + (url + ("\">" + (e + ("</a>" + Rewrite(Link, rest)))))
  {
    LinkForm(e, url, rest);
    SixParts("[", e, "](", url, ")", rest);
    SixParts("<a href=\"", url, "\">", e, "</a>", Rewrite(Link, rest));
  }

  /** The text of a link, and what comes after it. */
  lemma LinkHead(texts: seq<string>, seps: seq<Sep>)
    requires AreApart(texts, seps) && OnlyLinks(seps, Open) && seps != [] && !seps[0].Made?
    ensures var ss, ts := seps[1..], texts[1..];
            var n := Before(ss, Middle);
            && n < |ss| && AllMade(ss[..n])
            && Weave(texts, seps)
               == texts[0] + ("[" + (Weave(ts[..n + 1], ss[..n]) + ("](" + Weave(ts[n + 1..], ss[n + 1..]))))
            && Weave(ts[..n + 1], ss[..n]) != "" && ']' !in Weave(ts[..n + 1], ss[..n])
  {
    var ss, ts := seps[1..], texts[1..];
    RestIsLinks(seps);
    TailIsApart(texts, seps);
    DueComes(ss, Middle);
    var n := Before(ss, Middle);
    WeaveSplits(ts, ss, n);
    assert ss[0] == seps[1] && ts[0] == texts[1];
    LinkPart(ts, ss, seps[0], n, ']');
  }

  lemma AfterHead(texts: seq<string>, seps: seq<Sep>)
    requires AreApart(texts, seps) && OnlyLinks(seps, Open) && seps != [] && !seps[0].Made?
    ensures var ss, ts := seps[1..], texts[1..];
            var n := Before(ss, Middle);
            && n < |ss| && AreApart(ts[n + 1..], ss[n + 1..]) && OnlyLinks(ss[n + 1..], Close)
            && ss[n + 1..] != [] && (ts[n + 1..][0] != "" || Separate(Raw(Middle), ss[n + 1..][0]))
  {
    var ss, ts := seps[1..], texts[1..];
    RestIsLinks(seps);
    TailIsApart(texts, seps);
    DueComes(ss, Middle);
    var n := Before(ss, Middle);
    DropIsApart(ts, ss, n + 1);
    DueComes(ss[n + 1..], Close);
    assert ss[n + 1..][0] == ss[n + 1] && ts[n + 1..][0] == ts[n + 1] && ss[n] == Raw(Middle);
  }

  /** The target of a link, and what comes after it. */
  lemma LinkTarget(vs: seq<string>, us: seq<Sep>)
    requires AreApart(vs, us) && OnlyLinks(us, Close) && us != [] && (vs[0] != "" || Separate(Raw(Middle), us[0]))
    ensures var m := Before(us, Close);
            && m < |us| && AllMade(us[..m]) && OnlyLinks(us[m + 1..], Open) && AreApart(vs[m + 1..], us[m + 1..])
            && Weave(vs, us) == Weave(vs[..m + 1], us[..m]) + (")" + Weave(vs[m + 1..], us[m + 1..]))
            && Weave(vs[..m + 1], us[..m]) != "" && ')' !in Weave(vs[..m + 1], us[..m])
  {
    DueComes(us, Close);
    var m := Before(us, Close);
    WeaveSplits(vs, us, m);
    LinkPart(vs, us, Raw(Middle), m, ')');
    DropIsApart(vs, us, m + 1);
  }

  lemma TagsUnfold(seps: seq<Sep>, n: nat, m: nat)
    requires seps != [] && !seps[0].Made? && n == Before(seps[1..], Middle) < |seps[1..]|
    requires m == Before(seps[1..][n + 1..], Close) < |seps[1..][n + 1..]|
    ensures var us := seps[1..][n + 1..];
            LinkTags(seps)
            == [Opening(LinkTag)]
                + ((TagsIn(us[..m]) + TagsIn(seps[1..][..n])) + ([Closing(LinkTag)] + LinkTags(us[m + 1..])))
  {
  }

  lemma TextsUnfold(texts: seq<string>, seps: seq<Sep>, n: nat)
    requires |texts| == |seps| + 1 && seps != [] && !seps[0].Made? && n == Before(seps[1..], Middle) < |seps[1..]|
    ensures LinkTexts(texts, seps)
            == [texts[0]] + AnchorTexts(texts[1..][..n + 1], texts[1..][n + 1..], seps[1..][n + 1..])
  {
  }

  lemma AnchorUnfolds(ts: seq<string>, vs: seq<string>, us: seq<Sep>, m: nat)
    requires ts != [] && |vs| == |us| + 1 && m == Before(us, Close) < |us|
    ensures AnchorTexts(ts, vs, us) == Joined(vs[..m + 1], ts) + LinkTexts(vs[m + 1..], us[m + 1..])
  {
  }

  lemma Within(texts: seq<string>, n: nat, m: nat)
    requires n + m + 2 < |texts|
    ensures forall t | t in texts[1..][..n + 1] || t in texts[1..][n + 1..][..m + 1]
            || t in texts[1..][n + 1..][m + 1..] :: t in texts
  {
  }

  /** A link in a weave: its text, its target and the rest. */
  datatype Cut = Cut(ts: seq<string>, ss: seq<Sep>, vs: seq<string>, us: seq<Sep>, rt: seq<string>, rs: seq<Sep>)

  ghost predicate IsCut(texts: seq<string>, seps: seq<Sep>, c: Cut)
    requires |texts| == |seps| + 1
  {
    && |c.ts| == |c.ss| + 1 && AllMade(c.ss) && |c.vs| == |c.us| + 1 && AllMade(c.us)
    && AreApart(c.rt, c.rs) && OnlyLinks(c.rs, Open) && |c.rs| < |seps|
    && Weave(texts, seps)
       == texts[0] + ("[" + (Weave(c.ts, c.ss) + ("](" + (Weave(c.vs, c.us) + (")" + Weave(c.rt, c.rs))))))
    && Weave(c.ts, c.ss) != "" && ']' !in Weave(c.ts, c.ss) && Weave(c.vs, c.us) != "" && ')' !in Weave(c.vs, c.us)
    && LinkTags(seps)
       == [Opening(LinkTag)] + ((TagsIn(c.us) + TagsIn(c.ss)) + ([Closing(LinkTag)] + LinkTags(c.rs)))
    && LinkTexts(texts, seps) == [texts[0]] + (Joined(c.vs, c.ts) + LinkTexts(c.rt, c.rs))
    && forall t | t in c.ts || t in c.vs || t in c.rt :: t in texts
  }

  lemma CutLink(texts: seq<string>, seps: seq<Sep>) returns (c: Cut)
    requires AreApart(texts, seps) && OnlyLinks(seps, Open) && seps != [] && !seps[0].Made?
    ensures IsCut(texts, seps, c)
  {
    LinkHead(texts, seps);
    AfterHead(texts, seps);
    var n := Before(seps[1..], Middle);
    var ts, vs, us := texts[1..][..n + 1], texts[1..][n + 1..], seps[1..][n + 1..];
    LinkTarget(vs, us);
    var m := Before(us, Close);
    c := Cut(ts, seps[1..][..n], vs[..m + 1], us[..m], vs[m + 1..], us[m + 1..]);
    TagsUnfold(seps, n, m);
    TextsUnfold(texts, seps, n);
    AnchorUnfolds(ts, vs, us, m);
    Within(texts, n, m);
  }

  lemma {:induction false} LinkCount(texts: seq<string>, seps: seq<Sep>)
    requires AreApart(texts, seps) && OnlyLinks(seps, Open)
    ensures |LinkTexts(texts, seps)| == |LinkTags(seps)| + 1
    decreases |seps|
  {
    if seps != [] {
      RestIsLinks(seps);
      if seps[0].Made? {
        TailIsApart(texts, seps);
        LinkCount(texts[1..], seps[1..]);
      } else {
        var c := CutLink(texts, seps);
        var Cut(ts, ss, vs, us, rt, rs) := c;
        LinkCount(rt, rs);
        MadeIsWoven(ts, ss);
        MadeIsWoven(vs, us);
      }
    }
  }

  lemma MadeStep(texts: seq<string>, seps: seq<Sep>)
    requires AreApart(texts, seps) && seps != [] && seps[0].Made?
    requires |LinkTexts(texts[1..], seps[1..])| == |LinkTags(seps[1..])| + 1
    requires Rewrite(Link, Weave(texts[1..], seps[1..])) == Woven(LinkTexts(texts[1..], seps[1..]), LinkTags(seps[1..]))
    ensures |LinkTexts(texts, seps)| == |LinkTags(seps)| + 1
    ensures Rewrite(Link, Weave(texts, seps)) == Woven(LinkTexts(texts, seps), LinkTags(seps))
  {
    var rest := Weave(texts[1..], seps[1..]);
    assert texts[0] in texts;
    TagHasNoDelimiter(seps[0].tag, '[');
    PassCopies(Link, Spelled(seps[0].tag), rest);
    Steps(Link, texts[0], Spelled(seps[0].tag), rest);
    WovenCons(texts[0], LinkTexts(texts[1..], seps[1..]), seps[0].tag, LinkTags(seps[1..]));
  }

  lemma LinkStep(text: string, e: string, url: string, rest: string)
    requires '[' !in text && e != "" && url != "" && ']' !in e && ')' !in url
    ensures Rewrite(Link, text + ("[" + (e + ("](" + (url + (")" + rest))))))
            == text + ("<a href=\"" + (url + ("\">" + (e + ("</a>" + Rewrite(Link, rest))))))
  {
    OneLink(e, url, rest);
    PassCopies(Link, text, "[" + (e + ("](" + (url + (")" + rest)))));
  }

  lemma WovenLink(text: string, ts: seq<string>, tt: seq<Tag>, vs: seq<string>, tv: seq<Tag>, rt: seq<string>,
                  tr: seq<Tag>)
    requires |ts| == |tt| + 1 && |vs| == |tv| + 1 && |rt| == |tr| + 1
    ensures Woven([text] + (Joined(vs, ts) + rt), [Opening(LinkTag)] + ((tv + tt) + ([Closing(LinkTag)] + tr)))
            == text + ("<a href=\"" + (Woven(vs, tv) + ("\">" + (Woven(ts, tt) + ("</a>" + Woven(rt, tr))))))
  {
    var j := Joined(vs, ts);
    WovenCons(text, j + rt, Opening(LinkTag), (tv + tt) + ([Closing(LinkTag)] + tr));
    WovenAround(j, tv + tt, Closing(LinkTag), rt, tr);
    WovenJoined(vs, tv, ts, tt);
    FourParts(Woven(vs, tv), "\">", Woven(ts, tt), "</a>" + Woven(rt, tr));
  }

  /** Links become anchors, their targets first. */
  lemma {:induction false} LinkPass(texts: seq<string>, seps: seq<Sep>)
    requires AreApart(texts, seps) && OnlyLinks(seps, Open)
    ensures |LinkTexts(texts, seps)| == |LinkTags(seps)| + 1
    ensures Rewrite(Link, Weave(texts, seps)) == Woven(LinkTexts(texts, seps), LinkTags(seps))
    decreases |seps|
  {
    LinkCount(texts, seps);
    assert texts[0] in texts;
    if seps == [] {
      PassLeaves(Link, texts[0]);
    } else if seps[0].Made? {
      RestIsLinks(seps);
      TailIsApart(texts, seps);
      LinkPass(texts[1..], seps[1..]);
      MadeStep(texts, seps);
    } else {
      var c := CutLink(texts, seps);
      var Cut(ts, ss, vs, us, rt, rs) := c;
      LinkPass(rt, rs);
      LinkStep(texts[0], Weave(ts, ss), Weave(vs, us), Weave(rt, rs));
      MadeIsWoven(ts, ss);
      MadeIsWoven(vs, us);
      WovenLink(texts[0], ts, TagsIn(ss), vs, TagsIn(us), LinkTexts(rt, rs), LinkTags(rs));
    }
  }

  // ---- Scanning what is sent ----

  lemma {:induction false} ScanWoven(texts: seq<string>, tags: seq<Tag>, open: seq<Kind>)
    requires |texts| == |tags| + 1 && forall s <- texts :: '<' !in s
    ensures Scan(Woven(texts, tags), open) == Follow(tags, open)
  {
    assert texts[0] in texts;
    if tags == [] {
      ScanNoTags(texts[0], open);
    } else {
      ScanPast(texts[0], tags[0], Woven(texts[1..], tags[1..]), open);
      if After(tags[0], open).Some? { ScanWoven(texts[1..], tags[1..], After(tags[0], open).value); }
    }
  }

  lemma {:induction false} JoinedHasNo(a: seq<string>, b: seq<string>)
    requires a != [] && b != [] && (forall s <- a :: '<' !in s) && forall s <- b :: '<' !in s
    ensures forall s <- Joined(a, b) :: '<' !in s
  {
    assert a[0] in a && b[0] in b;
    if |a| > 1 { JoinedHasNo(a[1..], b); }
  }

  lemma {:induction false} LinkTextsHaveNo(texts: seq<string>, seps: seq<Sep>)
    requires AreApart(texts, seps) && OnlyLinks(seps, Open) && forall s <- texts :: '<' !in s
    ensures forall s <- LinkTexts(texts, seps) :: '<' !in s
    decreases |seps|
  {
    if seps != [] {
      RestIsLinks(seps);
      assert texts[0] in texts;
      if seps[0].Made? {
        TailIsApart(texts, seps);
        LinkTextsHaveNo(texts[1..], seps[1..]);
      } else {
        var c := CutLink(texts, seps);
        var Cut(ts, ss, vs, us, rt, rs) := c;
        LinkTextsHaveNo(rt, rs);
        JoinedHasNo(vs, ts);
      }
    }
  }

  // ---- The whole conversion ----

  function Raws(marks: seq<Mark>): (r: seq<Sep>)
    ensures |r| == |marks| && forall i | 0 <= i < |marks| :: r[i] == Raw(marks[i])
  {
    if marks == [] then [] else [Raw(marks[0])] + Raws(marks[1..])
  }

  function EscapeAll(texts: seq<string>): (r: seq<string>)
    ensures |r| == |texts| && forall i | 0 <= i < |texts| :: r[i] == HtmlEntities.EscapeHtml(texts[i])
  {
    if texts == [] then [] else [HtmlEntities.EscapeHtml(texts[0])] + EscapeAll(texts[1..])
  }

  lemma EscapeDelimiter(m: Mark, rest: string)
    ensures HtmlEntities.EscapeHtml(Delimiter(m) + rest) == Delimiter(m) + HtmlEntities.EscapeHtml(rest)
  {
    TelegramDocuments.EscapeLeaves(Delimiter(m));
    TelegramDocuments.EscapeSplits(Delimiter(m), rest);
  }

  lemma {:induction false} EscapeWeave(texts: seq<string>, marks: seq<Mark>)
    requires |texts| == |marks| + 1
    ensures HtmlEntities.EscapeHtml(Weave(texts, Raws(marks))) == Weave(EscapeAll(texts), Raws(marks))
  {
    if marks != [] {
      EscapeWeave(texts[1..], marks[1..]);
      assert Raws(marks)[1..] == Raws(marks[1..]) && EscapeAll(texts)[1..] == EscapeAll(texts[1..]);
      var rest := Weave(texts[1..], Raws(marks[1..]));
      EscapeDelimiter(marks[0], rest);
      TelegramDocuments.EscapeSplits(texts[0], Delimiter(marks[0]) + rest);
    }
  }

  lemma EscapedAreApart(texts: seq<string>, seps: seq<Sep>)
    requires AreApart(texts, seps)
    ensures AreApart(EscapeAll(texts), seps)
  {
    var es := EscapeAll(texts);
    forall i | 0 <= i < |texts|
      ensures IsPlain(es[i]) && (texts[i] != "" ==> es[i] != "") && ('\n' !in texts[i] ==> '\n' !in es[i])
    {
      assert texts[i] in texts;
      EscapeStaysPlain(texts[i]);
    }
  }

  /** The tags that the marks become, in the order in which they are sent. */
  function TagsOf(marks: seq<Mark>): seq<Tag> { LinkTags(AllPaired(Raws(marks))) }

  /**
   Texts without delimiters and marks between them: pairs of backticks, of one or two stars or
   underscores, and the marks of whole links. Marks may follow each other directly if they are of
   different characters.
   */
  ghost predicate IsMarked(texts: seq<string>, marks: seq<Mark>) {
    AreApart(texts, Raws(marks)) && AllInPairs(Raws(marks)) && LinksOk(Raws(marks), Open)
  }

  lemma OnlyLinksLeft(seps: seq<Sep>)
    requires LinksOk(seps, Open) && forall m | IsPair(m) :: Raw(m) !in seps
    ensures OnlyLinks(seps, Open)
  {
    forall s <- seps ensures s.Made? || IsLink(s) {
      assert s.Raw? ==> s == Raw(s.mark);
    }
  }

  /** What is sent: the escaped texts, a link's target before its text, with the tags of the marks between them. */
  lemma MarksConvert(texts: seq<string>, marks: seq<Mark>, isWord: char -> bool)
    requires IsMarked(texts, marks)
    ensures var sent := LinkTexts(EscapeAll(texts), AllPaired(Raws(marks)));
            && |sent| == |TagsOf(marks)| + 1 && (forall s <- sent :: '<' !in s)
            && MarkdownToTelegramHtml(Weave(texts, Raws(marks)), isWord) == Woven(sent, TagsOf(marks))
  {
    var es, seps := EscapeAll(texts), Raws(marks);
    EscapeWeave(texts, marks);
    EscapedAreApart(texts, seps);
    PairsPass(es, seps, isWord);
    OnlyLinksLeft(AllPaired(seps));
    LinkPass(es, AllPaired(seps));
    forall s <- es ensures '<' !in s {
      var i :| 0 <= i < |es| && es[i] == s;
      EscapedHasNoTag(texts[i]);
    }
    LinkTextsHaveNo(es, AllPaired(seps));
  }

  /**
   With any number of code spans, bold and italic spans of either mark and links, in any order and
   overlapping in any way, the tags nest exactly when the tags that the marks become are closed in
   the order in which they were opened.
   */
  lemma MarksNestIff(texts: seq<string>, marks: seq<Mark>, isWord: char -> bool)
    requires IsMarked(texts, marks)
    ensures Nests(MarkdownToTelegramHtml(Weave(texts, Raws(marks)), isWord)) <==> Follow(TagsOf(marks), []) == Some([])
  {
    MarksConvert(texts, marks, isWord);
    ScanWoven(LinkTexts(EscapeAll(texts), AllPaired(Raws(marks))), TagsOf(marks), []);
  }
}
