/** Two pairs of marks of different kinds, and texts whose tags cross. */
module TelegramPairs {
  import TelegramForms
  import opened TelegramHtml
  import opened TelegramMarks
  import opened TelegramNesting
  import opened TelegramOverlaps
  import opened Wrappers

  // ---- Which tag a mark becomes ----

  lemma {:induction false} PairedExactly(seps: seq<Sep>, k: Mark, opens: bool, i: nat)
    requires IsPair(k) && i < |seps| && seps[i] == Raw(k)
    ensures Paired(seps, k, opens)[i]
            == Made(if opens == (CountOf(seps[..i], k) % 2 == 0) then Opening(KindOf(k)) else Closing(KindOf(k)))
  {
    if i > 0 {
      PairedExactly(seps[1..], k, if seps[0] == Raw(k) then !opens else opens, i - 1);
      assert seps[..i][1..] == seps[1..][..i - 1] && seps[..i][0] == seps[0];
    }
  }

  lemma {:induction false} PairedPrefix(seps: seq<Sep>, k: Mark, opens: bool, i: nat)
    requires IsPair(k) && i <= |seps|
    ensures Paired(seps, k, opens)[..i] == Paired(seps[..i], k, opens)
  {
    if i > 0 {
      var later := if seps[0] == Raw(k) then !opens else opens;
      PairedPrefix(seps[1..], k, later, i - 1);
      assert seps[..i][1..] == seps[1..][..i - 1];
    }
  }

  /** The passes for some kinds, in turn. */
  function PairAll(seps: seq<Sep>, ks: seq<Mark>): (r: seq<Sep>)
    requires forall k <- ks :: IsPair(k)
    ensures |r| == |seps|
    decreases ks
  {
    if ks == [] then seps else PairAll(Paired(seps, ks[0], true), ks[1..])
  }

  lemma {:induction false} OthersStay(seps: seq<Sep>, ks: seq<Mark>, i: nat)
    requires (forall k <- ks :: IsPair(k)) && i < |seps| && (seps[i].Made? || seps[i].mark !in ks)
    ensures PairAll(seps, ks)[i] == seps[i]
    decreases ks
  {
    if ks != [] {
      PairedAt(seps, ks[0], true, i);
      OthersStay(Paired(seps, ks[0], true), ks[1..], i);
    }
  }

  lemma {:induction false} BecomesTag(seps: seq<Sep>, ks: seq<Mark>, i: nat, k: Mark)
    requires (forall x <- ks :: IsPair(x)) && i < |seps| && k in ks && seps[i] == Raw(k)
    ensures PairAll(seps, ks)[i]
            == Made(if CountOf(seps[..i], k) % 2 == 0 then Opening(KindOf(k)) else Closing(KindOf(k)))
    decreases ks
  {
    var r := Paired(seps, ks[0], true);
    if ks[0] == k {
      PairedExactly(seps, k, true, i);
      OthersStay(r, ks[1..], i);
    } else {
      PairedAt(seps, ks[0], true, i);
      PairedPrefix(seps, ks[0], true, i);
      PairedCount(seps[..i], ks[0], true, k);
      BecomesTag(r, ks[1..], i, k);
    }
  }

  const PAIRS := [Tick, Stars, Lines, Star, Line]

  lemma OneMore(seps: seq<Sep>, k: Mark, ks: seq<Mark>)
    requires IsPair(k) && forall x <- ks :: IsPair(x)
    ensures PairAll(seps, [k] + ks) == PairAll(Paired(seps, k, true), ks)
  {
    assert ([k] + ks)[1..] == ks;
  }

  lemma PairsInTurn(seps: seq<Sep>)
    ensures AllPaired(seps) == PairAll(seps, PAIRS)
  {
    var a := Paired(seps, Tick, true);
    var b := Paired(a, Stars, true);
    var c := ThreePaired(seps);
    assert PAIRS == [Tick] + ([Stars] + ([Lines] + ([Star] + ([Line] + []))));
    OneMore(seps, Tick, [Stars] + ([Lines] + ([Star] + ([Line] + []))));
    OneMore(a, Stars, [Lines] + ([Star] + ([Line] + [])));
    OneMore(b, Lines, [Star] + ([Line] + []));
    OneMore(c, Star, [Line] + []);
    OneMore(Paired(c, Star, true), Line, []);
  }

  /** A mark of a pair opens if an even number of its kind came before, and closes otherwise. */
  lemma TagAtMark(seps: seq<Sep>, i: nat)
    requires i < |seps|
    ensures var r := AllPaired(seps);
            && |r| == |seps|
            && r[i] == if seps[i].Made? || !IsPair(seps[i].mark) then seps[i]
                       else Made(if CountOf(seps[..i], seps[i].mark) % 2 == 0 then Opening(KindOf(seps[i].mark))
                                 else Closing(KindOf(seps[i].mark)))
  {
    PairsInTurn(seps);
    if seps[i].Made? || !IsPair(seps[i].mark) {
      OthersStay(seps, PAIRS, i);
    } else {
      assert seps[i].mark in PAIRS;
      BecomesTag(seps, PAIRS, i, seps[i].mark);
    }
  }

  lemma {:induction false} TagsOfMade(seps: seq<Sep>)
    requires AllMade(seps)
    ensures LinkTags(seps) == TagsIn(seps)
  {
    if seps != [] {
      assert seps[0] in seps;
      TagsOfMade(seps[1..]);
    }
  }

  // ---- Two pairs ----

  /** How two pairs can lie; the others are these with the two exchanged. */
  datatype Order = Crossing | Inside | InTurn

  function MarksIn(o: Order, x: Mark, y: Mark): seq<Mark> {
    match o
    case Crossing => [x, y, x, y]
    case Inside => [x, y, y, x]
    case InTurn => [x, x, y, y]
  }

  function TagsFor(o: Order, x: Kind, y: Kind): seq<Tag> {
    match o
    case Crossing => [Opening(x), Opening(y), Closing(x), Closing(y)]
    case Inside => [Opening(x), Opening(y), Closing(y), Closing(x)]
    case InTurn => [Opening(x), Closing(x), Opening(y), Closing(y)]
  }

  function One(b: bool): nat { if b then 1 else 0 }

  lemma CountFirst(s: Sep, seps: seq<Sep>, k: Mark)
    ensures CountOf([s] + seps, k) == One(s == Raw(k)) + CountOf(seps, k)
  {
    assert ([s] + seps)[1..] == seps;
  }

  lemma CountThree(a: Mark, b: Mark, c: Mark, k: Mark)
    ensures CountOf([], k) == 0 && CountOf([Raw(a)], k) == One(a == k)
    ensures CountOf([Raw(a), Raw(b)], k) == One(a == k) + One(b == k)
    ensures CountOf([Raw(a), Raw(b), Raw(c)], k) == One(a == k) + One(b == k) + One(c == k)
  {
    CountFirst(Raw(c), [], k);
    CountFirst(Raw(b), [Raw(c)], k);
    CountFirst(Raw(a), [Raw(b), Raw(c)], k);
    CountFirst(Raw(b), [], k);
    CountFirst(Raw(a), [Raw(b)], k);
    CountFirst(Raw(a), [], k);
    assert [Raw(a)] + [Raw(b), Raw(c)] == [Raw(a), Raw(b), Raw(c)] && [Raw(b)] + [Raw(c)] == [Raw(b), Raw(c)];
    assert [Raw(a)] + [Raw(b)] == [Raw(a), Raw(b)] && [Raw(a)] + [] == [Raw(a)] && [Raw(b)] + [] == [Raw(b)]
           && [Raw(c)] + [] == [Raw(c)];
  }

  lemma FourMade(a: Sep, b: Sep, c: Sep, d: Sep)
    requires a.Made? && b.Made? && c.Made? && d.Made?
    ensures LinkTags([a, b, c, d]) == [a.tag, b.tag, c.tag, d.tag]
  {
    TagsOfMade([a, b, c, d]);
    assert [a, b, c, d][1..] == [b, c, d] && [b, c, d][1..] == [c, d] && [c, d][1..] == [d] && [d][1..] == [];
    assert TagsIn([c, d]) == [c.tag] + TagsIn([d]) && TagsIn([d]) == [d.tag] + TagsIn([]);
  }

  /** What becomes of a mark that comes after so many of its kind. */
  function TagFor(k: Mark, earlier: nat): Tag
    requires IsPair(k)
  {
    if earlier % 2 == 0 then Opening(KindOf(k)) else Closing(KindOf(k))
  }

  lemma MarkTag(seps: seq<Sep>, i: nat, k: Mark, earlier: seq<Sep>)
    requires i < |seps| && seps[i] == Raw(k) && IsPair(k) && seps[..i] == earlier
    ensures |AllPaired(seps)| == |seps| && AllPaired(seps)[i] == Made(TagFor(k, CountOf(earlier, k)))
  {
    TagAtMark(seps, i);
  }

  lemma FirstsOf(a: Sep, b: Sep, c: Sep, d: Sep)
    ensures var s := [a, b, c, d]; s[..0] == [] && s[..1] == [a] && s[..2] == [a, b] && s[..3] == [a, b, c]
  {
  }

  lemma AllFour<T>(r: seq<T>)
    requires |r| == 4
    ensures r == [r[0], r[1], r[2], r[3]]
  {
  }

  lemma RawsOf(a: Mark, b: Mark, c: Mark, d: Mark)
    ensures Raws([a, b, c, d]) == [Raw(a), Raw(b), Raw(c), Raw(d)]
  {
    AllFour(Raws([a, b, c, d]));
  }

  /** Four marks as tags. */
  lemma FourTags(a: Mark, b: Mark, c: Mark, d: Mark)
    requires IsPair(a) && IsPair(b) && IsPair(c) && IsPair(d)
    ensures TagsOf([a, b, c, d])
            == [TagFor(a, 0), TagFor(b, CountOf([Raw(a)], b)), TagFor(c, CountOf([Raw(a), Raw(b)], c)),
                TagFor(d, CountOf([Raw(a), Raw(b), Raw(c)], d))]
  {
    RawsOf(a, b, c, d);
    var seps := [Raw(a), Raw(b), Raw(c), Raw(d)];
    FirstsOf(Raw(a), Raw(b), Raw(c), Raw(d));
    MarkTag(seps, 0, a, []);
    MarkTag(seps, 1, b, [Raw(a)]);
    MarkTag(seps, 2, c, [Raw(a), Raw(b)]);
    MarkTag(seps, 3, d, [Raw(a), Raw(b), Raw(c)]);
    var r := AllPaired(seps);
    AllFour(r);
    FourMade(r[0], r[1], r[2], r[3]);
  }

  lemma OrderTags(o: Order, x: Mark, y: Mark)
    requires IsPair(x) && IsPair(y) && KindOf(x) != KindOf(y)
    ensures TagsOf(MarksIn(o, x, y)) == TagsFor(o, KindOf(x), KindOf(y))
  {
    match o
    case Crossing =>
      FourTags(x, y, x, y);
      CountThree(x, y, x, x);
      CountThree(x, y, x, y);
    case Inside =>
      FourTags(x, y, y, x);
      CountThree(x, y, y, x);
      CountThree(x, y, y, y);
    case InTurn =>
      FourTags(x, x, y, y);
      CountThree(x, x, y, x);
      CountThree(x, x, y, y);
  }

  lemma OrderFollows(o: Order, x: Kind, y: Kind)
    requires x != y
    ensures Follow(TagsFor(o, x, y), []) == Some([]) <==> o != Crossing
  {
    match o
    case Crossing => CrossedFails(x, y);
    case Inside => InsideWorks(x, y);
    case InTurn => InTurnWorks(x, y);
  }

  lemma CountFour(a: Mark, b: Mark, c: Mark, d: Mark, k: Mark)
    ensures CountOf([Raw(a), Raw(b), Raw(c), Raw(d)], k) == One(a == k) + One(b == k) + One(c == k) + One(d == k)
  {
    CountThree(b, c, d, k);
    CountFirst(Raw(a), [Raw(b), Raw(c), Raw(d)], k);
    assert [Raw(a)] + [Raw(b), Raw(c), Raw(d)] == [Raw(a), Raw(b), Raw(c), Raw(d)];
  }

  lemma {:induction false} NoLinks(seps: seq<Sep>)
    requires forall s <- seps :: !IsLink(s)
    ensures LinksOk(seps, Open)
  {
    if seps != [] {
      assert seps[0] in seps;
      NoLinks(seps[1..]);
    }
  }

  lemma OrderIsMarked(o: Order, x: Mark, y: Mark, texts: seq<string>)
    requires IsPair(x) && IsPair(y) && AreApart(texts, Raws(MarksIn(o, x, y)))
    ensures IsMarked(texts, MarksIn(o, x, y))
  {
    var m := MarksIn(o, x, y);
    var seps := Raws(m);
    RawsOf(m[0], m[1], m[2], m[3]);
    AllFour(m);
    forall k | IsPair(k) ensures InPairs(seps, k) { CountFour(m[0], m[1], m[2], m[3], k); }
    forall s <- seps ensures !IsLink(s) {}
    NoLinks(seps);
  }

  /**
   Two pairs of marks of different kinds among code, bold and italic, of either mark and in any
   order: the tags nest exactly when the pairs do not cross.
   */
  lemma PairsNestIff(o: Order, x: Mark, y: Mark, texts: seq<string>, isWord: char -> bool)
    requires IsPair(x) && IsPair(y) && KindOf(x) != KindOf(y) && AreApart(texts, Raws(MarksIn(o, x, y)))
    ensures Nests(MarkdownToTelegramHtml(Weave(texts, Raws(MarksIn(o, x, y))), isWord)) <==> o != Crossing
  {
    OrderIsMarked(o, x, y, texts);
    MarksNestIff(texts, MarksIn(o, x, y), isWord);
    OrderTags(o, x, y);
    OrderFollows(o, KindOf(x), KindOf(y));
  }

  // ---- Texts whose tags cross ----

  lemma FourWeave(t: string, m: Mark, u: string, n: Mark, v: string, o: Mark, w: string, p: Mark, z: string)
    ensures Weave([t, u, v, w, z], [Raw(m), Raw(n), Raw(o), Raw(p)])
            == t + (Delimiter(m) + (u + (Delimiter(n) + (v + (Delimiter(o) + (w + (Delimiter(p) + z)))))))
  {
    assert Weave([z], []) == z;
    assert Weave([w, z], [Raw(p)]) == w + (Delimiter(p) + z);
    assert Weave([v, w, z], [Raw(o), Raw(p)]) == v + (Delimiter(o) + (w + (Delimiter(p) + z)));
    assert Weave([u, v, w, z], [Raw(n), Raw(o), Raw(p)])
           == u + (Delimiter(n) + (v + (Delimiter(o) + (w + (Delimiter(p) + z)))));
  }

  lemma BareText(m: string, n: string)
    ensures "" + (m + ("" + (n + ("" + (m + ("" + (n + ""))))))) == m + n + m + n
  {
  }

  /** Two pairs that cross, with nothing between their marks. */
  lemma BareCrosses(x: Mark, y: Mark, isWord: char -> bool)
    requires IsPair(x) && IsPair(y) && KindOf(x) != KindOf(y) && Separate(Raw(x), Raw(y)) && Separate(Raw(y), Raw(x))
    ensures !Nests(MarkdownToTelegramHtml(Delimiter(x) + Delimiter(y) + Delimiter(x) + Delimiter(y), isWord))
  {
    var texts := ["", "", "", "", ""];
    RawsOf(x, y, x, y);
    FourWeave("", x, "", y, "", x, "", y, "");
    BareText(Delimiter(x), Delimiter(y));
    PairsNestIff(Crossing, x, y, texts, isWord);
  }

  lemma TagsCross(isWord: char -> bool)
    ensures !Nests(MarkdownToTelegramHtml("**_**_", isWord))
  {
    BareCrosses(Stars, Line, isWord);
    assert "**" + "_" + "**" + "_" == "**_**_";
  }

  /** Four characters are enough. */
  lemma ShortTagsCross(isWord: char -> bool)
    ensures !Nests(MarkdownToTelegramHtml("`*`*", isWord))
  {
    BareCrosses(Tick, Star, isWord);
    assert "`" + "*" + "`" + "*" == "`*`*";
  }

  // ---- Underscores inside code spans ----

  lemma ThreeFirsts(r: seq<Sep>, a: Tag, b: Tag, c: Tag)
    requires AllMade(r) && |r| >= 3 && r[0].tag == a && r[1].tag == b && r[2].tag == c
    ensures |TagsIn(r)| >= 3 && TagsIn(r) == [a] + ([b] + ([c] + TagsIn(r[3..])))
  {
    assert r[1..][1..] == r[2..] && r[2..][1..] == r[3..] && r[1..][0] == r[1] && r[2..][0] == r[2];
    assert TagsIn(r) == [a] + TagsIn(r[1..]) && TagsIn(r[1..]) == [b] + TagsIn(r[2..])
           && TagsIn(r[2..]) == [c] + TagsIn(r[3..]);
  }

  /** Code spans around marks of another kind, one in each. */
  function InSpans(y: Mark): seq<Mark> { [Tick, y, Tick, Tick, y, Tick] }

  lemma InSpansTags(y: Mark)
    requires IsPair(y) && y != Tick
    ensures Follow(TagsOf(InSpans(y)), []) == None
  {
    var seps := Raws(InSpans(y));
    var r := AllPaired(seps);
    CountThree(Tick, y, y, y);
    CountThree(Tick, y, y, Tick);
    assert seps[..0] == [] && seps[..1] == [Raw(Tick)] && seps[..2] == [Raw(Tick), Raw(y)];
    MarkTag(seps, 0, Tick, []);
    MarkTag(seps, 1, y, [Raw(Tick)]);
    MarkTag(seps, 2, Tick, [Raw(Tick), Raw(y)]);
    forall i | 0 <= i < 6 ensures r[i].Made? { TagAtMark(seps, i); }
    TagsOfMade(r);
    var k := KindOf(y);
    ThreeFirsts(r, Opening(CodeTag), Opening(k), Closing(CodeTag));
    var rest := [Closing(CodeTag)] + TagsIn(r[3..]);
    Opens(CodeTag, [Opening(k)] + rest, []);
    Opens(k, rest, [] + [CodeTag]);
    Closes(CodeTag, k, TagsIn(r[3..]), [] + [CodeTag]);
  }

  lemma InSpansCount(y: Mark, k: Mark)
    requires IsPair(y) && y != Tick
    ensures InPairs(Raws(InSpans(y)), k)
  {
    var last := [Raw(Tick), Raw(y), Raw(Tick)];
    CountThree(Tick, y, Tick, k);
    CountFirst(Raw(Tick), last, k);
    CountFirst(Raw(y), [Raw(Tick)] + last, k);
    CountFirst(Raw(Tick), [Raw(y)] + ([Raw(Tick)] + last), k);
    assert Raws(InSpans(y)) == [Raw(Tick)] + ([Raw(y)] + ([Raw(Tick)] + last));
  }

  /** Two code spans with a mark of another kind in each: the tags do not nest, whatever the texts are. */
  lemma InSpansCross(y: Mark, texts: seq<string>, isWord: char -> bool)
    requires IsPair(y) && y != Tick && AreApart(texts, Raws(InSpans(y)))
    ensures !Nests(MarkdownToTelegramHtml(Weave(texts, Raws(InSpans(y))), isWord))
  {
    var seps := Raws(InSpans(y));
    forall k | IsPair(k) ensures InPairs(seps, k) { InSpansCount(y, k); }
    forall s <- seps ensures !IsLink(s) {}
    NoLinks(seps);
    MarksNestIff(texts, InSpans(y), isWord);
    InSpansTags(y);
  }

  lemma NamesAreApart(texts: seq<string>, seps: seq<Sep>)
    requires texts == ["", "a", "b", " and ", "c", "d", ""] && |seps| == 6
    ensures AreApart(texts, seps)
  {
    forall t <- texts ensures TelegramForms.IsPlain(t) {}
    forall i | 1 <= i < 6 ensures '\n' !in texts[i] && texts[i] != "" {}
  }

  lemma TwoFirst(t: string, m: Mark, u: string, n: Mark, texts: seq<string>, seps: seq<Sep>)
    requires |texts| == |seps| + 1
    ensures Weave([t, u] + texts, [Raw(m), Raw(n)] + seps)
            == t + (Delimiter(m) + (u + (Delimiter(n) + Weave(texts, seps))))
  {
    assert ([t, u] + texts)[1..] == [u] + texts && ([u] + texts)[1..] == texts;
    assert ([Raw(m), Raw(n)] + seps)[1..] == [Raw(n)] + seps && ([Raw(n)] + seps)[1..] == seps;
  }

  lemma NamesWeave()
    ensures Weave(["", "a"] + ["b", " and ", "c", "d", ""],
                  [Raw(Tick), Raw(Line)] + [Raw(Tick), Raw(Tick), Raw(Line), Raw(Tick)])
            == "`a_b` and `c_d`"
  {
    TwoFirst("", Tick, "a", Line, ["b", " and ", "c", "d", ""], [Raw(Tick), Raw(Tick), Raw(Line), Raw(Tick)]);
    FourWeave("b", Tick, " and ", Tick, "c", Line, "d", Tick, "");
  }

  /** Names with an underscore in code spans are sent with tags that cross. */
  lemma NamesInSpansCross(isWord: char -> bool)
    ensures !Nests(MarkdownToTelegramHtml("`a_b` and `c_d`", isWord))
  {
    var texts := ["", "a", "b", " and ", "c", "d", ""];
    NamesAreApart(texts, Raws(InSpans(Line)));
    NamesWeave();
    assert texts == ["", "a"] + ["b", " and ", "c", "d", ""];
    assert Raws(InSpans(Line)) == [Raw(Tick), Raw(Line)] + [Raw(Tick), Raw(Tick), Raw(Line), Raw(Tick)];
    InSpansCross(Line, texts, isWord);
  }
}
