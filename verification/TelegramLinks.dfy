/** A pair of marks and a link: exactly when their tags nest. */
module TelegramLinks {
  import opened TelegramHtml
  import opened TelegramMarks
  import opened TelegramNesting
  import opened TelegramOverlaps
  import opened TelegramPairs
  import opened Wrappers

  /** Marks around those of a link. */
  function FramedMarks(a: seq<Mark>, b: seq<Mark>, c: seq<Mark>, d: seq<Mark>): seq<Mark> {
    a + ([Open] + (b + ([Middle] + (c + ([Close] + d)))))
  }

  function Mades(tags: seq<Tag>): seq<Sep> {
    if tags == [] then [] else [Made(tags[0])] + Mades(tags[1..])
  }

  lemma {:induction false} TagsInMades(tags: seq<Tag>)
    ensures TagsIn(Mades(tags)) == tags && AllMade(Mades(tags))
  {
    if tags != [] {
      TagsInMades(tags[1..]);
      assert Mades(tags)[1..] == Mades(tags[1..]);
    }
  }

  function StepOf(s: Sep, k: Mark, opens: bool): Sep
    requires IsPair(k)
  {
    if s == Raw(k) then Made(if opens then Opening(KindOf(k)) else Closing(KindOf(k))) else s
  }

  lemma PairedFirst(s: Sep, rest: seq<Sep>, k: Mark, opens: bool)
    requires IsPair(k)
    ensures Paired([s] + rest, k, opens)
            == [StepOf(s, k, opens)] + Paired(rest, k, if s == Raw(k) then !opens else opens)
  {
    assert ([s] + rest)[1..] == rest;
  }

  /** Whether the next mark of the kind opens. */
  function OpensAfter(a: seq<Sep>, k: Mark, opens: bool): bool {
    if a == [] then opens else OpensAfter(a[1..], k, if a[0] == Raw(k) then !opens else opens)
  }

  lemma PairedUncons(a: seq<Sep>, k: Mark, opens: bool)
    requires IsPair(k) && a != []
    ensures Paired(a, k, opens)
            == [StepOf(a[0], k, opens)] + Paired(a[1..], k, if a[0] == Raw(k) then !opens else opens)
  {
  }

  lemma {:induction false} PairedJoin(a: seq<Sep>, b: seq<Sep>, k: Mark, opens: bool)
    requires IsPair(k)
    ensures Paired(a + b, k, opens) == Paired(a, k, opens) + Paired(b, k, OpensAfter(a, k, opens))
  {
    if a == [] {
      assert a + b == b;
    } else {
      var later := if a[0] == Raw(k) then !opens else opens;
      UnconsSum(a, b);
      PairedFirst(a[0], a[1..] + b, k, opens);
      PairedJoin(a[1..], b, k, later);
      Prepend(StepOf(a[0], k, opens), Paired(a[1..], k, later), Paired(b, k, OpensAfter(a, k, opens)));
      PairedUncons(a, k, opens);
    }
  }

  lemma {:induction false} PairedNone(seps: seq<Sep>, k: Mark, opens: bool)
    requires IsPair(k) && Raw(k) !in seps
    ensures Paired(seps, k, opens) == seps
  {
    if seps != [] { PairedNone(seps[1..], k, opens); }
  }

  lemma {:induction false} NonePaired(seps: seq<Sep>, ks: seq<Mark>)
    requires (forall k <- ks :: IsPair(k)) && forall k | IsPair(k) && k in ks :: Raw(k) !in seps
    ensures PairAll(seps, ks) == seps
    decreases ks
  {
    if ks != [] {
      assert ks[0] in ks;
      PairedNone(seps, ks[0], true);
      NonePaired(seps, ks[1..]);
    }
  }

  lemma {:induction false} OneKindOf(seps: seq<Sep>, x: Mark, ks: seq<Mark>)
    requires (forall k <- ks :: IsPair(k)) && x in ks && forall k | IsPair(k) && k != x :: Raw(k) !in seps
    ensures PairAll(seps, ks) == Paired(seps, x, true)
    decreases ks
  {
    if ks[0] == x {
      var r := Paired(seps, x, true);
      forall k | IsPair(k) ensures Raw(k) !in r { PairedLeaves(seps, x, k); }
      NonePaired(r, ks[1..]);
    } else {
      assert IsPair(ks[0]);
      PairedNone(seps, ks[0], true);
      OneKindOf(seps, x, ks[1..]);
    }
  }

  /** Marks of one kind only: the other passes change nothing. */
  lemma OneKindPaired(seps: seq<Sep>, x: Mark)
    requires IsPair(x) && forall k | IsPair(k) && k != x :: Raw(k) !in seps
    ensures AllPaired(seps) == Paired(seps, x, true)
  {
    PairsInTurn(seps);
    OneKindOf(seps, x, PAIRS);
  }

  lemma {:induction false} BeforeIs(a: seq<Sep>, b: seq<Sep>, m: Mark)
    requires AllMade(a)
    ensures var s := a + ([Raw(m)] + b);
            Before(s, m) == |a| < |s| && s[..|a|] == a && s[|a| + 1..] == b
  {
    var s := a + ([Raw(m)] + b);
    if a != [] {
      assert a[0] in a && s[0] == a[0] && s[1..] == a[1..] + ([Raw(m)] + b);
      BeforeIs(a[1..], b, m);
    }
  }

  lemma FirstLinkTags(b: seq<Sep>, c: seq<Sep>, d: seq<Sep>)
    requires AllMade(b) && AllMade(c) && AllMade(d)
    ensures LinkTags([Raw(Open)] + (b + ([Raw(Middle)] + (c + ([Raw(Close)] + d)))))
            == [Opening(LinkTag)] + ((TagsIn(c) + TagsIn(b)) + ([Closing(LinkTag)] + TagsIn(d)))
  {
    var u := c + ([Raw(Close)] + d);
    var ss := b + ([Raw(Middle)] + u);
    assert ([Raw(Open)] + ss)[1..] == ss;
    BeforeIs(b, u, Middle);
    BeforeIs(c, d, Close);
    TagsUnfold([Raw(Open)] + ss, |b|, |c|);
    TagsOfMade(d);
  }

  /** The tags of one link, with tags in the four places. */
  lemma {:induction false} OneLinkTags(a: seq<Sep>, b: seq<Sep>, c: seq<Sep>, d: seq<Sep>)
    requires AllMade(a) && AllMade(b) && AllMade(c) && AllMade(d)
    ensures LinkTags(a + ([Raw(Open)] + (b + ([Raw(Middle)] + (c + ([Raw(Close)] + d))))))
            == TagsIn(a) + ([Opening(LinkTag)] + ((TagsIn(c) + TagsIn(b)) + ([Closing(LinkTag)] + TagsIn(d))))
  {
    var rest := [Raw(Open)] + (b + ([Raw(Middle)] + (c + ([Raw(Close)] + d))));
    if a == [] {
      assert a + rest == rest;
      FirstLinkTags(b, c, d);
    } else {
      assert a[0] in a && (a + rest)[0] == a[0] && (a + rest)[1..] == a[1..] + rest;
      OneLinkTags(a[1..], b, c, d);
    }
  }

  lemma {:induction false} RawsJoin(a: seq<Mark>, b: seq<Mark>)
    ensures Raws(a + b) == Raws(a) + Raws(b)
  {
    if a == [] {
      assert a + b == b;
    } else {
      assert (a + b)[1..] == a[1..] + b;
      RawsJoin(a[1..], b);
    }
  }

  lemma RawsOfTwo(a: Mark, b: Mark)
    ensures Raws([]) == [] && Raws([a]) == [Raw(a)] && Raws([a, b]) == [Raw(a), Raw(b)]
  {
    assert |Raws([a])| == 1 && |Raws([a, b])| == 2;
  }

  /** The four places with a link's marks between them. */
  function Framed(a: seq<Sep>, b: seq<Sep>, c: seq<Sep>, d: seq<Sep>): seq<Sep> {
    a + ([Raw(Open)] + (b + ([Raw(Middle)] + (c + ([Raw(Close)] + d)))))
  }

  lemma JoinMark(a: seq<Sep>, m: Mark, rest: seq<Sep>, x: Mark, opens: bool)
    requires IsPair(x) && !IsPair(m)
    ensures Paired(a + ([Raw(m)] + rest), x, opens)
            == Paired(a, x, opens) + ([Raw(m)] + Paired(rest, x, OpensAfter(a, x, opens)))
  {
    PairedJoin(a, [Raw(m)] + rest, x, opens);
    PairedFirst(Raw(m), rest, x, OpensAfter(a, x, opens));
  }

  lemma FramedPaired(x: Mark, a: seq<Sep>, b: seq<Sep>, c: seq<Sep>, d: seq<Sep>, o0: bool, o1: bool, o2: bool,
                     o3: bool)
    requires IsPair(x) && OpensAfter(a, x, o0) == o1 && OpensAfter(b, x, o1) == o2 && OpensAfter(c, x, o2) == o3
    ensures Paired(Framed(a, b, c, d), x, o0)
            == Framed(Paired(a, x, o0), Paired(b, x, o1), Paired(c, x, o2), Paired(d, x, o3))
  {
    JoinMark(c, Close, d, x, o2);
    JoinMark(b, Middle, c + ([Raw(Close)] + d), x, o1);
    JoinMark(a, Open, b + ([Raw(Middle)] + (c + ([Raw(Close)] + d))), x, o0);
  }

  lemma RawsFramed(a: seq<Mark>, b: seq<Mark>, c: seq<Mark>, d: seq<Mark>)
    ensures Raws(FramedMarks(a, b, c, d)) == Framed(Raws(a), Raws(b), Raws(c), Raws(d))
  {
    RawsOfTwo(Open, Open);
    RawsOfTwo(Middle, Middle);
    RawsOfTwo(Close, Close);
    RawsJoin([Close], d);
    RawsJoin(c, [Close] + d);
    RawsJoin([Middle], c + ([Close] + d));
    RawsJoin(b, [Middle] + (c + ([Close] + d)));
    RawsJoin([Open], b + ([Middle] + (c + ([Close] + d))));
    RawsJoin(a, [Open] + (b + ([Middle] + (c + ([Close] + d)))));
  }

  lemma FramedHasNo(a: seq<Sep>, b: seq<Sep>, c: seq<Sep>, d: seq<Sep>, k: Mark)
    requires IsPair(k) && Raw(k) !in a && Raw(k) !in b && Raw(k) !in c && Raw(k) !in d
    ensures Raw(k) !in Framed(a, b, c, d)
  {
  }

  function Times(x: Mark, n: nat): seq<Mark> { if n == 0 then [] else [x] + Times(x, n - 1) }

  lemma RawsOfTimes(x: Mark, n: nat)
    requires n > 0
    ensures Raws(Times(x, n)) == [Raw(x)] + Raws(Times(x, n - 1))
  {
    RawsJoin([x], Times(x, n - 1));
    RawsOfTwo(x, x);
  }

  lemma NotInCons<T>(t: T, s: T, rest: seq<T>, all: seq<T>)
    requires t != s && t !in rest && all == [s] + rest
    ensures t !in all
  {
  }

  lemma {:induction false} TimesHasOnly(x: Mark, n: nat, k: Mark)
    requires k != x
    ensures Raw(k) !in Raws(Times(x, n))
  {
    if n == 0 {
      assert Raws(Times(x, n)) == [];
    } else {
      TimesHasOnly(x, n - 1, k);
      RawsOfTimes(x, n);
      NotInCons(Raw(k), Raw(x), Raws(Times(x, n - 1)), Raws(Times(x, n)));
    }
  }

  /** So many tags of a kind, opening and closing in turn. */
  function Alternate(k: Kind, n: nat, opens: bool): seq<Tag> {
    if n == 0 then [] else [if opens then Opening(k) else Closing(k)] + Alternate(k, n - 1, !opens)
  }

  lemma {:induction false} TimesPaired(x: Mark, n: nat, opens: bool)
    requires IsPair(x)
    ensures Paired(Raws(Times(x, n)), x, opens) == Mades(Alternate(KindOf(x), n, opens))
  {
    if n > 0 {
      RawsOfTimes(x, n);
      TimesPaired(x, n - 1, !opens);
      PairedFirst(Raw(x), Raws(Times(x, n - 1)), x, opens);
      var t := Alternate(KindOf(x), n, opens);
      assert t[1..] == Alternate(KindOf(x), n - 1, !opens) && Mades(t) == [Made(t[0])] + Mades(t[1..]);
    }
  }

  lemma OpensAfterFirst(s: Sep, rest: seq<Sep>, k: Mark, opens: bool)
    ensures OpensAfter([s] + rest, k, opens) == OpensAfter(rest, k, if s == Raw(k) then !opens else opens)
  {
    assert ([s] + rest)[1..] == rest;
  }

  lemma OpensAfterFew(x: Mark, n: nat, opens: bool)
    requires n <= 2
    ensures OpensAfter(Raws(Times(x, n)), x, opens) == if n == 1 then !opens else opens
  {
    if n >= 1 {
      RawsOfTimes(x, n);
      OpensAfterFirst(Raw(x), Raws(Times(x, n - 1)), x, opens);
    }
    if n == 2 {
      RawsOfTimes(x, 1);
      OpensAfterFirst(Raw(x), Raws(Times(x, 0)), x, !opens);
    }
  }

  lemma FramedAlike(x: Mark, a: seq<Sep>, b: seq<Sep>, c: seq<Sep>, d: seq<Sep>,
                    ta: seq<Sep>, tb: seq<Sep>, tc: seq<Sep>, td: seq<Sep>, o1: bool, o2: bool, o3: bool)
    requires IsPair(x) && OpensAfter(a, x, true) == o1 && OpensAfter(b, x, o1) == o2 && OpensAfter(c, x, o2) == o3
    requires Paired(a, x, true) == ta && Paired(b, x, o1) == tb && Paired(c, x, o2) == tc && Paired(d, x, o3) == td
    ensures Paired(Framed(a, b, c, d), x, true) == Framed(ta, tb, tc, td)
  {
    FramedPaired(x, a, b, c, d, true, o1, o2, o3);
  }

  /** So many marks in each of the four places around those of a link. */
  function AroundLink(x: Mark, a: nat, b: nat, c: nat, d: nat): seq<Mark> {
    FramedMarks(Times(x, a), Times(x, b), Times(x, c), Times(x, d))
  }

  function RawTimes(x: Mark, n: nat): seq<Sep> { Raws(Times(x, n)) }

  lemma AroundPaired(x: Mark, a: nat, b: nat, c: nat, d: nat)
    requires IsPair(x) && a + b + c + d == 2
    ensures var k, o1, o2, o3 := KindOf(x), a != 1, a + b != 1, a + b + c != 1;
            Paired(Framed(RawTimes(x, a), RawTimes(x, b), RawTimes(x, c), RawTimes(x, d)), x, true)
            == Framed(Mades(Alternate(k, a, true)), Mades(Alternate(k, b, o1)), Mades(Alternate(k, c, o2)),
                      Mades(Alternate(k, d, o3)))
  {
    var k, o1, o2, o3 := KindOf(x), a != 1, a + b != 1, a + b + c != 1;
    OpensAfterFew(x, a, true);
    OpensAfterFew(x, b, o1);
    OpensAfterFew(x, c, o2);
    TimesPaired(x, a, true);
    TimesPaired(x, b, o1);
    TimesPaired(x, c, o2);
    TimesPaired(x, d, o3);
    FramedAlike(x, RawTimes(x, a), RawTimes(x, b), RawTimes(x, c), RawTimes(x, d), Mades(Alternate(k, a, true)),
                Mades(Alternate(k, b, o1)), Mades(Alternate(k, c, o2)), Mades(Alternate(k, d, o3)), o1, o2, o3);
  }

  lemma AroundOnly(x: Mark, a: nat, b: nat, c: nat, d: nat)
    requires IsPair(x)
    ensures AllPaired(Raws(AroundLink(x, a, b, c, d)))
            == Paired(Framed(RawTimes(x, a), RawTimes(x, b), RawTimes(x, c), RawTimes(x, d)), x, true)
  {
    RawsFramed(Times(x, a), Times(x, b), Times(x, c), Times(x, d));
    var seps := Framed(RawTimes(x, a), RawTimes(x, b), RawTimes(x, c), RawTimes(x, d));
    forall k | IsPair(k) && k != x ensures Raw(k) !in seps {
      TimesHasOnly(x, a, k);
      TimesHasOnly(x, b, k);
      TimesHasOnly(x, c, k);
      TimesHasOnly(x, d, k);
      FramedHasNo(RawTimes(x, a), RawTimes(x, b), RawTimes(x, c), RawTimes(x, d), k);
    }
    OneKindPaired(seps, x);
  }

  lemma MadeLinkTags(a: seq<Tag>, b: seq<Tag>, c: seq<Tag>, d: seq<Tag>)
    ensures LinkTags(Framed(Mades(a), Mades(b), Mades(c), Mades(d)))
            == a + ([Opening(LinkTag)] + ((c + b) + ([Closing(LinkTag)] + d)))
  {
    TagsInMades(a);
    TagsInMades(b);
    TagsInMades(c);
    TagsInMades(d);
    OneLinkTags(Mades(a), Mades(b), Mades(c), Mades(d));
  }

  lemma {:induction false} FollowJoin(a: seq<Tag>, b: seq<Tag>, open: seq<Kind>)
    ensures Follow(a + b, open) == if Follow(a, open).None? then None else Follow(b, Follow(a, open).value)
  {
    if a == [] {
      assert a + b == b;
    } else {
      assert (a + b)[1..] == a[1..] + b && (a + b)[0] == a[0];
      if After(a[0], open).Some? { FollowJoin(a[1..], b, After(a[0], open).value); }
    }
  }

  /** What none, one or two tags of a kind in turn leave open. */
  function Through(k: Kind, n: nat, opens: bool, open: seq<Kind>): Option<seq<Kind>>
    requires n <= 2 && (n == 2 ==> opens)
  {
    if n == 1 then After(if opens then Opening(k) else Closing(k), open) else Some(open)
  }

  lemma AlternateFollows(k: Kind, n: nat, opens: bool, open: seq<Kind>)
    requires n <= 2 && (n == 2 ==> opens)
    ensures Follow(Alternate(k, n, opens), open) == Through(k, n, opens, open)
  {
    if n == 1 {
      assert Alternate(k, 1, opens)[1..] == [];
    } else if n == 2 {
      assert Alternate(k, 2, true)[1..] == Alternate(k, 1, false) && Alternate(k, 1, false)[1..] == [];
      assert (open + [k])[..|open|] == open;
    }
  }

  function Onward(open: Option<seq<Kind>>, k: Kind, n: nat, opens: bool): Option<seq<Kind>>
    requires n <= 2 && (n == 2 ==> opens)
  {
    if open.None? then None else Through(k, n, opens, open.value)
  }

  function Tagged(open: Option<seq<Kind>>, t: Tag): Option<seq<Kind>> {
    if open.None? then None else After(t, open.value)
  }

  /** Two marks in the four places around a link's marks: what is left open at the end. */
  function LeftOpen(k: Kind, a: nat, b: nat, c: nat, d: nat): Option<seq<Kind>>
    requires a + b + c + d == 2
  {
    var text := Tagged(Through(k, a, true, []), Opening(LinkTag));
    var target := Onward(text, k, c, a + b != 1);
    Onward(Tagged(Onward(target, k, b, a != 1), Closing(LinkTag)), k, d, a + b + c != 1)
  }

  lemma OneTagFollows(t: Tag, rest: seq<Tag>, open: seq<Kind>)
    ensures Follow([t] + rest, open) == if After(t, open).None? then None else Follow(rest, After(t, open).value)
  {
    assert ([t] + rest)[1..] == rest;
  }

  /** From the link's target on. */
  lemma InsideFollows(k: Kind, b: nat, c: nat, d: nat, ob: bool, oc: bool, od: bool, open: seq<Kind>)
    requires b <= 2 && c <= 2 && d <= 2 && (b == 2 ==> ob) && (c == 2 ==> oc) && (d == 2 ==> od)
    ensures Follow((Alternate(k, c, oc) + Alternate(k, b, ob)) + ([Closing(LinkTag)] + Alternate(k, d, od)), open)
            == Onward(Tagged(Onward(Through(k, c, oc, open), k, b, ob), Closing(LinkTag)), k, d, od)
  {
    var tc, tb, td := Alternate(k, c, oc), Alternate(k, b, ob), Alternate(k, d, od);
    FollowJoin(tc + tb, [Closing(LinkTag)] + td, open);
    FollowJoin(tc, tb, open);
    AlternateFollows(k, c, oc, open);
    if Through(k, c, oc, open).Some? {
      var o := Through(k, c, oc, open).value;
      AlternateFollows(k, b, ob, o);
      if Through(k, b, ob, o).Some? {
        var p := Through(k, b, ob, o).value;
        OneTagFollows(Closing(LinkTag), td, p);
        if After(Closing(LinkTag), p).Some? { AlternateFollows(k, d, od, After(Closing(LinkTag), p).value); }
      }
    }
  }

  lemma FramedFollows(k: Kind, a: nat, b: nat, c: nat, d: nat)
    requires a + b + c + d == 2
    ensures var ta, tb := Alternate(k, a, true), Alternate(k, b, a != 1);
            var tc, td := Alternate(k, c, a + b != 1), Alternate(k, d, a + b + c != 1);
            Follow(ta + ([Opening(LinkTag)] + ((tc + tb) + ([Closing(LinkTag)] + td))), []) == LeftOpen(k, a, b, c, d)
  {
    var ta, tb := Alternate(k, a, true), Alternate(k, b, a != 1);
    var tc, td := Alternate(k, c, a + b != 1), Alternate(k, d, a + b + c != 1);
    var z := [Closing(LinkTag)] + td;
    AlternateFollows(k, a, true, []);
    FollowJoin(ta, [Opening(LinkTag)] + ((tc + tb) + z), []);
    var s := Through(k, a, true, []);
    if s.Some? {
      OneTagFollows(Opening(LinkTag), (tc + tb) + z, s.value);
      InsideFollows(k, b, c, d, a != 1, a + b != 1, a + b + c != 1, s.value + [LinkTag]);
    }
  }

  lemma OnStack(k: Kind, open: seq<Kind>)
    ensures After(Closing(k), open + [k]) == Some(open) && After(Opening(k), open) == Some(open + [k])
  {
    assert (open + [k])[..|open|] == open;
  }

  lemma NotOnTop(k: Kind, j: Kind, open: seq<Kind>)
    requires j != k
    ensures After(Closing(k), open + [j]) == None
  {
  }

  /** The first mark before the link. */
  lemma LeftOpenBefore(k: Kind, a: nat, b: nat, c: nat, d: nat)
    requires k != LinkTag && a > 0 && a + b + c + d == 2
    ensures LeftOpen(k, a, b, c, d) == Some([]) <==> a == 2 || d == 1
  {
    OnStack(k, []);
    OnStack(LinkTag, []);
    OnStack(LinkTag, [] + [k]);
    NotOnTop(k, LinkTag, [] + [k]);
  }

  /** Or not before it. */
  lemma LeftOpenAfter(k: Kind, b: nat, c: nat, d: nat)
    requires k != LinkTag && b + c + d == 2
    ensures LeftOpen(k, 0, b, c, d) == Some([]) <==> b == 2 || c == 2 || d == 2
  {
    OnStack(k, []);
    OnStack(LinkTag, []);
    OnStack(k, [] + [LinkTag]);
    NotOnTop(k, LinkTag, []);
    NotOnTop(LinkTag, k, [] + [LinkTag]);
  }

  lemma AroundTagsAre(x: Mark, a: nat, b: nat, c: nat, d: nat)
    requires IsPair(x) && a + b + c + d == 2
    ensures var k, o1, o2, o3 := KindOf(x), a != 1, a + b != 1, a + b + c != 1;
            TagsOf(AroundLink(x, a, b, c, d))
            == Alternate(k, a, true)
               + ([Opening(LinkTag)]
                   + ((Alternate(k, c, o2) + Alternate(k, b, o1)) + ([Closing(LinkTag)] + Alternate(k, d, o3))))
  {
    var k, o1, o2, o3 := KindOf(x), a != 1, a + b != 1, a + b + c != 1;
    AroundOnly(x, a, b, c, d);
    AroundPaired(x, a, b, c, d);
    MadeLinkTags(Alternate(k, a, true), Alternate(k, b, o1), Alternate(k, c, o2), Alternate(k, d, o3));
  }

  lemma AroundIff(x: Mark, a: nat, b: nat, c: nat, d: nat)
    requires IsPair(x) && a + b + c + d == 2
    ensures Follow(TagsOf(AroundLink(x, a, b, c, d)), []) == Some([])
            <==> a == 2 || b == 2 || c == 2 || d == 2 || (a == 1 && d == 1)
  {
    AroundTagsAre(x, a, b, c, d);
    FramedFollows(KindOf(x), a, b, c, d);
    if a == 0 { LeftOpenAfter(KindOf(x), b, c, d); } else { LeftOpenBefore(KindOf(x), a, b, c, d); }
  }

  lemma {:induction false} CountJoin(a: seq<Sep>, b: seq<Sep>, k: Mark)
    ensures CountOf(a + b, k) == CountOf(a, k) + CountOf(b, k)
  {
    if a == [] {
      assert a + b == b;
    } else {
      UnconsSum(a, b);
      CountFirst(a[0], a[1..] + b, k);
      CountJoin(a[1..], b, k);
    }
  }

  lemma {:induction false} TimesCount(x: Mark, n: nat, k: Mark)
    ensures CountOf(Raws(Times(x, n)), k) == if k == x then n else 0
  {
    if n > 0 {
      RawsOfTimes(x, n);
      TimesCount(x, n - 1, k);
      CountFirst(Raw(x), Raws(Times(x, n - 1)), k);
    }
  }

  lemma FramedCount(a: seq<Sep>, b: seq<Sep>, c: seq<Sep>, d: seq<Sep>, k: Mark)
    requires IsPair(k)
    ensures CountOf(Framed(a, b, c, d), k) == CountOf(a, k) + CountOf(b, k) + CountOf(c, k) + CountOf(d, k)
  {
    CountFirst(Raw(Close), d, k);
    CountJoin(c, [Raw(Close)] + d, k);
    CountFirst(Raw(Middle), c + ([Raw(Close)] + d), k);
    CountJoin(b, [Raw(Middle)] + (c + ([Raw(Close)] + d)), k);
    CountFirst(Raw(Open), b + ([Raw(Middle)] + (c + ([Raw(Close)] + d))), k);
    CountJoin(a, [Raw(Open)] + (b + ([Raw(Middle)] + (c + ([Raw(Close)] + d)))), k);
  }

  lemma {:induction false} LinksPast(x: Mark, n: nat, rest: seq<Sep>, due: Mark)
    requires IsPair(x) && LinksOk(rest, due)
    ensures LinksOk(Raws(Times(x, n)) + rest, due)
  {
    if n == 0 {
      assert Raws(Times(x, n)) + rest == rest;
    } else {
      RawsOfTimes(x, n);
      LinksPast(x, n - 1, rest, due);
      var all := Raws(Times(x, n)) + rest;
      assert all[0] == Raw(x) && all[1..] == Raws(Times(x, n - 1)) + rest;
    }
  }

  lemma LinkNext(m: Mark, rest: seq<Sep>)
    requires !IsPair(m) && LinksOk(rest, NextOf(m))
    ensures LinksOk([Raw(m)] + rest, m)
  {
    assert ([Raw(m)] + rest)[1..] == rest;
  }

  lemma AroundInPairs(x: Mark, a: nat, b: nat, c: nat, d: nat, k: Mark)
    requires IsPair(x) && IsPair(k) && a + b + c + d == 2
    ensures InPairs(Framed(RawTimes(x, a), RawTimes(x, b), RawTimes(x, c), RawTimes(x, d)), k)
  {
    FramedCount(RawTimes(x, a), RawTimes(x, b), RawTimes(x, c), RawTimes(x, d), k);
    TimesCount(x, a, k);
    TimesCount(x, b, k);
    TimesCount(x, c, k);
    TimesCount(x, d, k);
  }

  lemma AroundLinksOk(x: Mark, a: nat, b: nat, c: nat, d: nat)
    requires IsPair(x)
    ensures LinksOk(Framed(RawTimes(x, a), RawTimes(x, b), RawTimes(x, c), RawTimes(x, d)), Open)
  {
    var rb, rc, rd := RawTimes(x, b), RawTimes(x, c), RawTimes(x, d);
    var u := [Raw(Close)] + rd;
    var v := [Raw(Middle)] + (rc + u);
    assert rd + [] == rd;
    LinksPast(x, d, [], Open);
    LinkNext(Close, rd);
    LinksPast(x, c, u, Close);
    LinkNext(Middle, rc + u);
    LinksPast(x, b, v, Middle);
    LinkNext(Open, rb + v);
    LinksPast(x, a, [Raw(Open)] + (rb + v), Open);
  }

  lemma AroundIsMarked(x: Mark, a: nat, b: nat, c: nat, d: nat, texts: seq<string>)
    requires IsPair(x) && a + b + c + d == 2 && AreApart(texts, Raws(AroundLink(x, a, b, c, d)))
    ensures IsMarked(texts, AroundLink(x, a, b, c, d))
  {
    RawsFramed(Times(x, a), Times(x, b), Times(x, c), Times(x, d));
    forall k | IsPair(k)
      ensures InPairs(Framed(RawTimes(x, a), RawTimes(x, b), RawTimes(x, c), RawTimes(x, d)), k)
    {
      AroundInPairs(x, a, b, c, d, k);
    }
    AroundLinksOk(x, a, b, c, d);
  }

  /**
   A pair of marks and a link, with so many of the two marks before it, in its text, in its target
   and after it: the tags nest exactly when both marks are in one place, or around the link.
   */
  lemma LinkNestsIff(x: Mark, a: nat, b: nat, c: nat, d: nat, texts: seq<string>, isWord: char -> bool)
    requires IsPair(x) && a + b + c + d == 2 && AreApart(texts, Raws(AroundLink(x, a, b, c, d)))
    ensures Nests(MarkdownToTelegramHtml(Weave(texts, Raws(AroundLink(x, a, b, c, d))), isWord))
            <==> a == 2 || b == 2 || c == 2 || d == 2 || (a == 1 && d == 1)
  {
    AroundIsMarked(x, a, b, c, d, texts);
    MarksNestIff(texts, AroundLink(x, a, b, c, d), isWord);
    AroundIff(x, a, b, c, d);
  }
}
