/** The rule and skill files of the user's assistants: one directory, as a map from name to content. */
module AssistantFiles {
  import opened Wrappers

  function FileName(id: string, locale: Option<string>): string {
    if locale.Some? && locale.value != "" then id + "." + locale.value + ".md" else id + ".md"
  }

  predicate EndsWith(name: string, suffix: string) {
    |suffix| <= |name| && name[|name| - |suffix|..] == suffix
  }

  /** The test by which a deletion picks its files. */
  predicate Matches(name: string, id: string) {
    name == id + ".md" || (id + "." <= name && EndsWith(name, ".md"))
  }

  function Write(files: map<string, string>, id: string, locale: Option<string>, content: string): map<string, string> {
    files[FileName(id, locale) := content]
  }

  function Read(files: map<string, string>, id: string, locale: Option<string>): string {
    if FileName(id, locale) in files then files[FileName(id, locale)] else ""
  }

  function Remove(files: map<string, string>, id: string, stuck: set<string>): map<string, string> {
    map name | name in files && (!Matches(name, id) || name in stuck) :: files[name]
  }

  // ---- Whose files are deleted ----

  lemma OwnFilesMatch(id: string, locale: Option<string>)
    ensures Matches(FileName(id, locale), id)
  {
  }

  /** One id is the other, or the other followed by a dot and something. */
  predicate Related(id: string, other: string) {
    id == other || id + "." <= other || other + "." <= id
  }

  /** Two prefixes of one text: the shorter is a prefix of the longer. */
  lemma CommonPrefixes(a: string, b: string, s: string)
    requires a <= s && b <= s
    ensures |a| <= |b| ==> a <= b
    ensures |b| <= |a| ==> b <= a
  {
  }

  lemma MatchesOnlyRelated(id: string, other: string, locale: Option<string>)
    requires Matches(FileName(other, locale), id)
    ensures Related(id, other)
  {
    var name := FileName(other, locale);
    assert other + "." <= name;
    if name == id + ".md" {
      assert id + "." <= name;
    }
    CommonPrefixes(id + ".", other + ".", name);
    if |id| < |other| {
      assert id + "." <= other;
    } else if |other| < |id| {
      assert other + "." <= id;
    } else {
      assert id == (id + ".")[..|id|] && other == (other + ".")[..|other|];
    }
  }

  /** A locale of `other` whose file goes with the files of `id`. */
  function LostLocale(id: string, other: string): Option<string>
    requires Related(id, other)
  {
    if !(other + "." <= id) then None
    else if |id| == |other| + 1 then Some(".")
    else Some(id[|other| + 1..])
  }

  lemma RelatedMatches(id: string, other: string)
    requires Related(id, other)
    ensures Matches(FileName(other, LostLocale(id, other)), id)
  {
    var locale := LostLocale(id, other);
    if other + "." <= id {
      assert id == other + "." + id[|other| + 1..];
      assert |id| == |other| + 1 ==> FileName(other, locale) == id + "." + ".md";
      assert |id| > |other| + 1 ==> FileName(other, locale) == id + ".md";
    } else if id == other {
      OwnFilesMatch(id, locale);
    } else {
      assert other <= FileName(other, locale);
    }
  }

  /** Deleting the files of one assistant can take a file of another exactly when their ids are related. */
  lemma TakesOthersIff(id: string, other: string)
    ensures (exists locale: Option<string> :: Matches(FileName(other, locale), id)) <==> Related(id, other)
  {
    if Related(id, other) {
      RelatedMatches(id, other);
    } else if exists locale: Option<string> :: Matches(FileName(other, locale), id) {
      var locale: Option<string> :| Matches(FileName(other, locale), id);
      MatchesOnlyRelated(id, other, locale);
    }
  }

  lemma DotInside(id: string, other: string)
    requires id + "." <= other
    ensures '.' in other
  {
    assert other[|id|] == (id + ".")[|id|];
  }

  lemma NoDotsUnrelated(id: string, other: string)
    requires '.' !in id && '.' !in other && id != other
    ensures !Related(id, other)
  {
    if id + "." <= other { DotInside(id, other); }
    if other + "." <= id { DotInside(other, id); }
  }

  function Effective(locale: Option<string>): string { if locale.Some? then locale.value else "" }

  /** What a locale adds to the id. */
  function Tail(locale: Option<string>): string {
    if Effective(locale) == "" then "" else "." + Effective(locale)
  }

  lemma FileNameIsStem(id: string, locale: Option<string>)
    ensures FileName(id, locale) == id + Tail(locale) + ".md"
  {
    assert id + "." + Effective(locale) + ".md" == id + ("." + Effective(locale)) + ".md";
    assert id + "" == id;
  }

  /** The rest of a longer id, and its locale if it has one, read as a locale of the shorter. */
  predicate Clash(id: string, locale: Option<string>, other: string, otherLocale: Option<string>) {
    && other + "." <= id && Effective(otherLocale) != ""
    && Effective(otherLocale) == id[|other| + 1..] + Tail(locale)
  }

  lemma DropIn(a: string, b: string, n: nat)
    requires n <= |a|
    ensures (a + b)[n..] == a[n..] + b
  {
  }

  lemma LongerClashes(id: string, locale: Option<string>, other: string, otherLocale: Option<string>)
    requires |other| < |id| && id + Tail(locale) == other + Tail(otherLocale)
    ensures Clash(id, locale, other, otherLocale)
  {
    var s := id + Tail(locale);
    var n := |other| + 1;
    assert s == other + "." + Effective(otherLocale);
    CommonPrefixes(other + ".", id, s);
    DropIn(id, Tail(locale), n);
    DropIn(other + ".", Effective(otherLocale), n);
    assert (other + ".")[n..] == "" && "" + Effective(otherLocale) == Effective(otherLocale);
  }

  lemma ClashIsSame(id: string, locale: Option<string>, other: string, otherLocale: Option<string>)
    requires Clash(id, locale, other, otherLocale)
    ensures id + Tail(locale) == other + Tail(otherLocale)
  {
    var r, t := id[|other| + 1..], Tail(locale);
    assert id == other + "." + r;
    assert other + ("." + (r + t)) == (other + "." + r) + t;
  }

  lemma SameLengthClashes(id: string, locale: Option<string>, other: string, otherLocale: Option<string>)
    requires |other| == |id| && id + Tail(locale) == other + Tail(otherLocale)
    ensures id == other && Effective(locale) == Effective(otherLocale)
  {
    var s := id + Tail(locale);
    assert s[..|id|] == id && s[..|id|] == other;
    assert s[|id|..] == Tail(locale) && s[|id|..] == Tail(otherLocale);
    assert Effective(locale) != "" ==> Tail(locale)[1..] == Effective(locale);
    assert Effective(otherLocale) != "" ==> Tail(otherLocale)[1..] == Effective(otherLocale);
  }

  /**
   Two assistants and locales have the same file exactly when they are the same, or the longer
   id is the shorter with a dot and a locale after it.
   */
  lemma SameFileIff(id: string, locale: Option<string>, other: string, otherLocale: Option<string>)
    ensures FileName(id, locale) == FileName(other, otherLocale)
            <==> (id == other && Effective(locale) == Effective(otherLocale))
                 || Clash(id, locale, other, otherLocale) || Clash(other, otherLocale, id, locale)
  {
    var a, b := id + Tail(locale), other + Tail(otherLocale);
    FileNameIsStem(id, locale);
    FileNameIsStem(other, otherLocale);
    assert (a + ".md")[..|a|] == a && (b + ".md")[..|b|] == b;
    if a == b {
      if |other| < |id| {
        LongerClashes(id, locale, other, otherLocale);
      } else if |id| < |other| {
        LongerClashes(other, otherLocale, id, locale);
      } else {
        SameLengthClashes(id, locale, other, otherLocale);
      }
    }
    if Clash(id, locale, other, otherLocale) { ClashIsSame(id, locale, other, otherLocale); }
    if Clash(other, otherLocale, id, locale) { ClashIsSame(other, otherLocale, id, locale); }
  }

  /** With ids free of dots, different assistants or locales have different files. */
  lemma NamesDiffer(id: string, locale: Option<string>, other: string, otherLocale: Option<string>)
    requires '.' !in id && '.' !in other
    ensures FileName(id, locale) == FileName(other, otherLocale)
            <==> id == other && Effective(locale) == Effective(otherLocale)
  {
    SameFileIff(id, locale, other, otherLocale);
    if other + "." <= id { DotInside(other, id); }
    if id + "." <= other { DotInside(id, other); }
  }

  /** What was written is read back by everyone whose file it is, and by nobody else. */
  lemma WriteThenRead(files: map<string, string>, id: string, locale: Option<string>, content: string,
                      other: string, otherLocale: Option<string>)
    ensures var after := Write(files, id, locale, content);
            var same := (id == other && Effective(locale) == Effective(otherLocale))
                        || Clash(id, locale, other, otherLocale) || Clash(other, otherLocale, id, locale);
            Read(after, other, otherLocale) == if same then content else Read(files, other, otherLocale)
  {
    SameFileIff(id, locale, other, otherLocale);
  }

  /** The rest of a longer id, read as a locale of the shorter or as its start up to a dot. */
  predicate InLocale(id: string, other: string, locale: Option<string>) {
    && other + "." <= id && Effective(locale) != ""
    && var rest := id[|other| + 1..]; rest == Effective(locale) || rest + "." <= Effective(locale)
  }

  /** Whose files go with those of an assistant. */
  predicate Covers(id: string, other: string, locale: Option<string>) {
    id == other || id + "." <= other || InLocale(id, other, locale)
  }

  /** A prefix that ends in a dot lies within the stem, or ends where the ending of the name starts. */
  lemma PrefixOfStem(id: string, stem: string)
    ensures id + "." <= stem + ".md" <==> id == stem || id + "." <= stem
  {
    var name := stem + ".md";
    if id + "." <= name {
      assert name[|id|] == (id + ".")[|id|] == '.';
      if |id| <= |stem| { CommonPrefixes(id, stem, name); }
      if |id| < |stem| { CommonPrefixes(id + ".", stem, name); }
    }
  }

  lemma MatchesIffStem(id: string, stem: string)
    ensures Matches(stem + ".md", id) <==> id == stem || id + "." <= stem
  {
    PrefixOfStem(id, stem);
    assert (stem + ".md")[..|stem|] == stem && (id + ".md")[..|id|] == id;
  }

  lemma LongerCovers(id: string, head: string, eff: string)
    requires |head| <= |id|
    ensures id == head + eff || id + "." <= head + eff
            <==> head <= id && (id[|head|..] == eff || id[|head|..] + "." <= eff)
  {
    var stem, n := head + eff, |head|;
    assert stem[..n] == head && stem[n..] == eff;
    if id == stem || id + "." <= stem {
      assert id <= stem;
      CommonPrefixes(head, id, stem);
      assert (id + ".")[n..] == id[n..] + ".";
    } else if head <= id {
      assert id == head + id[n..];
    }
  }

  lemma CoversIffStem(id: string, other: string, locale: Option<string>)
    ensures Covers(id, other, locale)
            <==> id == other + Tail(locale) || id + "." <= other + Tail(locale) || id == other
  {
    var eff, stem := Effective(locale), other + Tail(locale);
    var head := other + ".";
    if id == other {
    } else if eff == "" {
      assert stem == other;
    } else if |id| <= |other| {
      assert stem[..|other|] == other;
      if id + "." <= stem && |id| < |other| { CommonPrefixes(id + ".", other, stem); }
      if id + "." <= stem && |id| == |other| { CommonPrefixes(id, other, stem); }
    } else {
      assert stem == head + eff;
      LongerCovers(id, head, eff);
    }
  }

  /** Of all names, a deletion takes the id with `.md`, and what starts with the id and a dot and then ends in `.md`. */
  lemma MatchesWhich(name: string, id: string)
    ensures Matches(name, id)
            <==> name == id + ".md"
                 || (|name| >= |id| + 4 && name[..|id|] == id && name[|id|] == '.' && name[|name| - 3..] == ".md")
  {
    var n := |id|;
    if id + "." <= name { assert name[..n] == (id + ".")[..n] == id && name[n] == (id + ".")[n] == '.'; }
    if |name| == n + 3 && name[..n] == id && name[n..] == ".md" { assert name == id + ".md"; }
    if |name| >= n + 3 && name[..n] == id && name[n] == '.' { assert name[..n + 1] == id + "."; }
    if n < |name| < n + 3 && |name| >= 3 && name[|name| - 3..] == ".md" {
      assert name[|name| - 3..][n - |name| + 3] == name[n];
    }
  }

  /** A deletion takes a file exactly of the ids and locales that it covers. */
  lemma MatchesIffCovers(id: string, other: string, locale: Option<string>)
    ensures Matches(FileName(other, locale), id) <==> Covers(id, other, locale)
  {
    FileNameIsStem(other, locale);
    MatchesIffStem(id, other + Tail(locale));
    CoversIffStem(id, other, locale);
    if id == other { OwnFilesMatch(id, locale); }
  }

  /**
   A deletion empties every locale of its assistant and, of the others, exactly what it covers.
   With ids free of dots, it spares every other.
   */
  lemma RemoveThenRead(files: map<string, string>, id: string, other: string, locale: Option<string>)
    ensures Read(Remove(files, id, {}), other, locale)
            == if Covers(id, other, locale) then "" else Read(files, other, locale)
    ensures '.' !in id && '.' !in other ==> (Covers(id, other, locale) <==> id == other)
  {
    MatchesIffCovers(id, other, locale);
    if '.' !in id && '.' !in other && id != other { NoDotsUnrelated(id, other); }
  }

  // ---- The loop over the directory ----

  class Directory {
    var files: map<string, string>

    /** Goes through the entries in any order; a file that cannot be removed is left. */
    method RemoveMdFiles(id: string, stuck: set<string>) returns (deleted: bool)
      modifies this
      ensures files == Remove(old(files), id, stuck)
      ensures deleted <==> files != old(files)
    {
      var entries := files.Keys;
      var prefix, exact := id + ".", id + ".md";
      deleted := false;
      while entries != {}
        invariant entries <= files.Keys
        invariant files == map name | name in old(files) && (name in entries || !Matches(name, id) || name in stuck) ::
                  old(files)[name]
        invariant deleted <==> files != old(files)
      {
        var name :| name in entries;
        entries := entries - {name};
        if name == exact || (prefix <= name && EndsWith(name, ".md")) {
          if name in stuck {
            continue;
          }
          files := files - {name};
          deleted := true;
        }
      }
    }
  }
}
