/** Generated credentials: every random byte is an input. */
module Password {
  import opened Wrappers
  import opened Validation

  const LOWER := "abcdefghijklmnopqrstuvwxyz"
  const UPPER := "ABCDEFGHIJKLMNOPQRSTUVWXYZ"
  const DIGITS := "0123456789"
  const SPECIAL := "!@#$%^&*"
  const ALPHANUMERIC_LOWER := "abcdefghijklmnopqrstuvwxyz0123456789"
  /** The four sets in this order, which the source spells out. */
  const ALL_PASSWORD_CHARS := UPPER + LOWER + DIGITS + SPECIAL

  /** Every character set, place by place. */
  lemma SetsAre(i: nat)
    ensures |UPPER| == |LOWER| == 26 && (i < 26 ==> UPPER[i] as int == 65 + i && LOWER[i] as int == 97 + i)
    ensures |DIGITS| == 10 && (i < 10 ==> DIGITS[i] as int == 48 + i)
    ensures |ALPHANUMERIC_LOWER| == 36
            && (i < 36 ==> ALPHANUMERIC_LOWER[i] as int == if i < 26 then 97 + i else 48 + i - 26)
    ensures |SPECIAL| == 8 && SPECIAL[..4] == "!@#$" && SPECIAL[4..] == "%^&*"
    ensures |ALL_PASSWORD_CHARS| == 70
            && (i < 70 ==> ALL_PASSWORD_CHARS[i] == if i < 26 then UPPER[i] else if i < 52 then LOWER[i - 26]
                                                    else if i < 62 then DIGITS[i - 52] else SPECIAL[i - 62])
  {
  }

  // ---- The shuffle ----

  function Swap<T>(s: seq<T>, i: nat, j: nat): seq<T>
    requires i < |s| && j < |s|
  {
    s[i := s[j]][j := s[i]]
  }

  /** The places that positions `n - 1`, `n - 2`, down to 1 are swapped with. */
  predicate AreChoices(choices: seq<nat>) { forall i | 0 <= i < |choices| :: choices[i] <= i }

  function ShuffleBy<T>(s: seq<T>, choices: seq<nat>, n: nat): seq<T>
    requires n <= |s| == |choices| && AreChoices(choices)
    decreases n
  {
    if n <= 1 then s else ShuffleBy(Swap(s, n - 1, choices[n - 1]), choices, n - 1)
  }

  lemma SmallMod(x: nat, n: nat)
    requires x < n
    ensures x % n == x
  {
  }

  lemma AtLeastOnce(a: int, n: nat)
    ensures a >= 1 ==> a * n >= n
    ensures a <= -1 ==> a * n + n <= 0
  {
    if a >= 1 { assert a * n == n + (a - 1) * n; }
    if a <= -1 { assert a * n + n == (a + 1) * n; }
  }

  lemma LessOnce(x: nat, n: nat)
    requires 0 < n <= x
    ensures x % n == (x - n) % n
  {
    var y := x - n;
    var d := x / n - y / n - 1;
    assert x == n * (x / n) + x % n && y == n * (y / n) + y % n;
    assert d * n == n * (x / n) - n * (y / n) - n;
    AtLeastOnce(d, n);
  }

  /** The place that a random byte chooses for a position. */
  function Choice(b: byte, i: nat): (j: nat)
    ensures j <= i && j < 256
  {
    b as nat % (i + 1)
  }

  /** A byte up to the position chooses its own place; a larger one the place of what is left of it. */
  lemma ChoiceWraps(b: byte, i: nat)
    ensures b as nat <= i ==> Choice(b, i) == b as nat
    ensures b as nat > i ==> Choice(b, i) == Choice((b as nat - i - 1) as byte, i)
  {
    if b as nat <= i { SmallMod(b as nat, i + 1); } else { LessOnce(b as nat, i + 1); }
  }

  function Choices(bytes: seq<byte>): (choices: seq<nat>)
    ensures |choices| == |bytes| && AreChoices(choices)
  {
    seq(|bytes|, i requires 0 <= i < |bytes| => Choice(bytes[i], i))
  }

  function Shuffled<T>(s: seq<T>, bytes: seq<byte>): seq<T>
    requires |bytes| == |s|
  {
    ShuffleBy(s, Choices(bytes), |s|)
  }

  lemma SwapPermutes<T>(s: seq<T>, i: nat, j: nat)
    requires i < |s| && j < |s|
    ensures multiset(Swap(s, i, j)) == multiset(s)
  {
  }

  /** Positions from `n` on stay as they are. */
  lemma {:induction false} ShuffleKeepsTail<T>(s: seq<T>, choices: seq<nat>, n: nat, k: nat)
    requires n <= |s| == |choices| && AreChoices(choices) && n <= k < |s|
    ensures |ShuffleBy(s, choices, n)| == |s| && ShuffleBy(s, choices, n)[k] == s[k]
    decreases n
  {
    if n > 1 { ShuffleKeepsTail(Swap(s, n - 1, choices[n - 1]), choices, n - 1, k); }
  }

  lemma {:induction false} ShuffleByPermutes<T>(s: seq<T>, choices: seq<nat>, n: nat)
    requires n <= |s| == |choices| && AreChoices(choices)
    ensures multiset(ShuffleBy(s, choices, n)) == multiset(s) && |ShuffleBy(s, choices, n)| == |s|
    decreases n
  {
    if n > 1 {
      SwapPermutes(s, n - 1, choices[n - 1]);
      ShuffleByPermutes(Swap(s, n - 1, choices[n - 1]), choices, n - 1);
    }
  }

  /** Whatever the bytes, a shuffle rearranges. */
  lemma ShufflePermutes<T>(s: seq<T>, bytes: seq<byte>)
    requires |bytes| == |s|
    ensures multiset(Shuffled(s, bytes)) == multiset(s) && |Shuffled(s, bytes)| == |s|
  {
    ShuffleByPermutes(s, Choices(bytes), |s|);
  }

  // ---- Which arrangements are possible ----

  /** The choices for other positions do not matter. */
  lemma {:induction false} OtherChoices<T>(s: seq<T>, a: seq<nat>, b: seq<nat>, n: nat)
    requires n <= |s| == |a| == |b| && AreChoices(a) && AreChoices(b) && forall k | 0 <= k < n :: a[k] == b[k]
    ensures ShuffleBy(s, a, n) == ShuffleBy(s, b, n)
    decreases n
  {
    if n > 1 { OtherChoices(Swap(s, n - 1, a[n - 1]), a, b, n - 1); }
  }

  lemma WithoutLast<T>(s: seq<T>, all: multiset<T>, x: T)
    requires s != [] && multiset(s) == all && s[|s| - 1] == x
    ensures multiset(s[..|s| - 1]) == all - multiset{x}
  {
    assert s == s[..|s| - 1] + [x];
  }

  lemma SwapLast<T>(s: seq<T>, t: seq<T>, j: nat)
    requires |t| == |s| > j && s[j] == t[|s| - 1] && multiset(s) == multiset(t)
    ensures multiset(Swap(s, |s| - 1, j)[..|s| - 1]) == multiset(t[..|s| - 1])
  {
    SwapPermutes(s, |s| - 1, j);
    WithoutLast(Swap(s, |s| - 1, j), multiset(t), t[|s| - 1]);
    WithoutLast(t, multiset(t), t[|s| - 1]);
  }

  lemma SwapOfFront<T>(s: seq<T>, n: nat, j: nat)
    requires j < n <= |s|
    ensures Swap(s[..n], n - 1, j)[..n - 1] == Swap(s, n - 1, j)[..n - 1]
  {
  }

  lemma SwapFront<T>(s: seq<T>, t: seq<T>, n: nat, j: nat)
    requires 0 < n <= |s| == |t| && j < n && s[j] == t[n - 1] && multiset(s[..n]) == multiset(t[..n])
    ensures multiset(Swap(s, n - 1, j)[..n - 1]) == multiset(t[..n - 1])
  {
    SwapLast(s[..n], t[..n], j);
    SwapOfFront(s, n, j);
    assert t[..n][..n - 1] == t[..n - 1];
  }

  lemma SwapBack<T>(s: seq<T>, t: seq<T>, n: nat, j: nat)
    requires 0 < n <= |s| == |t| && j < n && s[j] == t[n - 1] && s[n..] == t[n..]
    ensures Swap(s, n - 1, j)[n - 1..] == t[n - 1..]
  {
  }

  lemma OneLeft<T>(s: seq<T>, t: seq<T>, n: nat)
    requires n <= 1 && n <= |s| == |t| && multiset(s[..n]) == multiset(t[..n]) && s[n..] == t[n..]
    ensures s == t
  {
    if n == 1 {
      assert s[..1] == [s[0]] && t[..1] == [t[0]];
      assert s[0] in multiset(t[..1]);
    }
    assert s == s[..n] + s[n..] && t == t[..n] + t[n..];
  }

  /** Where the element that has to come last of the first `n` is. */
  lemma PickLast<T>(s: seq<T>, t: seq<T>, n: nat) returns (j: nat)
    requires 0 < n <= |s| == |t| && multiset(s[..n]) == multiset(t[..n]) && s[n..] == t[n..]
    ensures j < n && var u := Swap(s, n - 1, j);
            multiset(u[..n - 1]) == multiset(t[..n - 1]) && u[n - 1..] == t[n - 1..]
  {
    assert t[..n][n - 1] in multiset(t[..n]);
    j :| j < n && s[..n][j] == t[n - 1];
    SwapFront(s, t, n, j);
    SwapBack(s, t, n, j);
  }

  lemma StepWith<T>(s: seq<T>, rest: seq<nat>, n: nat, j: nat, t: seq<T>)
    requires 1 < n <= |s| == |rest| && AreChoices(rest) && j < n && ShuffleBy(Swap(s, n - 1, j), rest, n - 1) == t
    ensures AreChoices(rest[n - 1 := j]) && ShuffleBy(s, rest[n - 1 := j], n) == t
  {
    OtherChoices(Swap(s, n - 1, j), rest, rest[n - 1 := j], n - 1);
  }

  lemma Untouched<T>(s: seq<T>, n: nat) returns (choices: seq<nat>)
    requires n <= 1 && n <= |s|
    ensures |choices| == |s| && AreChoices(choices) && ShuffleBy(s, choices, n) == s
  {
    choices := seq(|s|, _ => 0);
  }

  /** Choices that bring the first `n` elements into any order. */
  lemma {:induction false} ReachFrom<T>(s: seq<T>, t: seq<T>, n: nat) returns (choices: seq<nat>)
    requires n <= |s| == |t| && multiset(s[..n]) == multiset(t[..n]) && s[n..] == t[n..]
    ensures |choices| == |s| && AreChoices(choices) && ShuffleBy(s, choices, n) == t
    decreases n
  {
    if n <= 1 {
      OneLeft(s, t, n);
      choices := Untouched(s, n);
    } else {
      var j := PickLast(s, t, n);
      var u := Swap(s, n - 1, j);
      var rest := ReachFrom(u, t, n - 1);
      StepWith(s, rest, n, j, t);
      choices := rest[n - 1 := j];
    }
  }

  lemma ChoiceOf(j: nat, i: nat)
    requires j <= i && j < 256
    ensures Choice(j as byte, i) == j
  {
  }

  /** Up to 256 elements, every arrangement comes from some bytes. */
  lemma ShuffleReaches<T>(s: seq<T>, t: seq<T>) returns (bytes: seq<byte>)
    requires |s| <= 256 && multiset(s) == multiset(t)
    ensures |bytes| == |s| && Shuffled(s, bytes) == t
  {
    assert |multiset(s)| == |s| && |multiset(t)| == |t|;
    assert s[..|s|] == s && t[..|t|] == t;
    var choices := ReachFrom(s, t, |s|);
    bytes := seq(|s|, i requires 0 <= i < |s| => choices[i] as byte);
    forall i | 0 <= i < |s| ensures Choices(bytes)[i] == choices[i] { ChoiceOf(choices[i], i); }
    assert Choices(bytes) == choices;
  }

  /** With more, a byte cannot choose the last place: an element that is only there never stays. */
  lemma LongShuffleMoves<T>(s: seq<T>, bytes: seq<byte>)
    requires |bytes| == |s| > 256 && s[|s| - 1] !in s[..|s| - 1]
    ensures |Shuffled(s, bytes)| == |s| && Shuffled(s, bytes)[|s| - 1] != s[|s| - 1]
  {
    var n := |s|;
    var j := Choices(bytes)[n - 1];
    ShuffleKeepsTail(Swap(s, n - 1, j), Choices(bytes), n - 1, n - 1);
    assert s[..n - 1][j] == s[j];
  }

  // ---- Generating ----

  function Pick(charset: string, b: byte): (c: char)
    requires charset != ""
    ensures c in charset
  {
    charset[b as nat % |charset|]
  }

  /** A byte below the size of the set picks its place; a larger one what is left of it, less the size. */
  lemma PickWraps(charset: string, b: byte)
    requires charset != ""
    ensures b as nat < |charset| ==> Pick(charset, b) == charset[b]
    ensures b as nat >= |charset| ==> Pick(charset, b) == Pick(charset, (b as nat - |charset|) as byte)
  {
    if b as nat < |charset| { SmallMod(b as nat, |charset|); } else { LessOnce(b as nat, |charset|); }
  }

  /** A byte that picks the character. */
  lemma ByteFor(charset: string, c: char) returns (b: byte)
    requires c in charset && |charset| <= 256
    ensures Pick(charset, b) == c
  {
    var i :| 0 <= i < |charset| && charset[i] == c;
    b := i as byte;
    SmallMod(i, |charset|);
  }

  lemma {:induction false} BytesFor(charset: string, s: string) returns (bytes: seq<byte>)
    requires charset != "" && |charset| <= 256 && forall c <- s :: c in charset
    ensures |bytes| == |s| && forall i | 0 <= i < |s| :: Pick(charset, bytes[i]) == s[i]
  {
    bytes := [];
    if s != "" {
      var b := ByteFor(charset, s[0]);
      var rest := BytesFor(charset, s[1..]);
      bytes := [b] + rest;
    }
  }

  /** The random bytes that a password takes: one per category, one per further place, and the shuffle's. */
  datatype Randomness = Randomness(upper: byte, lower: byte, digit: byte, special: byte, fill: seq<byte>,
                                   shuffle: seq<byte>)

  predicate Enough(r: Randomness, len: nat) {
    |r.fill| == (if len < 4 then 0 else len - 4) && |r.shuffle| == |r.fill| + 4
  }

  function Assembled(r: Randomness): (s: string)
    ensures |s| == |r.fill| + 4
  {
    [Pick(UPPER, r.upper), Pick(LOWER, r.lower), Pick(DIGITS, r.digit), Pick(SPECIAL, r.special)]
    + seq(|r.fill|, i requires 0 <= i < |r.fill| => Pick(ALL_PASSWORD_CHARS, r.fill[i]))
  }

  function StrongPassword(len: nat, r: Randomness): string
    requires Enough(r, len)
  {
    Shuffled(Assembled(r), r.shuffle)
  }

  predicate HasOneOf(s: string, charset: string) { exists c <- s :: c in charset }

  lemma SameCharacters(s: string, t: string, c: char)
    requires multiset(s) == multiset(t) && c in s
    ensures c in t
  {
    assert c in multiset(s);
  }

  lemma AssembledFrom(r: Randomness, i: nat)
    requires i < |r.fill| + 4
    ensures var c := Assembled(r)[i]; c in UPPER || c in LOWER || c in DIGITS || c in SPECIAL
  {
    assert i >= 4 ==> Assembled(r)[i] in ALL_PASSWORD_CHARS;
  }

  /** The requested length, but at least four; a character of each category; none from elsewhere. */
  lemma PasswordIsStrong(len: nat, r: Randomness)
    requires Enough(r, len)
    ensures var p := StrongPassword(len, r);
            && |p| == (if len < 4 then 4 else len)
            && HasOneOf(p, UPPER) && HasOneOf(p, LOWER) && HasOneOf(p, DIGITS) && HasOneOf(p, SPECIAL)
            && (forall c <- p :: c in UPPER || c in LOWER || c in DIGITS || c in SPECIAL)
  {
    var a := Assembled(r);
    var p := StrongPassword(len, r);
    ShufflePermutes(a, r.shuffle);
    SameCharacters(a, p, a[0]);
    SameCharacters(a, p, a[1]);
    SameCharacters(a, p, a[2]);
    SameCharacters(a, p, a[3]);
    forall c | c in p ensures c in UPPER || c in LOWER || c in DIGITS || c in SPECIAL {
      SameCharacters(p, a, c);
      var i :| 0 <= i < |a| && a[i] == c;
      AssembledFrom(r, i);
    }
  }

  // ---- Which passwords come out ----

  /** The text without the first occurrence of a character. */
  function Without(s: string, c: char): (r: string)
    requires c in s
    ensures |r| == |s| - 1
  {
    if s[0] == c then s[1..] else [s[0]] + Without(s[1..], c)
  }

  lemma {:induction false} WithoutOne(s: string, c: char)
    requires c in s
    ensures multiset(s) == multiset([c] + Without(s, c))
    ensures forall d <- s :: d == c || d in Without(s, c)
  {
    assert s == [s[0]] + s[1..];
    if s[0] != c {
      WithoutOne(s[1..], c);
      assert [c] + ([s[0]] + Without(s[1..], c)) == [c, s[0]] + Without(s[1..], c);
      assert [s[0]] + ([c] + Without(s[1..], c)) == [s[0], c] + Without(s[1..], c);
    }
  }

  lemma OneMoreFront(s: string, a: string, c: char)
    requires c in s
    ensures multiset(a + s) == multiset((a + [c]) + Without(s, c))
  {
    WithoutOne(s, c);
    assert (a + [c]) + Without(s, c) == a + ([c] + Without(s, c));
  }

  lemma IsUpper(c: char)
    requires c in UPPER
    ensures 'A' <= c <= 'Z'
  {
  }

  lemma IsLower(c: char)
    requires c in LOWER
    ensures 'a' <= c <= 'z'
  {
  }

  lemma IsDigit(c: char)
    requires c in DIGITS
    ensures '0' <= c <= '9'
  {
  }

  lemma IsSpecial(c: char)
    requires c in SPECIAL
    ensures c < '0' || c == '@' || c == '^'
  {
  }

  lemma AllDifferent(a: char, b: char, c: char, d: char)
    requires a in UPPER && b in LOWER && c in DIGITS && d in SPECIAL
    ensures a != b && a != c && a != d && b != c && b != d && c != d
  {
    IsUpper(a);
    IsLower(b);
    IsDigit(c);
    IsSpecial(d);
  }

  lemma StillIn(s: string, c: char, d: char)
    requires c in s && d in s && c != d
    ensures d in Without(s, c)
  {
    WithoutOne(s, c);
  }

  /** Two characters, not the same, brought to the front. */
  lemma TwoFirst(t: string, front: string, a: char, b: char) returns (rest: string)
    requires a in t && b in t && a != b
    ensures multiset(front + t) == multiset((front + [a, b]) + rest)
    ensures forall c <- t :: c != a && c != b ==> c in rest
  {
    hide Without;
    StillIn(t, a, b);
    var t1 := Without(t, a);
    rest := Without(t1, b);
    OneMoreFront(t, front, a);
    OneMoreFront(t1, front + [a], b);
    assert (front + [a]) + [b] == front + [a, b];
    forall c <- t ensures c != a && c != b ==> c in rest {
      if c != a && c != b {
        StillIn(t, a, c);
        StillIn(t1, b, c);
      }
    }
  }

  /** The text with four of its characters, all different, brought to the front. */
  lemma FourFirst(t: string, a: char, b: char, c: char, d: char) returns (rest: string)
    requires a in t && b in t && c in t && d in t
    requires a != b && a != c && a != d && b != c && b != d && c != d
    ensures multiset([a, b, c, d] + rest) == multiset(t)
  {
    var two := TwoFirst(t, "", a, b);
    rest := TwoFirst(two, [a, b], c, d);
    assert "" + t == t && "" + [a, b] == [a, b] && [a, b] + [c, d] == [a, b, c, d];
  }

  lemma RestIsFrom(t: string, front: string, rest: string)
    requires multiset(front + rest) == multiset(t)
    ensures |front| + |rest| == |t| && forall x <- rest :: x in t
  {
    assert |multiset(front + rest)| == |front + rest| && |multiset(t)| == |t|;
    forall x <- rest ensures x in t {
      assert x in front + rest;
      SameCharacters(front + rest, t, x);
    }
  }

  /** Bytes with which these characters come before the shuffle. */
  lemma Assembles(a: char, b: char, c: char, d: char, rest: string, shuffle: seq<byte>) returns (r: Randomness)
    requires a in UPPER && b in LOWER && c in DIGITS && d in SPECIAL
    requires forall x <- rest :: x in UPPER || x in LOWER || x in DIGITS || x in SPECIAL
    ensures Assembled(r) == [a, b, c, d] + rest && |r.fill| == |rest| && r.shuffle == shuffle
  {
    var upper := ByteFor(UPPER, a);
    var lower := ByteFor(LOWER, b);
    var digit := ByteFor(DIGITS, c);
    var special := ByteFor(SPECIAL, d);
    var fill := BytesFor(ALL_PASSWORD_CHARS, rest);
    r := Randomness(upper, lower, digit, special, fill, shuffle);
  }

  /**
   Every text of 4 to 256 characters of the four sets, with one of each, comes out as a password
   for some random bytes.
   */
  lemma PasswordsReached(t: string) returns (r: Randomness)
    requires 4 <= |t| <= 256
    requires HasOneOf(t, UPPER) && HasOneOf(t, LOWER) && HasOneOf(t, DIGITS) && HasOneOf(t, SPECIAL)
    requires forall c <- t :: c in UPPER || c in LOWER || c in DIGITS || c in SPECIAL
    ensures Enough(r, |t|) && StrongPassword(|t|, r) == t
  {
    var a :| a in t && a in UPPER;
    var b :| b in t && b in LOWER;
    var c :| c in t && c in DIGITS;
    var d :| d in t && d in SPECIAL;
    AllDifferent(a, b, c, d);
    var rest := FourFirst(t, a, b, c, d);
    RestIsFrom(t, [a, b, c, d], rest);
    var shuffle := ShuffleReaches([a, b, c, d] + rest, t);
    r := Assembles(a, b, c, d, rest, shuffle);
  }

  lemma LettersAreAscii(c: char)
    requires c in UPPER || c in LOWER
    ensures 'A' <= c <= 'z'
  {
  }

  lemma OthersAreAscii(c: char)
    requires c in DIGITS || c in SPECIAL
    ensures '!' <= c <= '^'
  {
  }

  lemma PasswordIsAscii(len: nat, r: Randomness)
    requires Enough(r, len)
    ensures IsAscii(StrongPassword(len, r))
  {
    PasswordIsStrong(len, r);
    forall c | c in StrongPassword(len, r) ensures c as int < 0x80 {
      if c in UPPER || c in LOWER { LettersAreAscii(c); } else { OthersAreAscii(c); }
    }
  }

  lemma WeakHasNoSpecial(w: string, c: char)
    requires w in WEAK_PASSWORDS && c in SPECIAL
    ensures c !in w
  {
  }

  /** No listed weak password has a special character, in whatever case it is written. */
  lemma SpecialIsNotWeak(p: string)
    requires HasOneOf(p, SPECIAL)
    ensures ToLower(p) !in WEAK_PASSWORDS
  {
    var c :| c in p && c in SPECIAL;
    var i :| 0 <= i < |p| && p[i] == c;
    assert ToLower(p)[i] == c;
    if ToLower(p) in WEAK_PASSWORDS { WeakHasNoSpecial(ToLower(p), c); }
  }

  /** Whatever the random bytes, a generated password is accepted exactly when its length is. */
  lemma GeneratedPasswordIsValid(len: nat, r: Randomness)
    requires Enough(r, len)
    ensures ValidatePassword(StrongPassword(len, r)).Ok? <==> MIN_PASSWORD_LENGTH <= len <= MAX_PASSWORD_LENGTH
  {
    PasswordIsStrong(len, r);
    PasswordIsAscii(len, r);
    LengthRule(StrongPassword(len, r));
    SpecialIsNotWeak(StrongPassword(len, r));
  }

  // ---- Credentials ----

  function Range(min: nat, max: nat, word: nat): (n: nat)
    requires min < max
    ensures min <= n < max
  {
    min + word % (max - min)
  }

  function RandomString(charset: string, bytes: seq<byte>): (s: string)
    requires charset != ""
    ensures |s| == |bytes| && forall c <- s :: c in charset
  {
    seq(|bytes|, i requires 0 <= i < |bytes| => Pick(charset, bytes[i]))
  }

  /** A word below the size of the interval picks its place; a larger one what is left of it, less the size. */
  lemma RangeWraps(min: nat, max: nat, word: nat)
    requires min < max
    ensures word < max - min ==> Range(min, max, word) == min + word
    ensures word >= max - min ==> Range(min, max, word) == Range(min, max, word - (max - min))
  {
    if word < max - min { SmallMod(word, max - min); } else { LessOnce(word, max - min); }
  }

  lemma IsLowerAlphanumeric(c: char)
    requires 'a' <= c <= 'z' || '0' <= c <= '9'
    ensures c in ALPHANUMERIC_LOWER
  {
    var i := if c >= 'a' then c as nat - 'a' as nat else c as nat - '0' as nat + 26;
    assert ALPHANUMERIC_LOWER[i] == c;
  }

  /** Every name of 6 to 8 lower-case letters and digits comes out for some word and bytes. */
  lemma NamesReached(name: string) returns (word: nat, bytes: seq<byte>)
    requires 6 <= |name| <= 8 && forall c <- name :: 'a' <= c <= 'z' || '0' <= c <= '9'
    ensures word < 3 && |bytes| == Range(6, 9, word) && RandomString(ALPHANUMERIC_LOWER, bytes) == name
  {
    word := |name| - 6;
    RangeWraps(6, 9, word);
    forall c <- name ensures c in ALPHANUMERIC_LOWER { IsLowerAlphanumeric(c); }
    bytes := BytesFor(ALPHANUMERIC_LOWER, name);
  }

  /** And every password length of the interval for some word. */
  lemma PasswordLengthsReached(len: nat)
    requires 12 <= len <= 17
    ensures Range(12, 18, len - 12) == len
  {
    RangeWraps(12, 18, len - 12);
  }

  lemma LowerAlphanumeric(c: char)
    requires c in ALPHANUMERIC_LOWER
    ensures IsLetterOrDigit(c)
  {
  }

  lemma LettersAndDigits(name: string)
    requires 3 <= |name| <= 32 && forall c <- name :: IsLetterOrDigit(c)
    ensures ValidateUsername(name).Ok?
  {
    hide ValidateUsername;
    ValidUsernameIff(name);
    assert name[0] in name && name[|name| - 1] in name;
  }

  /**
   Whatever the random words and bytes, the generated username and password of a new user pass
   the validation that a user's own would have to pass.
   */
  lemma CredentialsAreValid(nameWord: nat, passwordWord: nat, nameBytes: seq<byte>, r: Randomness)
    requires |nameBytes| == Range(6, 9, nameWord) && Enough(r, Range(12, 18, passwordWord))
    ensures ValidateUsername(RandomString(ALPHANUMERIC_LOWER, nameBytes)).Ok?
    ensures ValidatePassword(StrongPassword(Range(12, 18, passwordWord), r)).Ok?
  {
    var name := RandomString(ALPHANUMERIC_LOWER, nameBytes);
    forall c | c in name ensures IsLetterOrDigit(c) { LowerAlphanumeric(c); }
    LettersAndDigits(name);
    GeneratedPasswordIsValid(Range(12, 18, passwordWord), r);
  }

  // ---- In place ----

  method ShuffleInPlace(chars: array<char>, bytes: seq<byte>)
    requires |bytes| == chars.Length
    modifies chars
    ensures chars[..] == Shuffled(old(chars[..]), bytes)
  {
    ghost var choices := Choices(bytes);
    var n: nat := chars.Length;
    while n > 1
      invariant n <= chars.Length
      invariant ShuffleBy(chars[..], choices, n) == Shuffled(old(chars[..]), bytes)
    {
      ghost var before := chars[..];
      var i := n - 1;
      var j := bytes[i] as nat % (i + 1);
      chars[i], chars[j] := chars[j], chars[i];
      assert j == choices[i] && chars[..] == Swap(before, i, j);
      n := n - 1;
    }
  }

  lemma TakeNext(front: string, rest: string, k: nat)
    requires |front| <= k < |front| + |rest|
    ensures (front + rest)[..k + 1] == (front + rest)[..k] + [rest[k - |front|]]
  {
  }

  lemma NextFill(r: Randomness, k: nat)
    requires 4 <= k < 4 + |r.fill|
    ensures Assembled(r)[..k + 1] == Assembled(r)[..k] + [Pick(ALL_PASSWORD_CHARS, r.fill[k - 4])]
  {
    hide Pick;
    var front := [Pick(UPPER, r.upper), Pick(LOWER, r.lower), Pick(DIGITS, r.digit), Pick(SPECIAL, r.special)];
    var filled := seq(|r.fill|, i requires 0 <= i < |r.fill| => Pick(ALL_PASSWORD_CHARS, r.fill[i]));
    assert Assembled(r) == front + filled;
    TakeNext(front, filled, k);
  }

  method GenerateStrongPassword(len: nat, r: Randomness) returns (password: string)
    requires Enough(r, len)
    ensures password == StrongPassword(len, r)
  {
    hide Pick, Shuffled;
    var chars := [];
    chars := chars + [Pick(UPPER, r.upper)];
    chars := chars + [Pick(LOWER, r.lower)];
    chars := chars + [Pick(DIGITS, r.digit)];
    chars := chars + [Pick(SPECIAL, r.special)];
    var k := 4;
    while k < len
      invariant 4 <= k && (k <= len || (len < 4 && k == 4))
      invariant |chars| == k && chars == Assembled(r)[..k]
    {
      NextFill(r, k);
      chars := chars + [Pick(ALL_PASSWORD_CHARS, r.fill[k - 4])];
      k := k + 1;
    }
    assert chars == Assembled(r);
    var buffer := new char[|chars|](i requires 0 <= i < |chars| => chars[i]);
    assert buffer[..] == chars;
    ShuffleInPlace(buffer, r.shuffle);
    return buffer[..];
  }

  /** The length is at least four, for one character of each category. */
  method GeneratePassword(len: nat, r: Randomness) returns (password: string)
    requires Enough(r, len)
    ensures password == StrongPassword(len, r)
  {
    password := GenerateStrongPassword(if len < 4 then 4 else len, r);
  }
}
