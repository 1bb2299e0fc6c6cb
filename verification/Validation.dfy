/** The rules for passwords and usernames. */
module Validation {
  import opened Wrappers

  datatype PasswordError = TooShort | TooLong | TooCommon

  datatype UsernameError = NameTooShort | NameTooLong | BadCharacter | BadEnd

  const MIN_PASSWORD_LENGTH := 8
  const MAX_PASSWORD_LENGTH := 128
  const MIN_USERNAME_LENGTH := 3
  const MAX_USERNAME_LENGTH := 32

  const WEAK_PASSWORDS: set<string> := {"password", "12345678", "123456789", "qwertyui", "abcdefgh"}

  /** How many bytes a character takes in UTF-8. */
  function Width(c: char): nat {
    if c as int < 0x80 then 1 else if c as int < 0x800 then 2 else if c as int < 0x1_0000 then 3 else 4
  }

  /** The length that the rules count: bytes. */
  function ByteLength(s: string): (n: nat)
    ensures n >= |s|
  {
    if s == "" then 0 else Width(s[0]) + ByteLength(s[1..])
  }

  function Lower(c: char): char { if 'A' <= c <= 'Z' then c + ('a' - 'A') else c }

  function ToLower(s: string): string { seq(|s|, i requires 0 <= i < |s| => Lower(s[i])) }

  function ValidatePassword(p: string): Result<(), PasswordError> {
    if ByteLength(p) < MIN_PASSWORD_LENGTH then Err(TooShort)
    else if ByteLength(p) > MAX_PASSWORD_LENGTH then Err(TooLong)
    else if ToLower(p) in WEAK_PASSWORDS then Err(TooCommon)
    else Ok(())
  }

  predicate IsLetterOrDigit(c: char) { 'a' <= c <= 'z' || 'A' <= c <= 'Z' || '0' <= c <= '9' }

  function ValidateUsername(name: string): Result<(), UsernameError> {
    if ByteLength(name) < MIN_USERNAME_LENGTH then Err(NameTooShort)
    else if ByteLength(name) > MAX_USERNAME_LENGTH then Err(NameTooLong)
    else if exists c <- name :: !IsLetterOrDigit(c) && c != '_' && c != '-' then Err(BadCharacter)
    else if name[0] in {'-', '_'} || name[|name| - 1] in {'-', '_'} then Err(BadEnd)
    else Ok(())
  }

  predicate IsAscii(s: string) { forall c <- s :: c as int < 0x80 }

  lemma {:induction false} AsciiLength(s: string)
    ensures ByteLength(s) == |s| <==> IsAscii(s)
  {
    if s != "" {
      AsciiLength(s[1..]);
      assert forall c :: c in s <==> c == s[0] || c in s[1..];
      assert s[0] in s && forall c <- s[1..] :: c in s;
    }
  }

  /** The same text but for upper and lower case. */
  predicate IsInAnyCase(p: string, w: string) {
    |p| == |w| && forall i | 0 <= i < |p| :: p[i] == w[i] || ('A' <= p[i] <= 'Z' && p[i] as int + 32 == w[i] as int)
  }

  /** The rule as it is documented: it speaks of characters where the code counts bytes. */
  function DocumentedRule(p: string): Result<(), PasswordError> {
    if |p| < 8 then Err(TooShort)
    else if |p| > 128 then Err(TooLong)
    else if exists w <- {"password", "12345678", "123456789", "qwertyui", "abcdefgh"} :: IsInAnyCase(p, w)
    then Err(TooCommon)
    else Ok(())
  }

  lemma WeakLetter(w: string, i: nat)
    requires w in WEAK_PASSWORDS && i < |w|
    ensures '1' <= w[i] <= 'z'
  {
  }

  /** Without upper-case letters, lowering a text gives w exactly when the text is w in some case. */
  lemma LowersTo(p: string, w: string)
    requires forall c <- w :: !('A' <= c <= 'Z')
    ensures ToLower(p) == w <==> IsInAnyCase(p, w)
  {
    if IsInAnyCase(p, w) {
      forall i | 0 <= i < |p| ensures Lower(p[i]) == w[i] { assert w[i] in w; }
      assert ToLower(p) == w;
    } else if ToLower(p) == w {
      forall i | 0 <= i < |p|
        ensures p[i] == w[i] || ('A' <= p[i] <= 'Z' && p[i] as int + 32 == w[i] as int)
      {
        assert w[i] == Lower(p[i]);
      }
    }
  }

  lemma WeakInAnyCase(p: string)
    ensures ToLower(p) in WEAK_PASSWORDS
            <==> exists w <- {"password", "12345678", "123456789", "qwertyui", "abcdefgh"} :: IsInAnyCase(p, w)
  {
    forall w <- WEAK_PASSWORDS ensures ToLower(p) == w <==> IsInAnyCase(p, w) {
      LowersTo(p, w);
    }
  }

  lemma WeakIsAscii(p: string)
    requires ToLower(p) in WEAK_PASSWORDS
    ensures ByteLength(p) == |p| && MIN_PASSWORD_LENGTH <= |p| <= 9
  {
    forall c | c in p ensures c as int < 0x80 {
      var i :| 0 <= i < |p| && p[i] == c;
      WeakLetter(ToLower(p), i);
    }
    AsciiLength(p);
    assert |ToLower(p)| == |p|;
  }

  /**
   For every password, the code accepts what the rule accepts exactly when its characters and its
   bytes are both within the lengths or neither is: bytes are never fewer.
   */
  lemma LengthRuleIff(p: string)
    ensures ValidatePassword(p).Ok? == DocumentedRule(p).Ok?
            <==> !(|p| < MIN_PASSWORD_LENGTH <= ByteLength(p) <= MAX_PASSWORD_LENGTH)
                 && !(MIN_PASSWORD_LENGTH <= |p| <= MAX_PASSWORD_LENGTH < ByteLength(p))
  {
    WeakInAnyCase(p);
    if ToLower(p) in WEAK_PASSWORDS { WeakIsAscii(p); }
  }

  /** So it does for ASCII passwords. */
  lemma LengthRule(p: string)
    requires IsAscii(p)
    ensures ValidatePassword(p) == DocumentedRule(p)
  {
    WeakInAnyCase(p);
    AsciiLength(p);
  }

  function Copies(c: char, n: nat): string { if n == 0 then "" else [c] + Copies(c, n - 1) }

  lemma {:induction false} CopiesLength(c: char, n: nat)
    ensures |Copies(c, n)| == n && ByteLength(Copies(c, n)) == n * Width(c)
  {
    if n > 0 {
      CopiesLength(c, n - 1);
      assert ([c] + Copies(c, n - 1))[1..] == Copies(c, n - 1);
    }
  }

  lemma CopiesAreNotWeak(c: char, n: nat)
    requires c as int >= 0x80
    ensures ToLower(Copies(c, n)) !in WEAK_PASSWORDS
  {
    CopiesLength(c, n);
    if ToLower(Copies(c, n)) in WEAK_PASSWORDS {
      WeakIsAscii(Copies(c, n));
    }
  }

  /**
   Copies of a character outside of ASCII are accepted from 4 to 64, from 3 to 42, or from 2 to 32 of
   them, by the bytes that it takes, where the documented rule asks for 8 to 128.
   */
  lemma RulesDisagree(c: char, n: nat)
    requires c as int >= 0x80
    ensures ValidatePassword(Copies(c, n)).Ok?
            <==> if c as int < 0x800 then 4 <= n <= 64 else if c as int < 0x1_0000 then 3 <= n <= 42 else 2 <= n <= 32
    ensures DocumentedRule(Copies(c, n)).Ok? <==> 8 <= n <= 128
  {
    CopiesLength(c, n);
    CopiesAreNotWeak(c, n);
    WeakInAnyCase(Copies(c, n));
  }

  /** An accepted username has 3 to 32 characters, of the allowed ones, and neither end is a separator. */
  lemma ValidUsernameIff(name: string)
    ensures ValidateUsername(name).Ok?
            <==> 3 <= |name| <= 32
                 && (forall c <- name :: 'a' <= c <= 'z' || 'A' <= c <= 'Z' || '0' <= c <= '9' || c == '_' || c == '-')
                 && name[0] != '_' && name[0] != '-' && name[|name| - 1] != '_' && name[|name| - 1] != '-'
  {
    AsciiLength(name);
  }

  /** What a refused username is told, for names of ASCII characters; other names have a bad character. */
  lemma UsernameErrors(name: string)
    ensures IsAscii(name) ==>
              && (ValidateUsername(name) == Err(NameTooShort) <==> |name| < 3)
              && (ValidateUsername(name) == Err(NameTooLong) <==> |name| > 32)
    ensures !IsAscii(name) && 3 <= ByteLength(name) <= 32 ==> ValidateUsername(name) == Err(BadCharacter)
    ensures ValidateUsername(name) == Err(BadEnd)
            ==> (forall c <- name :: IsLetterOrDigit(c) || c == '_' || c == '-')
                && (name[0] in "-_" || name[|name| - 1] in "-_")
  {
    hide ByteLength;
    AsciiLength(name);
  }
}
