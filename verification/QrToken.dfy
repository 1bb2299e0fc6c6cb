/**
 One-time QR login tokens with a lifetime of five minutes and a background cleanup.

 Tokens come from fresh random bytes, so a new token differs from every earlier one; the clock
 is a step of its own, so that statements can be made about clocks that run backwards too.
 */
module QrToken {
  import opened Wrappers
  import Hex

  const QR_TOKEN_TTL_MS: int := 5 * 60 * 1000
  const MAX_I64: int := 0x7fff_ffff_ffff_ffff

  datatype Token = Token(hex: string)
  datatype Data = Data(createdAt: int, used: bool)
  datatype TokenError = Invalid | AlreadyUsed | Expired

  /** The saturating difference of two 64-bit times. */
  function Elapsed(now: int, since: int): int {
    var d := now - since;
    if d > MAX_I64 then MAX_I64 else if d < -MAX_I64 - 1 then -MAX_I64 - 1 else d
  }

  function Answer(tokens: map<Token, Data>, t: Token, now: int): Result<(), TokenError> {
    if t !in tokens then Err(Invalid)
    else if tokens[t].used then Err(AlreadyUsed)
    else if Elapsed(now, tokens[t].createdAt) > QR_TOKEN_TTL_MS then Err(Expired)
    else Ok(())
  }

  function Kept(tokens: map<Token, Data>, now: int): map<Token, Data> {
    map t | t in tokens && Elapsed(now, tokens[t].createdAt) <= QR_TOKEN_TTL_MS :: tokens[t]
  }

  datatype State = State(
    now: int,
    tokens: map<Token, Data>,
    generated: map<Token, int>,  // history: when each token was generated
    log: seq<(Token, bool)>      // history: the attempts to consume a token and whether they succeeded
  )

  datatype Step = Clock(now: int) | Generate(t: Token) | Consume(t: Token) | Cleanup

  function Apply(s: State, e: Step): State {
    match e
    case Clock(now) => s.(now := now)
    case Generate(t) =>
      if t in s.generated then s
      else s.(tokens := s.tokens[t := Data(s.now, false)], generated := s.generated[t := s.now])
    case Consume(t) =>
      if Answer(s.tokens, t, s.now).Ok?
      then s.(tokens := s.tokens[t := s.tokens[t].(used := true)], log := s.log + [(t, true)])
      else s.(log := s.log + [(t, false)])
    case Cleanup => s.(tokens := Kept(s.tokens, s.now))
  }

  function After(s: State, steps: seq<Step>): State
    decreases |steps|
  {
    if steps == [] then s else After(Apply(s, steps[0]), steps[1..])
  }

  const EMPTY := State(0, map[], map[], [])

  // ---- At most once, whatever the clock does ----

  function Successes(log: seq<(Token, bool)>, t: Token): nat {
    if log == [] then 0
    else Successes(log[..|log| - 1], t) + if log[|log| - 1] == (t, true) then 1 else 0
  }

  ghost predicate OnceInv(s: State, t: Token) {
    && (t in s.tokens ==> t in s.generated)
    && (t !in s.generated ==> Successes(s.log, t) == 0)
    && (t in s.tokens && !s.tokens[t].used ==> Successes(s.log, t) == 0)
    && Successes(s.log, t) <= 1
  }

  lemma {:induction false} RunKeepsOnce(s: State, steps: seq<Step>, t: Token)
    requires OnceInv(s, t)
    ensures OnceInv(After(s, steps), t)
    decreases |steps|
  {
    if steps != [] {
      var u := Apply(s, steps[0]);
      if steps[0].Consume? { assert u.log[..|u.log| - 1] == s.log; }
      RunKeepsOnce(u, steps[1..], t);
    }
  }

  /** No run accepts a token twice, even if the clock is set back between the attempts. */
  lemma AcceptedAtMostOnce(steps: seq<Step>, t: Token)
    ensures Successes(After(EMPTY, steps).log, t) <= 1
  {
    RunKeepsOnce(EMPTY, steps, t);
  }

  // ---- Exactly when, and cleanup unseen, for a clock that does not run backwards ----

  ghost predicate Forward(now: int, steps: seq<Step>)
    decreases |steps|
  {
    steps != [] ==>
      if steps[0].Clock? then now <= steps[0].now && Forward(steps[0].now, steps[1..]) else Forward(now, steps[1..])
  }

  /**
   What the attempts should answer, from the history alone: the token was generated, has not
   been accepted before, and the time is no later than the expiry that was handed out with it.
   */
  function Expected(now: int, generated: map<Token, int>, consumed: set<Token>, steps: seq<Step>): seq<(Token, bool)>
    decreases |steps|
  {
    if steps == [] then []
    else
      var rest := steps[1..];
      match steps[0]
      case Clock(at) => Expected(at, generated, consumed, rest)
      case Generate(t) => Expected(now, if t in generated then generated else generated[t := now], consumed, rest)
      case Consume(t) =>
        var ok := t in generated && t !in consumed && now <= generated[t] + QR_TOKEN_TTL_MS;
        [(t, ok)] + Expected(now, generated, if ok then consumed + {t} else consumed, rest)
      case Cleanup => Expected(now, generated, consumed, rest)
  }

  /** A stored token mirrors its history, and one that is gone has expired. */
  ghost predicate Mirrors(s: State, consumed: set<Token>) {
    && (forall t <- s.generated :: s.generated[t] <= s.now)
    && (forall t <- s.tokens :: t in s.generated && s.tokens[t] == Data(s.generated[t], t in consumed))
    && (forall t <- s.generated :: t in s.tokens || s.now > s.generated[t] + QR_TOKEN_TTL_MS)
    && (forall t <- consumed :: t in s.generated)
  }

  lemma {:induction false} AnswersAreExpected(s: State, consumed: set<Token>, steps: seq<Step>)
    requires Mirrors(s, consumed) && Forward(s.now, steps)
    ensures After(s, steps).log == s.log + Expected(s.now, s.generated, consumed, steps)
    decreases |steps|
  {
    if steps != [] {
      var e := steps[0];
      var u := Apply(s, e);
      var ok := e.Consume? && e.t in s.generated && e.t !in consumed && s.now <= s.generated[e.t] + QR_TOKEN_TTL_MS;
      assert e.Consume? ==> ok == Answer(s.tokens, e.t, s.now).Ok?;
      AnswersAreExpected(u, if ok then consumed + {e.t} else consumed, steps[1..]);
      if e.Consume? { assert u.log == s.log + [(e.t, ok)]; }
    }
  }

  /**
   A token is accepted exactly when it was generated, not yet accepted, and not past its
   expiry; cleanups anywhere in the run change no answer, since the expectation ignores them.
   */
  lemma AcceptedExactlyWhen(steps: seq<Step>)
    requires Forward(0, steps)
    ensures After(EMPTY, steps).log == Expected(0, map[], {}, steps)
  {
    AnswersAreExpected(EMPTY, {}, steps);
  }

  // ---- The store ----

  class Store {
    var tokens: map<Token, Data>

    constructor ()
      ensures tokens == map[]
    {
      tokens := map[];
    }

    method GenerateWithExpiry(random: seq<byte>, now: int) returns (t: Token, expiresAt: int)
      modifies this
      ensures t == Token(Hex.Encode(random)) && expiresAt == now + QR_TOKEN_TTL_MS
      ensures tokens == old(tokens)[t := Data(now, false)]
      ensures now <= MAX_I64 ==> forall later | now <= later <= MAX_I64 && now >= 0 ::
                Answer(tokens, t, later).Ok? <==> later <= expiresAt
    {
      var hex := Hex.ToHex(random);
      t := Token(hex);
      tokens := tokens[t := Data(now, false)];
      expiresAt := now + QR_TOKEN_TTL_MS;
    }

    method ValidateAndConsume(t: Token, now: int) returns (r: Result<(), TokenError>)
      modifies this
      ensures r == Answer(old(tokens), t, now)
      ensures r == Err(Invalid) <==> t !in old(tokens)
      ensures r == Err(AlreadyUsed) <==> t in old(tokens) && old(tokens)[t].used
      ensures r == Err(Expired)
              <==> t in old(tokens) && !old(tokens)[t].used && now - old(tokens)[t].createdAt > 5 * 60 * 1000
      ensures tokens == if r.Ok? then old(tokens)[t := old(tokens)[t].(used := true)] else old(tokens)
    {
      if t !in tokens {
        return Err(Invalid);
      }
      if tokens[t].used {
        return Err(AlreadyUsed);
      }
      if Elapsed(now, tokens[t].createdAt) > QR_TOKEN_TTL_MS {
        return Err(Expired);
      }
      tokens := tokens[t := tokens[t].(used := true)];
      return Ok(());
    }

    method CleanupExpired(now: int)
      modifies this
      ensures tokens == Kept(old(tokens), now)
      ensures forall t :: t in tokens <==> t in old(tokens) && now - old(tokens)[t].createdAt <= 5 * 60 * 1000
    {
      var left := tokens.Keys;
      while left != {}
        invariant left <= tokens.Keys
        invariant forall t ::
                    t in tokens
                    <==> t in old(tokens) && (t in left || Elapsed(now, old(tokens)[t].createdAt) <= QR_TOKEN_TTL_MS)
        invariant forall t <- tokens :: tokens[t] == old(tokens)[t]
        decreases left
      {
        var t :| t in left;
        if !(Elapsed(now, tokens[t].createdAt) <= QR_TOKEN_TTL_MS) {
          tokens := tokens - {t};
        }
        left := left - {t};
      }
    }
  }

  /** Fresh random bytes give a token that no earlier bytes gave. */
  lemma FreshBytesFreshToken(random: seq<byte>, earlier: set<seq<byte>>)
    requires random !in earlier
    ensures forall r <- earlier :: Token(Hex.Encode(r)) != Token(Hex.Encode(random))
  {
    forall r <- earlier ensures Token(Hex.Encode(r)) != Token(Hex.Encode(random)) {
      if Hex.Encode(r) == Hex.Encode(random) {
        Hex.EncodeIsInjective(r, random);
      }
    }
  }
}
