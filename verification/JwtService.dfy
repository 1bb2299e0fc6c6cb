/**
 Signing, verification and revocation of session tokens, with secret rotation.

 Cryptography is symbolic: a token either carries the secret it was signed with and its claims,
 or is some other text; the hash that keys the blacklist is taken to be injective, so the
 blacklist is keyed by the token. A token of this service can be presented only once it has
 been issued. The machine has one step for each lock acquisition, each access to the secret or
 the blacklist and each clock reading, for any number of concurrent calls.
 */
module JwtService {
  import opened Wrappers

  const TOKEN_EXPIRY: nat := 24 * 60 * 60
  const JWT_ISSUER := "aionui"
  const JWT_AUDIENCE := "aionui-webui"
  const LEEWAY: nat := 60  // seconds past the expiry that the token library still accepts

  type Secret = nat
  type CallId = nat

  datatype Claims = Claims(userId: string, username: string, iat: nat, exp: nat, iss: string, aud: string)
  datatype Token = Signed(key: Secret, claims: Claims) | Foreign(text: string)
  datatype AuthError = TokenBlacklisted | TokenExpired | TokenInvalid

  /** The token library's decoding, with or without the expiry check. */
  function Decode(t: Token, key: Secret, now: nat, checkExpiry: bool): Result<Claims, AuthError> {
    if t.Foreign? || t.key != key then Err(TokenInvalid)
    else if checkExpiry && t.claims.exp + LEEWAY < now then Err(TokenExpired)
    else if t.claims.iss != JWT_ISSUER || t.claims.aud != JWT_AUDIENCE then Err(TokenInvalid)
    else Ok(t.claims)
  }

  function NewClaims(user: string, name: string, now: nat): Claims {
    Claims(user, name, now, now + TOKEN_EXPIRY, JWT_ISSUER, JWT_AUDIENCE)
  }

  /** The expiry stored for a revoked token: its own, or a full lifetime when it does not decode. */
  function RevocationExpiry(t: Token, key: Secret, now: nat): nat {
    var claims := Decode(t, key, now, false);
    if claims.Ok? then claims.value.exp else now + TOKEN_EXPIRY
  }

  // ---- The concurrent machine ----

  datatype Call =
    | SignClocked(user: string, name: string, at: nat)
    | SignLocked(user: string, name: string, at: nat)
    | VerifyChecked(t: Token, late: bool)  // history: late when t had been revoked before the call began
    | VerifyLocked(t: Token, late: bool)
    | Verified(t: Token, late: bool, at: nat, ok: bool)
    | RevokeCalled(t: Token)
    | RevokeLocked(t: Token)
    | RevokeRead(t: Token, exp: nat)
    | RotateReady(k: Secret)
    | RotateLocked(k: Secret)
    | RotateSwapped(k: Secret)
    | RotateCleared(k: Secret)
    | Sweeping(at: nat)
    | Done

  datatype State = State(
    now: nat,
    secret: Secret,
    writer: Option<CallId>,
    readers: set<CallId>,
    blacklist: map<Token, nat>,
    calls: map<CallId, Call>,
    drawn: map<Secret, CallId>,  // history: random secrets drawn so far, and by which rotation
    used: set<Secret>,           // history: secrets that are or were current
    issued: set<Token>,          // history: tokens that exist
    revoked: set<Token>          // history: tokens whose revocation has returned
  )

  datatype Step =
    | Tick(seconds: nat)
    | BeginSign(c: CallId, user: string, name: string)
    | LockRead(c: CallId)
    | Issue(c: CallId)
    | BeginVerify(c: CallId, t: Token)
    | Check(c: CallId)
    | BeginRevoke(c: CallId, t: Token)
    | ReadExpiry(c: CallId)
    | Insert(c: CallId)
    | BeginRotate(c: CallId, k: Secret)
    | LockWrite(c: CallId)
    | Swap(c: CallId)
    | Clear(c: CallId)
    | Unlock(c: CallId)
    | BeginSweep(c: CallId)
    | Sweep(c: CallId, t: Token)

  /** A service whose first secret may have signed tokens in an earlier process. */
  function Start(earlier: set<Claims>): State {
    var issued := set claims | claims in earlier :: Signed(0, claims);
    State(0, 0, None, {}, map[], map[], map[], {0}, issued, {})
  }

  predicate Presentable(s: State, t: Token) { t.Foreign? || t in s.issued }

  function DoBegin(s: State, e: Step): State {
    match e
    case BeginSign(c, user, name) => s.(calls := s.calls[c := SignClocked(user, name, s.now)])
    case BeginVerify(c, t) =>
      if !Presentable(s, t) then s
      else if t in s.blacklist then s.(calls := s.calls[c := Verified(t, t in s.revoked, s.now, false)])
      else s.(calls := s.calls[c := VerifyChecked(t, t in s.revoked)])
    case BeginRevoke(c, t) => if Presentable(s, t) then s.(calls := s.calls[c := RevokeCalled(t)]) else s
    case BeginRotate(c, k) =>
      if k in s.drawn || k in s.used then s
      else s.(calls := s.calls[c := RotateReady(k)], drawn := s.drawn[k := c])
    case BeginSweep(c) => s.(calls := s.calls[c := Sweeping(s.now)])
    case _ => s
  }

  function DoLock(s: State, e: Step): State {
    match e
    case LockRead(c) =>
      if c !in s.calls || s.writer.Some? then s
      else
        (match s.calls[c]
         case SignClocked(user, name, at) =>
           s.(readers := s.readers + {c}, calls := s.calls[c := SignLocked(user, name, at)])
         case VerifyChecked(t, late) => s.(readers := s.readers + {c}, calls := s.calls[c := VerifyLocked(t, late)])
         case RevokeCalled(t) => s.(readers := s.readers + {c}, calls := s.calls[c := RevokeLocked(t)])
         case _ => s)
    case LockWrite(c) =>
      if c in s.calls && s.calls[c].RotateReady? && s.writer.None? && s.readers == {} then
        s.(writer := Some(c), calls := s.calls[c := RotateLocked(s.calls[c].k)])
      else s
    case Unlock(c) =>
      if c in s.calls && s.calls[c].RotateCleared? && s.writer == Some(c) then
        s.(writer := None, calls := s.calls[c := Done])
      else s
    case _ => s
  }

  /** What a call does while it holds the read lock; its guard is dropped as it returns. */
  function DoRead(s: State, e: Step): State {
    if !(e.Issue? || e.Check? || e.ReadExpiry?) || e.c !in s.calls || e.c !in s.readers then s
    else
      match (e, s.calls[e.c])
      case (Issue(c), SignLocked(user, name, at)) =>
        s.(readers := s.readers - {c}, calls := s.calls[c := Done],
           issued := s.issued + {Signed(s.secret, NewClaims(user, name, at))})
      case (Check(c), VerifyLocked(t, late)) =>
        s.(readers := s.readers - {c},
           calls := s.calls[c := Verified(t, late, s.now, Decode(t, s.secret, s.now, true).Ok?)])
      case (ReadExpiry(c), RevokeLocked(t)) =>
        s.(readers := s.readers - {c}, calls := s.calls[c := RevokeRead(t, RevocationExpiry(t, s.secret, s.now))])
      case _ => s
  }

  function DoWrite(s: State, e: Step): State {
    match e
    case Insert(c) =>
      if c in s.calls && s.calls[c].RevokeRead? then
        s.(blacklist := s.blacklist[s.calls[c].t := s.calls[c].exp],
           revoked := s.revoked + {s.calls[c].t}, calls := s.calls[c := Done])
      else s
    case Swap(c) =>
      if c in s.calls && s.calls[c].RotateLocked? && s.writer == Some(c) then
        s.(secret := s.calls[c].k, used := s.used + {s.calls[c].k}, calls := s.calls[c := RotateSwapped(s.calls[c].k)])
      else s
    case Clear(c) =>
      if c in s.calls && s.calls[c].RotateSwapped? && s.writer == Some(c) then
        s.(blacklist := map[], calls := s.calls[c := RotateCleared(s.calls[c].k)])
      else s
    case Sweep(c, t) =>
      if c in s.calls && s.calls[c].Sweeping? && t in s.blacklist && !(s.blacklist[t] > s.calls[c].at) then
        s.(blacklist := s.blacklist - {t})
      else s
    case _ => s
  }

  function Apply(s: State, e: Step): State {
    match e
    case Tick(seconds) => s.(now := s.now + seconds)
    case BeginSign(c, _, _) => if c in s.calls then s else DoBegin(s, e)
    case BeginVerify(c, _) => if c in s.calls then s else DoBegin(s, e)
    case BeginRevoke(c, _) => if c in s.calls then s else DoBegin(s, e)
    case BeginRotate(c, _) => if c in s.calls then s else DoBegin(s, e)
    case BeginSweep(c) => if c in s.calls then s else DoBegin(s, e)
    case LockRead(_) => DoLock(s, e)
    case LockWrite(_) => DoLock(s, e)
    case Unlock(_) => DoLock(s, e)
    case Issue(_) => DoRead(s, e)
    case Check(_) => DoRead(s, e)
    case ReadExpiry(_) => DoRead(s, e)
    case _ => DoWrite(s, e)
  }

  function After(s: State, steps: seq<Step>): State
    decreases |steps|
  {
    if steps == [] then s else After(Apply(s, steps[0]), steps[1..])
  }

  // ---- What every interleaving keeps ----

  /** The token decodes under the current secret, expiry aside. */
  predicate Alive(s: State, t: Token) { Decode(t, s.secret, s.now, false).Ok? }

  ghost predicate CallOk(s: State, c: CallId)
    requires c in s.calls
  {
    match s.calls[c]
    case SignClocked(_, _, at) => true
    case SignLocked(_, _, at) => c in s.readers
    case VerifyChecked(t, late) => Presentable(s, t) && (late && Alive(s, t) ==> t.claims.exp <= s.now)
    case VerifyLocked(t, late) => c in s.readers && Presentable(s, t) && (late && Alive(s, t) ==> t.claims.exp <= s.now)
    case Verified(t, late, at, ok) => ok ==> t.Signed? && at <= t.claims.exp + LEEWAY && (late ==> t.claims.exp <= at)
    case RevokeCalled(t) => Presentable(s, t)
    case RevokeLocked(t) => c in s.readers && Presentable(s, t)
    case RevokeRead(t, exp) => Presentable(s, t) && (Alive(s, t) ==> t.claims.exp <= exp)
    case RotateReady(k) => k in s.drawn && s.drawn[k] == c && k !in s.used
    case RotateLocked(k) => s.writer == Some(c) && k in s.drawn && s.drawn[k] == c && k !in s.used
    case RotateSwapped(k) => s.writer == Some(c) && s.secret == k && forall t <- s.issued :: t.Signed? && t.key != k
    case RotateCleared(k) => s.writer == Some(c)
    case Sweeping(at) => at <= s.now
    case Done => true
  }

  predicate IsRotating(call: Call) { call.RotateLocked? || call.RotateSwapped? || call.RotateCleared? }

  predicate IsReading(call: Call) { call.SignLocked? || call.VerifyLocked? || call.RevokeLocked? }

  ghost predicate LockOk(s: State) {
    && s.secret in s.used
    && (s.writer.Some? ==> s.readers == {} && s.writer.value in s.calls && IsRotating(s.calls[s.writer.value]))
    && (forall c <- s.readers :: c in s.calls && IsReading(s.calls[c]))
  }

  ghost predicate IssuedOk(s: State, t: Token) { t.Signed? && t.key in s.used }

  ghost predicate ListedOk(s: State, t: Token)
    requires t in s.blacklist
  {
    Presentable(s, t) && (Alive(s, t) ==> t.claims.exp <= s.blacklist[t])
  }

  ghost predicate RevokedOk(s: State, t: Token) {
    Presentable(s, t) && (Alive(s, t) ==> t in s.blacklist || t.claims.exp <= s.now)
  }

  ghost predicate Inv(s: State) {
    && LockOk(s)
    && (forall c <- s.calls :: CallOk(s, c))
    && (forall t <- s.issued :: IssuedOk(s, t))
    && (forall t <- s.blacklist :: ListedOk(s, t))
    && (forall t <- s.revoked :: RevokedOk(s, t))
  }

  /**
   What a step of call `c` can change under the other calls: the clock moves forward, no token
   is forgotten or comes back to life, no other call's lock is taken from it, and only the
   holder of the write lock changes the secret.
   */
  ghost predicate Frame(s: State, u: State, c: CallId) {
    && s.now <= u.now && s.issued <= u.issued
    && (forall t | Presentable(s, t) && Alive(u, t) :: Alive(s, t))
    && (forall k <- s.drawn :: k in u.drawn && u.drawn[k] == s.drawn[k])
    && (u.used == s.used || (c in s.calls && s.calls[c].RotateLocked? && u.used == s.used + {s.calls[c].k}))
    && s.readers - {c} <= u.readers
    && (s.writer.None? || s.writer == Some(c) || (u.writer == s.writer && u.secret == s.secret && u.issued == s.issued))
  }

  lemma StepIsFramed(s: State, e: Step, c: CallId)
    requires Inv(s) && (!e.Tick? ==> c == e.c)
    ensures Frame(s, Apply(s, e), c)
  {
    var u := Apply(s, e);
    if c in s.calls { assert CallOk(s, c); }
    forall t | Presentable(s, t) && Alive(u, t) ensures Alive(s, t) {
      if t in s.issued { assert IssuedOk(s, t); }
    }
  }

  lemma OtherCallKept(s: State, u: State, c: CallId, d: CallId)
    requires Frame(s, u, c) && d != c && d in s.calls && d in u.calls && u.calls[d] == s.calls[d] && CallOk(s, d)
    requires c in s.calls ==> CallOk(s, c)
    ensures CallOk(u, d)
  {
  }

  lemma SteppingCallKept(s: State, e: Step)
    requires Inv(s) && !e.Tick? && e.c in Apply(s, e).calls
    ensures CallOk(Apply(s, e), e.c)
  {
    StepIsFramed(s, e, e.c);
    if e.c in s.calls { assert CallOk(s, e.c); }
    if e.BeginVerify? && e.t in s.revoked { assert RevokedOk(s, e.t); }
  }

  lemma CallsKept(s: State, e: Step)
    requires Inv(s)
    ensures var u := Apply(s, e); forall c <- u.calls :: CallOk(u, c)
  {
    var u := Apply(s, e);
    forall c <- u.calls ensures CallOk(u, c) {
      if e.Tick? {
        assert CallOk(s, c);
      } else if c == e.c {
        SteppingCallKept(s, e);
      } else {
        StepIsFramed(s, e, e.c);
        OtherCallKept(s, u, e.c, c);
      }
    }
  }

  lemma LockKept(s: State, e: Step)
    requires Inv(s)
    ensures LockOk(Apply(s, e))
  {
  }

  lemma ListKept(s: State, e: Step)
    requires Inv(s)
    ensures var u := Apply(s, e);
            (forall t <- u.issued :: IssuedOk(u, t)) && (forall t <- u.blacklist :: ListedOk(u, t))
  {
  }

  lemma RevocationKept(s: State, e: Step, t: Token)
    requires Inv(s) && t in Apply(s, e).revoked
    ensures RevokedOk(Apply(s, e), t)
  {
    StepIsFramed(s, e, if e.Tick? then 0 else e.c);
    if (e.Insert? || e.Clear? || e.Sweep?) && e.c in s.calls { assert CallOk(s, e.c); }
    if t in s.revoked { assert RevokedOk(s, t); }
    if t in s.blacklist { assert ListedOk(s, t); }
  }

  lemma StepKeepsInv(s: State, e: Step)
    requires Inv(s)
    ensures Inv(Apply(s, e))
  {
    CallsKept(s, e);
    LockKept(s, e);
    ListKept(s, e);
    forall t <- Apply(s, e).revoked ensures RevokedOk(Apply(s, e), t) { RevocationKept(s, e, t); }
  }

  lemma {:induction false} RunKeepsInv(s: State, steps: seq<Step>)
    requires Inv(s)
    ensures Inv(After(s, steps))
    decreases |steps|
  {
    if steps != [] {
      StepKeepsInv(s, steps[0]);
      RunKeepsInv(Apply(s, steps[0]), steps[1..]);
    }
  }

  lemma ReachableInv(earlier: set<Claims>, steps: seq<Step>)
    ensures Inv(After(Start(earlier), steps))
  {
    RunKeepsInv(Start(earlier), steps);
  }

  // ---- Revocation and rotation ----

  /**
   Revocation lasts: in every interleaving, a verification that begins after blacklist_token of
   the same token has returned and finishes before the token's expiry does not succeed.
   */
  lemma RevokedStaysRevoked(earlier: set<Claims>, steps: seq<Step>, c: CallId)
    requires var s := After(Start(earlier), steps); c in s.calls && s.calls[c].Verified? && s.calls[c].late
    requires var s := After(Start(earlier), steps); s.calls[c].t.Signed? ==> s.calls[c].at < s.calls[c].t.claims.exp
    ensures !After(Start(earlier), steps).calls[c].ok
  {
    ReachableInv(earlier, steps);
    assert CallOk(After(Start(earlier), steps), c);
  }

  ghost predicate RejectedBy(s0: State, s: State, t: Token, c: CallId) {
    c in s.calls && c !in s0.calls && s.calls[c].Verified? && s.calls[c].t == t ==> !s.calls[c].ok
  }

  lemma StepRejects(s0: State, s: State, e: Step, t: Token, c: CallId)
    requires s0.calls.Keys <= s.calls.Keys && RejectedBy(s0, s, t, c) && !Alive(s, t)
    ensures s0.calls.Keys <= Apply(s, e).calls.Keys && RejectedBy(s0, Apply(s, e), t, c)
  {
  }

  /**
   Rotation outdates every token: once a new secret is current, no verification that begins
   later accepts a token that existed before, at any time, revoked or not.
   */
  lemma {:induction false} RotationOutdates(s0: State, s: State, steps: seq<Step>, t: Token, c: CallId)
    requires Inv(s) && t in s.issued && !Alive(s, t) && s0.calls.Keys <= s.calls.Keys && RejectedBy(s0, s, t, c)
    ensures RejectedBy(s0, After(s, steps), t, c) && !Alive(After(s, steps), t)
    decreases |steps|
  {
    if steps != [] {
      var e := steps[0];
      StepIsFramed(s, e, if e.Tick? then 0 else e.c);
      StepKeepsInv(s, e);
      StepRejects(s0, s, e, t, c);
      RotationOutdates(s0, Apply(s, e), steps[1..], t, c);
    }
  }

  /** The swap is the point at which every token that exists goes out of date. */
  lemma SwapOutdatesAll(s: State, c: CallId, t: Token)
    requires Inv(s) && c in s.calls && s.calls[c].RotateLocked? && t in s.issued
    ensures !Alive(Apply(s, Swap(c)), t) && t in Apply(s, Swap(c)).issued
  {
  }

  // ---- A call that nothing interrupts ----

  lemma ThreeSteps(s: State, a: Step, b: Step, c: Step)
    ensures After(s, [a, b, c]) == Apply(Apply(Apply(s, a), b), c)
  {
    assert [a, b, c][1..] == [b, c] && [b, c][1..] == [c] && [c][1..] == [];
    assert After(Apply(s, a), [b, c]) == After(Apply(Apply(s, a), b), [c]);
  }

  lemma FourSteps(s: State, a: Step, b: Step, c: Step, d: Step)
    ensures After(s, [a, b, c, d]) == Apply(Apply(Apply(Apply(s, a), b), c), d)
  {
    assert [a, b, c, d][1..] == [b, c, d];
    ThreeSteps(Apply(s, a), b, c, d);
  }

  lemma FiveSteps(s: State, a: Step, b: Step, c: Step, d: Step, e: Step)
    ensures After(s, [a, b, c, d, e]) == Apply(Apply(Apply(Apply(Apply(s, a), b), c), d), e)
  {
    assert [a, b, c, d, e][1..] == [b, c, d, e] && [b, c, d, e][1..] == [c, d, e] && [c, d, e][1..] == [d, e];
    assert [d, e][1..] == [e] && [e][1..] == [];
    assert After(s, [a, b, c, d, e]) == After(Apply(Apply(s, a), b), [c, d, e]);
    assert After(Apply(Apply(s, a), b), [c, d, e]) == After(Apply(Apply(Apply(Apply(s, a), b), c), d), [e]);
  }

  predicate Unlocked(s: State, c: CallId) { s.writer.None? && s.readers == {} && c !in s.calls }

  lemma SignLocks(s: State, c: CallId, user: string, name: string)
    requires Unlocked(s, c)
    ensures Apply(Apply(s, BeginSign(c, user, name)), LockRead(c))
            == s.(readers := {c}, calls := s.calls[c := SignLocked(user, name, s.now)])
  {
    assert Apply(s, BeginSign(c, user, name)) == s.(calls := s.calls[c := SignClocked(user, name, s.now)]);
  }

  lemma SignIssues(s: State, c: CallId, user: string, name: string, at: nat)
    requires c in s.calls && s.calls[c] == SignLocked(user, name, at) && s.readers == {c}
    ensures Apply(s, Issue(c))
            == s.(readers := {}, calls := s.calls[c := Done],
                   issued := s.issued + {Signed(s.secret, NewClaims(user, name, at))})
  {
    assert {c} - {c} == {};
  }

  /** The token was signed with the secret, by this service and for its own use. */
  predicate IsOfService(t: Token, secret: Secret) {
    t.Signed? && t.key == secret && t.claims.iss == "aionui" && t.claims.aud == "aionui-webui"
  }

  lemma SignIsARun(s: State, c: CallId, user: string, name: string)
    requires Unlocked(s, c)
    ensures After(s, [BeginSign(c, user, name), LockRead(c), Issue(c)])
            == s.(issued := s.issued + {Signed(s.secret, Claims(user, name, s.now, s.now + 24 * 60 * 60,
                                                                "aionui", "aionui-webui"))},
                  calls := s.calls[c := Done])
  {
    SignLocks(s, c, user, name);
    SignIssues(Apply(Apply(s, BeginSign(c, user, name)), LockRead(c)), c, user, name, s.now);
    ThreeSteps(s, BeginSign(c, user, name), LockRead(c), Issue(c));
  }

  lemma VerifyApplies(s: State, c: CallId, t: Token)
    requires Unlocked(s, c) && Presentable(s, t)
    ensures var ok := t !in s.blacklist && Decode(t, s.secret, s.now, true).Ok?;
            Apply(Apply(Apply(s, BeginVerify(c, t)), LockRead(c)), Check(c))
            == s.(calls := s.calls[c := Verified(t, t in s.revoked, s.now, ok)])
  {
    var s1 := Apply(s, BeginVerify(c, t));
    if t in s.blacklist {
      assert Apply(s1, LockRead(c)) == s1;
    } else {
      assert s1 == s.(calls := s.calls[c := VerifyChecked(t, t in s.revoked)]);
      assert Apply(s1, LockRead(c)) == s1.(readers := {c}, calls := s.calls[c := VerifyLocked(t, t in s.revoked)]);
      assert {c} - {c} == {};
    }
  }

  lemma VerifyIsARun(s: State, c: CallId, t: Token)
    requires Unlocked(s, c) && Presentable(s, t)
    ensures var ok := t !in s.blacklist && IsOfService(t, s.secret) && s.now <= t.claims.exp + 60;
            After(s, [BeginVerify(c, t), LockRead(c), Check(c)])
            == s.(calls := s.calls[c := Verified(t, t in s.revoked, s.now, ok)])
  {
    VerifyApplies(s, c, t);
    ThreeSteps(s, BeginVerify(c, t), LockRead(c), Check(c));
  }

  lemma RevokeLocks(s: State, c: CallId, t: Token)
    requires Unlocked(s, c) && Presentable(s, t)
    ensures Apply(Apply(s, BeginRevoke(c, t)), LockRead(c))
            == s.(readers := {c}, calls := s.calls[c := RevokeLocked(t)])
  {
    assert Apply(s, BeginRevoke(c, t)) == s.(calls := s.calls[c := RevokeCalled(t)]);
  }

  lemma RevokeInserts(s: State, c: CallId, t: Token)
    requires c in s.calls && s.calls[c] == RevokeLocked(t) && s.readers == {c}
    ensures Apply(Apply(s, ReadExpiry(c)), Insert(c))
            == s.(readers := {}, blacklist := s.blacklist[t := RevocationExpiry(t, s.secret, s.now)],
                  revoked := s.revoked + {t}, calls := s.calls[c := Done])
  {
    assert {c} - {c} == {};
    assert Apply(s, ReadExpiry(c))
        == s.(readers := {}, calls := s.calls[c := RevokeRead(t, RevocationExpiry(t, s.secret, s.now))]);
  }

  lemma RevokeIsARun(s: State, c: CallId, t: Token)
    requires Unlocked(s, c) && Presentable(s, t)
    ensures After(s, [BeginRevoke(c, t), LockRead(c), ReadExpiry(c), Insert(c)])
            == s.(blacklist := s.blacklist[t := if IsOfService(t, s.secret) then t.claims.exp
                else s.now + 24 * 60 * 60],
                  revoked := s.revoked + {t}, calls := s.calls[c := Done])
  {
    RevokeLocks(s, c, t);
    RevokeInserts(Apply(Apply(s, BeginRevoke(c, t)), LockRead(c)), c, t);
    FourSteps(s, BeginRevoke(c, t), LockRead(c), ReadExpiry(c), Insert(c));
  }

  lemma RotateLocks(s: State, c: CallId, k: Secret)
    requires Unlocked(s, c) && k !in s.drawn && k !in s.used
    ensures Apply(Apply(s, BeginRotate(c, k)), LockWrite(c))
            == s.(drawn := s.drawn[k := c], writer := Some(c), calls := s.calls[c := RotateLocked(k)])
  {
  }

  lemma RotateSwaps(s: State, c: CallId, k: Secret)
    requires c in s.calls && s.calls[c] == RotateLocked(k) && s.writer == Some(c)
    ensures Apply(Apply(Apply(s, Swap(c)), Clear(c)), Unlock(c))
            == s.(secret := k, used := s.used + {k}, blacklist := map[], writer := None, calls := s.calls[c := Done])
  {
    assert Apply(Apply(s, Swap(c)), Clear(c))
        == s.(secret := k, used := s.used + {k}, blacklist := map[], calls := s.calls[c := RotateCleared(k)]);
  }

  lemma RotateIsARun(s: State, c: CallId, k: Secret)
    requires Unlocked(s, c) && k !in s.drawn && k !in s.used
    ensures After(s, [BeginRotate(c, k), LockWrite(c), Swap(c), Clear(c), Unlock(c)])
            == s.(secret := k, used := s.used + {k}, drawn := s.drawn[k := c], blacklist := map[],
                  calls := s.calls[c := Done])
  {
    RotateLocks(s, c, k);
    RotateSwaps(Apply(Apply(s, BeginRotate(c, k)), LockWrite(c)), c, k);
    FiveSteps(s, BeginRotate(c, k), LockWrite(c), Swap(c), Clear(c), Unlock(c));
  }

  // ---- When a revoked token is accepted all the same ----

  lemma {:induction false} AfterSplits(s: State, a: seq<Step>, b: seq<Step>)
    ensures After(s, a + b) == After(After(s, a), b)
    decreases |a|
  {
    if a == [] {
      assert a + b == b;
    } else {
      assert (a + b)[1..] == a[1..] + b;
      AfterSplits(Apply(s, a[0]), a[1..], b);
    }
  }

  /** The token was revoked before the call began, and the call accepts it at that time. */
  ghost predicate AcceptsRevoked(earlier: set<Claims>, steps: seq<Step>, c: CallId, t: Token, at: nat) {
    var s := After(Start(earlier), steps);
    c in s.calls && s.calls[c] == Verified(t, true, at, true)
  }

  /** Once the token has expired, a cleanup forgets that it was revoked. */
  lemma SweepForgets(s: State, t: Token, exp: nat, wait: nat)
    requires 1 !in s.calls && s.blacklist == map[t := exp] && exp <= s.now + wait
    ensures After(s, [Tick(wait), BeginSweep(1), Sweep(1, t)])
            == s.(now := s.now + wait, blacklist := map[], calls := s.calls[1 := Sweeping(s.now + wait)])
  {
    ThreeSteps(s, Tick(wait), BeginSweep(1), Sweep(1, t));
    assert s.blacklist - {t} == map[];
  }

  /** Revoke, wait, sweep, verify: at any time from the expiry to the end of the leeway. */
  lemma AcceptedOnceSwept(earlier: set<Claims>, claims: Claims, at: nat) returns (steps: seq<Step>)
    requires claims in earlier && claims.iss == JWT_ISSUER && claims.aud == JWT_AUDIENCE
    requires claims.exp <= at <= claims.exp + LEEWAY
    ensures AcceptsRevoked(earlier, steps, 2, Signed(0, claims), at)
  {
    var s, t := Start(earlier), Signed(0, claims);
    var revoke := [BeginRevoke(0, t), LockRead(0), ReadExpiry(0), Insert(0)];
    var sweep := [Tick(at), BeginSweep(1), Sweep(1, t)];
    var verify := [BeginVerify(2, t), LockRead(2), Check(2)];
    assert t in s.issued;
    RevokeIsARun(s, 0, t);
    SweepForgets(After(s, revoke), t, claims.exp, at);
    AfterSplits(s, revoke, sweep);
    VerifyIsARun(After(s, revoke + sweep), 2, t);
    AfterSplits(s, revoke + sweep, verify);
    steps := revoke + sweep + verify;
  }

  /**
   The times at which a token can be accepted although it was revoked before the call began are
   exactly those from its expiry to the end of the library's leeway.
   */
  lemma RevokedAcceptedIff(earlier: set<Claims>, claims: Claims, at: nat)
    requires claims in earlier && claims.iss == "aionui" && claims.aud == "aionui-webui"
    ensures (exists steps, c :: AcceptsRevoked(earlier, steps, c, Signed(0, claims), at))
            <==> claims.exp <= at <= claims.exp + 60
  {
    if exists steps, c :: AcceptsRevoked(earlier, steps, c, Signed(0, claims), at) {
      var steps, c :| AcceptsRevoked(earlier, steps, c, Signed(0, claims), at);
      ReachableInv(earlier, steps);
      assert CallOk(After(Start(earlier), steps), c);
    }
    if claims.exp <= at <= claims.exp + LEEWAY {
      var steps := AcceptedOnceSwept(earlier, claims, at);
      assert AcceptsRevoked(earlier, steps, 2, Signed(0, claims), at);
    }
  }

  // ---- The service ----

  class Service {
    var secret: Secret
    var blacklist: map<Token, nat>

    constructor (secret: Secret)
      ensures this.secret == secret && blacklist == map[]
    {
      this.secret, blacklist := secret, map[];
    }

    method Sign(user: string, name: string, now: nat) returns (t: Token)
      ensures t.Signed? && t.key == secret && t.claims.userId == user && t.claims.username == name
      ensures t.claims.iat == now && t.claims.exp == now + 24 * 60 * 60
      ensures forall later: nat :: Decode(t, secret, later, true).Ok? <==> later <= now + TOKEN_EXPIRY + LEEWAY
    {
      t := Signed(secret, Claims(user, name, now, now + TOKEN_EXPIRY, JWT_ISSUER, JWT_AUDIENCE));
    }

    /** The token is taken for what it claims at that time. */
    predicate Accepts(t: Token, now: nat)
      reads this
    {
      t !in blacklist && IsOfService(t, secret) && now <= t.claims.exp + 60
    }

    method Verify(t: Token, now: nat) returns (r: Result<Claims, AuthError>)
      ensures r.Ok? <==> Accepts(t, now)
      ensures r.Ok? ==> r.value == t.claims
      ensures r == Err(TokenBlacklisted) <==> t in blacklist
      ensures r == Err(TokenExpired) <==> t !in blacklist && t.Signed? && t.key == secret && now > t.claims.exp + LEEWAY
    {
      if t in blacklist {
        return Err(TokenBlacklisted);
      }
      r := Decode(t, secret, now, true);
    }

    method BlacklistToken(t: Token, now: nat)
      modifies `blacklist
      ensures blacklist == old(blacklist)[t := if IsOfService(t, secret) then t.claims.exp else now + 24 * 60 * 60]
    {
      var claims := Decode(t, secret, now, false);
      var exp := if claims.Ok? then claims.value.exp else now + TOKEN_EXPIRY;
      blacklist := blacklist[t := exp];
    }

    /** From now on only tokens of the new secret are accepted, and all of these as if none was ever revoked. */
    method RotateSecret(newSecret: Secret)
      modifies this
      ensures secret == newSecret && blacklist == map[]
      ensures forall t, now :: Accepts(t, now) ==> t.Signed? && t.key == newSecret
      ensures forall user, name, at: nat, now: nat ::
                Accepts(Signed(newSecret, NewClaims(user, name, at)), now) <==> now <= at + TOKEN_EXPIRY + LEEWAY
      ensures forall t, now :: old(secret) != newSecret && old(Accepts(t, now)) ==> !Accepts(t, now)
    {
      secret := newSecret;
      blacklist := map[];
    }

    /** Keeps exactly the entries that expire after now. */
    method CleanupBlacklist(now: nat)
      modifies `blacklist
      ensures forall t :: t in blacklist <==> t in old(blacklist) && old(blacklist)[t] > now
      ensures forall t <- blacklist :: blacklist[t] == old(blacklist)[t]
    {
      var left := blacklist.Keys;
      while left != {}
        invariant left <= blacklist.Keys
        invariant forall t :: t in blacklist <==> t in old(blacklist) && (t in left || old(blacklist)[t] > now)
        invariant forall t <- blacklist :: blacklist[t] == old(blacklist)[t]
        decreases left
      {
        var t :| t in left;
        if !(blacklist[t] > now) {
          blacklist := blacklist - {t};
        }
        left := left - {t};
      }
    }
  }
}
