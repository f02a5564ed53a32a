/** Refresh-token rotation: a grace window, a revocation entry, and the access token that shares the old identifier. */
module Refresh {
  import opened Prelude
  import RedisStore

  type UserId = nat
  type Jti = nat

  datatype UserType = Customer | Admin

  /** Times are milliseconds; a token is good until its expiry. */
  datatype Token = Token(jti: Jti, user: UserId, userType: UserType, expiresAt: int)

  datatype Pair = Pair(access: Token, refresh: Token)

  datatype Grace = Grace(response: Pair, expiresAt: int)

  datatype AuthError = InvalidToken | Revoked | UserNotFound

  /** `signed` is what the two secrets vouch for: the tokens handed out, by kind. */
  datatype Auth = Auth(now: nat, users: set<(UserId, UserType)>, signedAccess: set<Token>, signedRefresh: set<Token>,
                       grace: map<Jti, Grace>, revoked: map<(UserId, Jti), int>, nextJti: Jti)

  const GRACE_SECONDS := 25
  const ACCESS_SECONDS := 3600

  /** The lifetime of a refresh token, and of the entry that revokes one on exchange. */
  function RefreshSeconds(userType: UserType): nat {
    if userType.Customer? then 30 * 24 * 3600 else 7 * 24 * 3600
  }

  const LOGOUT_SECONDS := 30 * 24 * 3600

  /** A token counts whole seconds from the second it was issued in. */
  function TokenExpiry(now: nat, seconds: nat): int {
    (now / 1000 + seconds) * 1000
  }

  predicate Verifies(signed: set<Token>, t: Token, now: int) {
    t in signed && now < t.expiresAt
  }

  predicate IsRevoked(s: Auth, user: UserId, jti: Jti) {
    (user, jti) in s.revoked && s.now < s.revoked[(user, jti)]
  }

  function NewPair(s: Auth, user: UserId, userType: UserType): Pair {
    Pair(Token(s.nextJti, user, userType, TokenExpiry(s.now, ACCESS_SECONDS)),
         Token(s.nextJti, user, userType, TokenExpiry(s.now, RefreshSeconds(userType))))
  }

  function Issued(s: Auth, p: Pair): Auth {
    s.(signedAccess := s.signedAccess + {p.access}, signedRefresh := s.signedRefresh + {p.refresh}, nextJti := s.nextJti + 1)
  }

  /** refreshToken */
  function Refreshed(s: Auth, t: Token): (Auth, Result<Pair, AuthError>) {
    if !Verifies(s.signedRefresh, t, s.now) then (s, Err(InvalidToken))
    else if t.jti in s.grace && s.now < s.grace[t.jti].expiresAt then (s, Ok(s.grace[t.jti].response))
    else if IsRevoked(s, t.user, t.jti) then (s, Err(Revoked))
    else if (t.user, t.userType) !in s.users then (s, Err(UserNotFound))
    else
      var p := NewPair(s, t.user, t.userType);
      (Issued(s, p).(grace := s.grace[t.jti := Grace(p, s.now + GRACE_SECONDS * 1000)],
                     revoked := s.revoked[(t.user, t.jti) := s.now + RefreshSeconds(t.userType) * 1000]),
       Ok(p))
  }

  /** logout, handed a refresh token */
  function LoggedOut(s: Auth, t: Token): Auth {
    if Verifies(s.signedRefresh, t, s.now)
    then s.(revoked := s.revoked[(t.user, t.jti) := s.now + LOGOUT_SECONDS * 1000]) else s
  }

  /** authenticateToken_fetchUser */
  function Authenticated(s: Auth, t: Token): Result<UserId, AuthError> {
    if !Verifies(s.signedAccess, t, s.now) then Err(InvalidToken)
    else if (t.user, t.userType) !in s.users then Err(UserNotFound)
    else if IsRevoked(s, t.user, t.jti) then Err(Revoked)
    else Ok(t.user)
  }

  // ----- what each operation answers -----

  /** Milliseconds a refresh token, and the entry that revokes an exchanged one, are good for. */
  function RefreshMs(userType: UserType): int {
    match userType
    case Customer => 2_592_000_000
    case Admin => 604_800_000
  }

  /** A new pair: one new identifier, the same user, an hour for the access token, thirty days or seven for the other. */
  predicate NewlyIssued(s: Auth, t: Token, p: Pair) {
    && p.access.jti == p.refresh.jti == s.nextJti
    && p.access.user == p.refresh.user == t.user && p.access.userType == p.refresh.userType == t.userType
    && s.now + 3_599_000 < p.access.expiresAt <= s.now + 3_600_000 && p.access.expiresAt % 1000 == 0
    && s.now + RefreshMs(t.userType) - 1000 < p.refresh.expiresAt <= s.now + RefreshMs(t.userType) && p.refresh.expiresAt % 1000 == 0
  }

  /** refreshToken answers in this order. */
  lemma RefreshAnswered(s: Auth, t: Token)
    ensures var (after, r) := Refreshed(s, t);
            if t !in s.signedRefresh || s.now >= t.expiresAt then after == s && r == Err(InvalidToken)
            else if t.jti in s.grace && s.now < s.grace[t.jti].expiresAt then after == s && r == Ok(s.grace[t.jti].response)
            else if (t.user, t.jti) in s.revoked && s.now < s.revoked[(t.user, t.jti)] then after == s && r == Err(Revoked)
            else if (t.user, t.userType) !in s.users then after == s && r == Err(UserNotFound)
            else
              && r.Ok? && NewlyIssued(s, t, r.value)
              && after == Auth(s.now, s.users, s.signedAccess + {r.value.access}, s.signedRefresh + {r.value.refresh},
                               s.grace[t.jti := Grace(r.value, s.now + 25_000)],
                               s.revoked[(t.user, t.jti) := s.now + RefreshMs(t.userType)], s.nextJti + 1)
  {
  }

  /** A token authenticates if it was handed out and is in time, its user exists, and it has not been revoked. */
  lemma AuthenticationAnswered(s: Auth, t: Token)
    ensures Authenticated(s, t)
            == if t !in s.signedAccess || s.now >= t.expiresAt then Err(InvalidToken)
               else if (t.user, t.userType) !in s.users then Err(UserNotFound)
               else if (t.user, t.jti) in s.revoked && s.now < s.revoked[(t.user, t.jti)] then Err(Revoked)
               else Ok(t.user)
  {
  }

  /** Logging out revokes a good refresh token for thirty days, and its access token with it. */
  lemma LogoutAnswered(s: Auth, t: Token, ms: nat, a: Token)
    requires t in s.signedRefresh && s.now < t.expiresAt && ms < 2_592_000_000
    requires a.jti == t.jti && a.user == t.user
    ensures var later := LoggedOut(s, t).(now := s.now + ms);
            Authenticated(later, a).Err?
            && (t.jti !in s.grace || s.grace[t.jti].expiresAt <= later.now ==> Refreshed(later, t).1.Err?)
  {
  }

  // ----- runs -----

  datatype Event =
    | Login(user: UserId, userType: UserType)
    | Refreshes(token: Token)
    | Logout(token: Token)
    | Registers(user: UserId, userType: UserType)
    | Deletes(user: UserId, userType: UserType)
    | Waits(ms: nat)

  function Following(s: Auth, e: Event): Auth {
    match e
    case Login(user, userType) => if (user, userType) in s.users then Issued(s, NewPair(s, user, userType)) else s
    case Refreshes(t) => Refreshed(s, t).0
    case Logout(t) => LoggedOut(s, t)
    case Registers(user, userType) => s.(users := s.users + {(user, userType)})
    case Deletes(user, userType) => s.(users := s.users - {(user, userType)})
    case Waits(ms) => s.(now := s.now + ms)
  }

  function After(s: Auth, events: seq<Event>): Auth {
    if |events| == 0 then s else Following(After(s, events[..|events| - 1]), events[|events| - 1])
  }

  /** Identifiers are fresh: no two refresh tokens share one; none lives longer than its kind does from now. */
  ghost predicate Good(s: Auth) {
    && (forall t :: t in s.signedRefresh ==> t.jti < s.nextJti && t.expiresAt <= s.now + RefreshSeconds(t.userType) * 1000)
    && (forall t, u :: t in s.signedRefresh && u in s.signedRefresh && t.jti == u.jti ==> t == u)
    && (forall t :: t in s.signedAccess ==> t.jti < s.nextJti)
    && (forall a, r :: a in s.signedAccess && r in s.signedRefresh && a.jti == r.jti ==> a.user == r.user && a.expiresAt <= r.expiresAt)
  }

  lemma NewPairGood(s: Auth, user: UserId, userType: UserType)
    requires Good(s)
    ensures Good(Issued(s, NewPair(s, user, userType)))
  {
  }

  lemma FollowingGood(s: Auth, e: Event)
    requires Good(s)
    ensures Good(Following(s, e))
  {
    match e
    case Login(user, userType) => NewPairGood(s, user, userType);
    case Refreshes(t) => NewPairGood(s, t.user, t.userType);
    case Logout(_) =>
    case Registers(_, _) =>
    case Deletes(_, _) =>
    case Waits(_) =>
  }

  /** The token was exchanged for the pair at t0: the grace entry lasts its window, the revocation outlives the token. */
  predicate Exchanged(s: Auth, t: Token, p: Pair, t0: int) {
    && t in s.signedRefresh && t0 <= s.now
    && t.jti in s.grace && s.grace[t.jti] == Grace(p, t0 + GRACE_SECONDS * 1000)
    && (t.user, t.jti) in s.revoked && s.revoked[(t.user, t.jti)] >= t.expiresAt
  }

  lemma ExchangedStays(s: Auth, e: Event, t: Token, p: Pair, t0: int)
    requires Good(s) && Exchanged(s, t, p, t0)
    ensures Exchanged(Following(s, e), t, p, t0)
  {
  }

  lemma {:induction false} AfterGood(s: Auth, events: seq<Event>)
    requires Good(s)
    ensures Good(After(s, events))
  {
    if |events| > 0 {
      AfterGood(s, events[..|events| - 1]);
      FollowingGood(After(s, events[..|events| - 1]), events[|events| - 1]);
    }
  }

  lemma {:induction false} AfterExchanged(s: Auth, events: seq<Event>, t: Token, p: Pair, t0: int)
    requires Good(s) && Exchanged(s, t, p, t0)
    ensures Exchanged(After(s, events), t, p, t0)
  {
    if |events| > 0 {
      var n := |events| - 1;
      AfterExchanged(s, events[..n], t, p, t0);
      AfterGood(s, events[..n]);
      ExchangedStays(After(s, events[..n]), events[n], t, p, t0);
    }
  }

  /** The token has neither been exchanged nor is an exchange of it still remembered. */
  predicate Fresh(s: Auth, t: Token) {
    t.jti !in s.grace
  }

  /**
   Refresh rotation: once a refresh token has been exchanged, and whatever else happens, it is answered with the
   same pair for the length of the grace window and refused for the rest of its life, and the access token that
   shares its identifier no longer authenticates.
   */
  lemma RefreshRotation(s: Auth, t: Token, events: seq<Event>)
    requires Good(s) && Fresh(s, t) && Refreshed(s, t).1.Ok?
    ensures var (exchanged, r) := Refreshed(s, t);
            var later := After(exchanged, events);
            && (Refreshed(later, t).1 == if later.now >= t.expiresAt then Err(InvalidToken)
                                         else if later.now < s.now + GRACE_SECONDS * 1000 then r
                                         else Err(Revoked))
            && forall a :: a in later.signedAccess && a.jti == t.jti ==> Authenticated(later, a).Err?
  {
    var (exchanged, r) := Refreshed(s, t);
    FollowingGood(s, Refreshes(t));
    AfterExchanged(exchanged, events, t, r.value, s.now);
    AfterGood(exchanged, events);
  }

  // ----- whole runs -----

  predicate ExchangedOrFresh(s: Auth, t: Token) {
    Fresh(s, t) || Exchanged(s, t, s.grace[t.jti].response, s.grace[t.jti].expiresAt - GRACE_SECONDS * 1000)
  }

  /** Every token handed out is fresh or was exchanged once. */
  ghost predicate Consistent(s: Auth) {
    && Good(s)
    && (forall j :: j in s.grace ==> j < s.nextJti)
    && (forall t :: t in s.signedRefresh ==> ExchangedOrFresh(s, t))
  }

  lemma NothingIssued(now: nat)
    ensures Consistent(Auth(now, {}, {}, {}, map[], map[], 0))
  {
  }

  lemma TokenStaysConsistent(s: Auth, e: Event, t: Token)
    requires Consistent(s) && t in Following(s, e).signedRefresh
    ensures ExchangedOrFresh(Following(s, e), t)
  {
  }

  lemma FollowingConsistent(s: Auth, e: Event)
    requires Consistent(s)
    ensures Consistent(Following(s, e))
  {
    FollowingGood(s, e);
    forall t | t in Following(s, e).signedRefresh ensures ExchangedOrFresh(Following(s, e), t) {
      TokenStaysConsistent(s, e, t);
    }
  }

  lemma {:induction false} AfterConsistent(s: Auth, events: seq<Event>)
    requires Consistent(s)
    ensures Consistent(After(s, events))
  {
    if |events| > 0 {
      AfterConsistent(s, events[..|events| - 1]);
      FollowingConsistent(After(s, events[..|events| - 1]), events[|events| - 1]);
    }
  }

  lemma {:induction false} AfterSplit(s: Auth, events: seq<Event>, i: nat)
    requires i <= |events|
    ensures After(s, events) == After(After(s, events[..i]), events[i..])
  {
    if i < |events| {
      var n := |events| - 1;
      AfterSplit(s, events[..n], i);
      assert events[..n][..i] == events[..i] && events[..n][i..] == events[i..][..n - i];
    } else {
      assert events[..i] == events;
    }
  }

  /** A success, replayed or not, leaves the token exchanged for the pair it returned. */
  lemma SuccessIsExchange(s: Auth, t: Token) returns (t0: int)
    requires Consistent(s) && Refreshed(s, t).1.Ok?
    ensures Exchanged(Refreshed(s, t).0, t, Refreshed(s, t).1.value, t0)
  {
    assert ExchangedOrFresh(s, t);
    t0 := if Fresh(s, t) then s.now
          else if s.now < s.grace[t.jti].expiresAt then s.grace[t.jti].expiresAt - GRACE_SECONDS * 1000 else s.now;
  }

  /**
   One pair per token: in every run from nothing, whoever logs in and out and however long it takes, all
   successful refreshes of one token return one and the same pair.
   */
  lemma OnePairPerToken(s: Auth, events: seq<Event>, i: nat, j: nat, t: Token)
    requires Consistent(s) && i < j <= |events| && events[i] == Refreshes(t)
    requires Refreshed(After(s, events[..i]), t).1.Ok? && Refreshed(After(s, events[..j]), t).1.Ok?
    ensures Refreshed(After(s, events[..i]), t).1 == Refreshed(After(s, events[..j]), t).1
  {
    var before, p := After(s, events[..i]), Refreshed(After(s, events[..i]), t).1.value;
    AfterConsistent(s, events[..i]);
    var t0 := SuccessIsExchange(before, t);
    assert events[..i + 1][..i] == events[..i];
    assert After(s, events[..i + 1]) == Refreshed(before, t).0;
    AfterConsistent(s, events[..i + 1]);
    AfterSplit(s, events[..j], i + 1);
    assert events[..j][..i + 1] == events[..i + 1];
    AfterExchanged(After(s, events[..i + 1]), events[..j][i + 1..], t, p, t0);
  }

  /**
   All of this needs a store that keeps an entry for its whole TTL. The store in memory does for the grace window
   and for an admin's revocation, but a customer's is longer than a Node.js timer can be: a read that follows its
   timer, one millisecond after the write, finds the revocation gone.
   */
  lemma RevocationInMemory(m: RedisStore.Mem, p: RedisStore.Pure, key: RedisStore.Key, userType: UserType)
    requires RedisStore.Good(m, p)
    ensures RedisStore.TtlFits(RedisStore.Set(key, "1", Some(GRACE_SECONDS)))
    ensures RedisStore.Survives(m, key, "1", Some(RefreshSeconds(userType))) == RedisStore.Got(Some("1")) <==> userType.Admin?
  {
    RedisStore.TtlOverflow(m, p, key, "1", Some(RefreshSeconds(userType)));
  }

  // ----- the services -----

  /** AuthService and TokenService over the store both use. */
  class AuthService {
    var now: nat
    var users: set<(UserId, UserType)>
    var signedAccess: set<Token>
    var signedRefresh: set<Token>
    var grace: map<Jti, Grace>
    var revoked: map<(UserId, Jti), int>
    var nextJti: Jti

    constructor (now: nat)
      ensures View() == Auth(now, {}, {}, {}, map[], map[], 0)
    {
      this.now := now;
      users, signedAccess, signedRefresh := {}, {}, {};
      grace, revoked, nextJti := map[], map[], 0;
    }

    function View(): Auth
      reads this
    {
      Auth(now, users, signedAccess, signedRefresh, grace, revoked, nextJti)
    }

    method RefreshToken(t: Token) returns (r: Result<Pair, AuthError>)
      modifies this
      ensures (View(), r) == Refreshed(old(View()), t)
    {
      if !Verifies(signedRefresh, t, now) {
        return Err(InvalidToken);
      }
      if t.jti in grace && now < grace[t.jti].expiresAt {
        return Ok(grace[t.jti].response);
      }
      if (t.user, t.jti) in revoked && now < revoked[(t.user, t.jti)] {
        return Err(Revoked);
      }
      if (t.user, t.userType) !in users {
        return Err(UserNotFound);
      }
      var newJti := nextJti;
      nextJti := nextJti + 1;
      var access := Token(newJti, t.user, t.userType, TokenExpiry(now, ACCESS_SECONDS));
      var refresh := Token(newJti, t.user, t.userType, TokenExpiry(now, RefreshSeconds(t.userType)));
      signedAccess, signedRefresh := signedAccess + {access}, signedRefresh + {refresh};
      grace := grace[t.jti := Grace(Pair(access, refresh), now + GRACE_SECONDS * 1000)];
      revoked := revoked[(t.user, t.jti) := now + RefreshSeconds(t.userType) * 1000];
      r := Ok(Pair(access, refresh));
    }

    method LogOut(t: Token)
      modifies this
      ensures View() == LoggedOut(old(View()), t)
    {
      if Verifies(signedRefresh, t, now) {
        revoked := revoked[(t.user, t.jti) := now + LOGOUT_SECONDS * 1000];
      }
    }

    method AuthenticateTokenFetchUser(t: Token) returns (r: Result<UserId, AuthError>)
      ensures r == Authenticated(View(), t)
    {
      if !Verifies(signedAccess, t, now) {
        return Err(InvalidToken);
      }
      if (t.user, t.userType) !in users {
        return Err(UserNotFound);
      }
      if (t.user, t.jti) in revoked && now < revoked[(t.user, t.jti)] {
        return Err(Revoked);
      }
      r := Ok(t.user);
    }
  }
}
