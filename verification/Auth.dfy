/** user-service: access and refresh tokens, rotation, and blacklists that expire. */
module Auth {
  import opened Common
  import opened Redis

  const ACCESS_TTL := 900              // 15 minutes
  const REFRESH_TTL := 604800          // 7 days

  /** A signed token: subject, identifier, and the second from which it is expired. */
  datatype Token = Token(sub: string, jti: nat, exp: nat)

  datatype Tokens = Tokens(access: Token, refresh: Token)

  datatype Error = Unauthorized

  /** `nextJti` is the next fresh identifier; `signed` the tokens issued so far. */
  datatype State = State(
    now: nat, users: set<string>, nextJti: nat, signed: set<Token>,
    stored: map<(string, nat), Entry<Token>>, blacklist: map<nat, Entry<bool>>)

  const START := State(0, {}, 0, {}, map[], map[])

  function Secs(ms: nat): nat { ms / 1000 }

  /** `jwtService.verify`: signed here and not expired. */
  predicate Verifies(s: State, t: Token) {
    t in s.signed && Secs(s.now) < t.exp
  }

  predicate Blacklisted(s: State, jti: nat) {
    Lookup(s.blacklist, jti, s.now).Some?
  }

  function IssuedBy(s: State, user: string): Tokens {
    Tokens(Token(user, s.nextJti, Secs(s.now) + ACCESS_TTL), Token(user, s.nextJti + 1, Secs(s.now) + REFRESH_TTL))
  }

  /** `generateTokens` */
  function Generated(s: State, user: string): State {
    var t := IssuedBy(s, user);
    s.(nextJti := s.nextJti + 2, signed := s.signed + {t.access, t.refresh},
       stored := s.stored[(user, t.refresh.jti) := For(t.refresh, REFRESH_TTL, s.now)])
  }

  /** `revokeRefreshToken` */
  function Revoked(s: State, user: string, jti: nat): State {
    s.(stored := s.stored - {(user, jti)}, blacklist := s.blacklist[jti := For(true, REFRESH_TTL, s.now)])
  }

  function Login(s: State, user: string, passwordOk: bool): (State, Result<Tokens, Error>) {
    if user !in s.users || !passwordOk then (s, Err(Unauthorized)) else (Generated(s, user), Ok(IssuedBy(s, user)))
  }

  predicate Redeemable(s: State, t: Token) {
    && Verifies(s, t) && Lookup(s.stored, (t.sub, t.jti), s.now).Some?
    && !Blacklisted(s, t.jti) && t.sub in s.users
  }

  function Refresh(s: State, t: Token): (State, Result<Tokens, Error>) {
    if !Redeemable(s, t) then (s, Err(Unauthorized))
    else (Revoked(Generated(s, t.sub), t.sub, t.jti), Ok(IssuedBy(s, t.sub)))
  }

  /** What the guard of the logout route lets through: any verified token that is not blacklisted. */
  predicate MayLogout(s: State, t: Token) {
    Verifies(s, t) && !Blacklisted(s, t.jti) && t.sub in s.users
  }

  function Logout(s: State, t: Token): State {
    if !MayLogout(s, t) then s
    else s.(blacklist := s.blacklist[t.jti := For(true, ACCESS_TTL, s.now)],
            stored := map k | k in s.stored && k.0 != t.sub :: s.stored[k])
  }

  predicate Valid(s: State, t: Token) {
    Verifies(s, t) && !Blacklisted(s, t.jti) && t.sub in s.users
  }

  // ---------- the service ----------

  class AuthService {
    var now: nat
    var users: set<string>
    var nextJti: nat
    var signed: set<Token>
    var stored: map<(string, nat), Entry<Token>>
    var blacklist: map<nat, Entry<bool>>

    constructor ()
      ensures Now() == START
    {
      now, users, nextJti, signed, stored, blacklist := 0, {}, 0, {}, map[], map[];
    }

    function Now(): State
      reads this
    {
      State(now, users, nextJti, signed, stored, blacklist)
    }

    method Sign(user: string, ttl: nat) returns (t: Token)
      modifies this`nextJti, this`signed
      ensures t == Token(user, old(nextJti), Secs(now) + ttl)
      ensures nextJti == old(nextJti) + 1 && signed == old(signed) + {t}
    {
      t := Token(user, nextJti, now / 1000 + ttl);
      nextJti := nextJti + 1;
      signed := signed + {t};
    }

    method GenerateTokens(user: string) returns (t: Tokens)
      modifies this
      ensures Now() == Generated(old(Now()), user) && t == IssuedBy(old(Now()), user)
    {
      var access := Sign(user, ACCESS_TTL);
      var refresh := Sign(user, REFRESH_TTL);
      assert signed == old(signed) + {access, refresh};
      stored := stored[(user, refresh.jti) := For(refresh, REFRESH_TTL, now)];
      t := Tokens(access, refresh);
    }

    method RevokeRefreshToken(jti: nat, user: string)
      modifies this
      ensures Now() == Revoked(old(Now()), user, jti)
    {
      stored := stored - {(user, jti)};
      blacklist := blacklist[jti := For(true, REFRESH_TTL, now)];
    }

    method RevokeAllUserRefreshTokens(user: string)
      modifies this`stored
      ensures stored == map k | k in old(stored) && k.0 != user :: old(stored)[k]
    {
      var keys := set k | k in stored && k.0 == user;
      while keys != {}
        invariant keys <= set k | k in old(stored) && k.0 == user
        invariant stored == map k | k in old(stored) && (k.0 == user ==> k in keys) :: old(stored)[k]
      {
        var key :| key in keys;
        stored := stored - {key};
        keys := keys - {key};
      }
    }

    method LoginUser(user: string, passwordOk: bool) returns (r: Result<Tokens, Error>)
      modifies this
      ensures (Now(), r) == Login(old(Now()), user, passwordOk)
      ensures r.Ok? <==> user in users && passwordOk
      ensures r.Err? ==> Now() == old(Now())
      ensures r.Ok? ==> r.value.access.sub == user && r.value.refresh.sub == user
                        && signed == old(signed) + {r.value.access, r.value.refresh}
    {
      if user !in users || !passwordOk {
        return Err(Unauthorized);
      }
      var t := GenerateTokens(user);
      return Ok(t);
    }

    method RefreshTokens(t: Token) returns (r: Result<Tokens, Error>)
      modifies this
      ensures (Now(), r) == Refresh(old(Now()), t)
      ensures r.Err? ==> Now() == old(Now())
      ensures r.Ok? ==> r.value.access.sub == t.sub && r.value.refresh.sub == t.sub
                        && signed == old(signed) + {r.value.access, r.value.refresh}
    {
      if !(t in signed && now / 1000 < t.exp) {
        return Err(Unauthorized);
      }
      var storedToken := Lookup(stored, (t.sub, t.jti), now);
      if storedToken.None? {
        return Err(Unauthorized);
      }
      if Lookup(blacklist, t.jti, now).Some? {
        return Err(Unauthorized);
      }
      if t.sub !in users {
        return Err(Unauthorized);
      }
      var tokens := GenerateTokens(t.sub);
      RevokeRefreshToken(t.jti, t.sub);
      return Ok(tokens);
    }

    method LogoutUser(t: Token)
      modifies this
      ensures Now() == Logout(old(Now()), t)
    {
      if !(t in signed && now / 1000 < t.exp) || Lookup(blacklist, t.jti, now).Some? || t.sub !in users {
        return;
      }
      blacklist := blacklist[t.jti := For(true, 15 * 60, now)];
      RevokeAllUserRefreshTokens(t.sub);
    }

    method ValidateToken(t: Token) returns (valid: bool)
      ensures valid == Valid(Now(), t)
    {
      if !(t in signed && now / 1000 < t.exp) {
        return false;
      }
      if Lookup(blacklist, t.jti, now).Some? {
        return false;
      }
      return t.sub in users;
    }
  }

  // ---------- runs ----------

  datatype Op =
    | DoLogin(user: string, passwordOk: bool)
    | DoRefresh(token: Token)
    | DoLogout(token: Token)
    | AddUser(user: string)
    | DropUser(user: string)
    | Tick(ms: nat)

  function Apply(s: State, op: Op): State {
    match op
    case DoLogin(user, ok) => Login(s, user, ok).0
    case DoRefresh(t) => Refresh(s, t).0
    case DoLogout(t) => Logout(s, t)
    case AddUser(user) => s.(users := s.users + {user})
    case DropUser(user) => s.(users := s.users - {user})
    case Tick(ms) => s.(now := s.now + ms)
  }

  function Run(s: State, ops: seq<Op>): State
    decreases |ops|
  {
    if ops == [] then s else Run(Apply(s, ops[0]), ops[1..])
  }

  /** Identifiers are given out once, and no token is good for longer than a refresh token. */
  predicate Sound(s: State) {
    && (forall t | t in s.signed :: t.jti < s.nextJti)
    && (forall t, u | t in s.signed && u in s.signed :: t.jti == u.jti ==> t == u)
    && (forall k | k in s.stored :: k.1 < s.nextJti)
    && (forall j | j in s.blacklist :: j < s.nextJti)
    && (forall t | t in s.signed :: t.exp <= Secs(s.now) + REFRESH_TTL)
  }

  lemma GeneratedSound(s: State, user: string)
    requires Sound(s)
    ensures Sound(Generated(s, user)) && s.signed <= Generated(s, user).signed
  {
  }

  lemma SoundStep(s: State, op: Op)
    requires Sound(s)
    ensures Sound(Apply(s, op)) && s.nextJti <= Apply(s, op).nextJti && s.now <= Apply(s, op).now
    ensures s.signed <= Apply(s, op).signed
  {
    match op
    case DoLogin(user, _) =>
      GeneratedSound(s, user);
      hide Verifies;
    case DoRefresh(t) =>
      GeneratedSound(s, t.sub);
      hide Redeemable, Verifies;
    case DoLogout(_) =>
      hide MayLogout;
    case _ =>
  }

  // ---------- a consumed or logged-out token stays dead ----------

  /** Rejected now and at every later time: expired, or blacklisted until it is. */
  predicate Dead(s: State, t: Token) {
    || t.exp <= Secs(s.now)
    || (t.jti in s.blacklist && s.blacklist[t.jti].expiresAt.Some?
        && s.blacklist[t.jti].expiresAt.value >= 1000 * t.exp)
  }

  lemma DeadMeansRejected(s: State, t: Token)
    requires Dead(s, t)
    ensures !Valid(s, t) && Refresh(s, t).1.Err? && !MayLogout(s, t)
  {
  }

  lemma DeadStep(s: State, op: Op, t: Token)
    requires Sound(s) && Dead(s, t) && t in s.signed
    ensures Dead(Apply(s, op), t)
  {
    DeadMeansRejected(s, t);
    match op
    case DoRefresh(u) =>
      if Redeemable(s, u) { OneTokenPerJti(s, u, t); }
    case DoLogout(u) =>
      if MayLogout(s, u) { OneTokenPerJti(s, u, t); }
    case _ =>
  }

  lemma OneTokenPerJti(s: State, t: Token, u: Token)
    requires Sound(s) && t in s.signed && u in s.signed
    ensures t.jti == u.jti <==> t == u
  {
  }

  lemma {:induction false} DeadRun(s: State, ops: seq<Op>, t: Token)
    requires Sound(s) && Dead(s, t) && t in s.signed
    ensures Dead(Run(s, ops), t)
    decreases |ops|
  {
    if ops == [] {
    } else {
      SoundStep(s, ops[0]);
      DeadStep(s, ops[0], t);
      DeadRun(Apply(s, ops[0]), ops[1..], t);
    }
  }

  lemma {:induction false} SoundRun(s: State, ops: seq<Op>)
    requires Sound(s)
    ensures Sound(Run(s, ops))
    decreases |ops|
  {
    if ops == [] {
    } else {
      SoundStep(s, ops[0]);
      SoundRun(Apply(s, ops[0]), ops[1..]);
    }
  }

  lemma BlacklistCovers(s: State, t: Token, ttl: nat)
    requires t.exp <= Secs(s.now) + ttl
    ensures 1000 * t.exp <= s.now + 1000 * ttl
  {
  }

  /** In every run: a refresh token that has been redeemed is rejected by `refresh` and by
      `validateToken` whatever happens afterwards; so it is redeemed at most once. */
  lemma RedeemedOnce(before: seq<Op>, t: Token, after: seq<Op>)
    requires Redeemable(Run(START, before), t)
    ensures var s := Run(Apply(Run(START, before), DoRefresh(t)), after);
            !Redeemable(s, t) && Refresh(s, t).1.Err? && !Valid(s, t)
  {
    SoundRun(START, before);
    var s := Run(START, before);
    SoundStep(s, DoRefresh(t));
    BlacklistCovers(s, t, REFRESH_TTL);
    var next := Apply(s, DoRefresh(t));
    DeadRun(next, after, t);
    DeadMeansRejected(Run(next, after), t);
  }

  /** A token presented to `logout` with no more than the life of an access token left is
      rejected by `validateToken` whatever happens afterwards. */
  lemma LoggedOutStaysOut(before: seq<Op>, t: Token, after: seq<Op>)
    requires MayLogout(Run(START, before), t) && t.exp <= Secs(Run(START, before).now) + ACCESS_TTL
    ensures !Valid(Run(Apply(Run(START, before), DoLogout(t)), after), t)
  {
    SoundRun(START, before);
    var s := Run(START, before);
    SoundStep(s, DoLogout(t));
    BlacklistCovers(s, t, ACCESS_TTL);
    var next := Apply(s, DoLogout(t));
    DeadRun(next, after, t);
    DeadMeansRejected(Run(next, after), t);
  }

  lemma {:induction false} TimeGrows(s: State, ops: seq<Op>)
    ensures s.now <= Run(s, ops).now
    decreases |ops|
  {
    if ops == [] {
    } else {
      TimeGrows(Apply(s, ops[0]), ops[1..]);
    }
  }

  /** An access token meets that condition at every later time. */
  lemma AccessTokensAreShort(s: State, user: string, ops: seq<Op>)
    ensures IssuedBy(s, user).access.exp <= Secs(Run(s, ops).now) + ACCESS_TTL
  {
    TimeGrows(s, ops);
  }

  /** For any token, logging out rejects it for good exactly when it has at most 15 minutes to live;
      a refresh token used for the logout is valid again after that. */
  lemma LogoutHoldsExactly(s: State, t: Token)
    requires MayLogout(s, t)
    ensures (forall ms: nat :: !Valid(Apply(Logout(s, t), Tick(ms)), t)) <==> 1000 * t.exp <= s.now + 1000 * ACCESS_TTL
  {
    var next := Logout(s, t);
    if 1000 * t.exp <= s.now + 1000 * ACCESS_TTL {
      forall ms: nat ensures !Valid(Apply(next, Tick(ms)), t) {
      }
    } else {
      assert Valid(Apply(next, Tick(1000 * ACCESS_TTL)), t);
    }
  }

  // ---------- tokens are good until they expire ----------

  /** The request neither redeems the token, nor logs its user out, nor drops the user. */
  predicate SparesRefresh(op: Op, t: Token) {
    op != DoRefresh(t) && op != DropUser(t.sub) && !(op.DoLogout? && op.token.sub == t.sub)
  }

  /** The request neither logs out with the token nor drops its user. */
  predicate SparesAccess(op: Op, t: Token) {
    op != DoLogout(t) && op != DropUser(t.sub)
  }

  predicate Kept(s: State, t: Token) {
    t in s.signed && t.jti !in s.blacklist && t.sub in s.users
  }

  predicate StoredToTheEnd(s: State, t: Token) {
    && (t.sub, t.jti) in s.stored
    && s.stored[(t.sub, t.jti)].expiresAt.Some? && s.stored[(t.sub, t.jti)].expiresAt.value >= 1000 * t.exp
  }

  lemma RefreshKeptStep(s: State, op: Op, t: Token)
    requires Sound(s) && Kept(s, t) && StoredToTheEnd(s, t) && SparesRefresh(op, t)
    ensures Kept(Apply(s, op), t) && StoredToTheEnd(Apply(s, op), t)
  {
    match op
    case DoRefresh(u) =>
      if Redeemable(s, u) { OneTokenPerJti(s, u, t); }
    case DoLogout(u) =>
      if MayLogout(s, u) { OneTokenPerJti(s, u, t); }
    case _ =>
  }

  lemma AccessKeptStep(s: State, op: Op, t: Token)
    requires Sound(s) && Kept(s, t) && (t.sub, t.jti) !in s.stored && SparesAccess(op, t)
    ensures Kept(Apply(s, op), t) && (t.sub, t.jti) !in Apply(s, op).stored
  {
    match op
    case DoRefresh(u) =>
      if Redeemable(s, u) { OneTokenPerJti(s, u, t); }
    case DoLogout(u) =>
      if MayLogout(s, u) { OneTokenPerJti(s, u, t); }
    case _ =>
  }

  lemma {:induction false} RefreshKeptRun(s: State, ops: seq<Op>, t: Token)
    requires Sound(s) && Kept(s, t) && StoredToTheEnd(s, t) && forall i | 0 <= i < |ops| :: SparesRefresh(ops[i], t)
    ensures Kept(Run(s, ops), t) && StoredToTheEnd(Run(s, ops), t)
    decreases |ops|
  {
    if ops == [] {
    } else {
      RefreshKeptStep(s, ops[0], t);
      SoundStep(s, ops[0]);
      hide Apply, Sound, Kept, StoredToTheEnd, SparesRefresh;
      RefreshKeptRun(Apply(s, ops[0]), ops[1..], t);
    }
  }

  lemma {:induction false} AccessKeptRun(s: State, ops: seq<Op>, t: Token)
    requires Sound(s) && Kept(s, t) && (t.sub, t.jti) !in s.stored && forall i | 0 <= i < |ops| :: SparesAccess(ops[i], t)
    ensures Kept(Run(s, ops), t)
    decreases |ops|
  {
    if ops == [] {
    } else {
      AccessKeptStep(s, ops[0], t);
      SoundStep(s, ops[0]);
      hide Apply, Sound, Kept, SparesAccess;
      AccessKeptRun(Apply(s, ops[0]), ops[1..], t);
    }
  }

  lemma GeneratedKept(s: State, user: string)
    requires Sound(s) && user in s.users
    ensures var n, t := Generated(s, user), IssuedBy(s, user);
            && Kept(n, t.refresh) && StoredToTheEnd(n, t.refresh) && t.refresh.exp == Secs(s.now) + 604_800
            && Kept(n, t.access) && (user, t.access.jti) !in n.stored && t.access.exp == Secs(s.now) + 900
  {
  }

  /** In every run: the refresh token of a login is redeemable for seven days, to the second, unless it is
      redeemed, its user logs out, or its user is dropped. */
  lemma RefreshTokenLasts(before: seq<Op>, user: string, after: seq<Op>)
    requires user in Run(START, before).users
    requires var t := IssuedBy(Run(START, before), user).refresh;
             forall i | 0 <= i < |after| :: SparesRefresh(after[i], t)
    ensures var s := Run(START, before);
            var t, n := IssuedBy(s, user).refresh, Run(Apply(s, DoLogin(user, true)), after);
            Redeemable(n, t) <==> Secs(n.now) < Secs(s.now) + 604_800
  {
    SoundRun(START, before);
    var s := Run(START, before);
    var t := IssuedBy(s, user).refresh;
    GeneratedKept(s, user);
    GeneratedSound(s, user);
    var next := Apply(s, DoLogin(user, true));
    assert next == Generated(s, user);
    RefreshKeptRun(next, after, t);
    hide Run, Generated, Sound, SparesRefresh;
  }

  /** In every run: the access token of a login is valid for 15 minutes, to the second, unless it is used to
      log out or its user is dropped; other logouts of the user do not end it. */
  lemma AccessTokenLasts(before: seq<Op>, user: string, after: seq<Op>)
    requires user in Run(START, before).users
    requires var t := IssuedBy(Run(START, before), user).access;
             forall i | 0 <= i < |after| :: SparesAccess(after[i], t)
    ensures var s := Run(START, before);
            var t, n := IssuedBy(s, user).access, Run(Apply(s, DoLogin(user, true)), after);
            Valid(n, t) <==> Secs(n.now) < Secs(s.now) + 900
  {
    SoundRun(START, before);
    var s := Run(START, before);
    var t := IssuedBy(s, user).access;
    GeneratedKept(s, user);
    GeneratedSound(s, user);
    var next := Apply(s, DoLogin(user, true));
    assert next == Generated(s, user);
    AccessKeptRun(next, after, t);
    hide Run, Generated, Sound, SparesAccess;
  }

  lemma FourOps(s: State, a: Op, b: Op, c: Op, d: Op)
    ensures Run(s, [a, b, c, d]) == Apply(Apply(Apply(Apply(s, a), b), c), d)
  {
    hide Apply;
    assert [a, b, c, d][1..] == [b, c, d] && [b, c, d][1..] == [c, d] && [c, d][1..] == [d] && [d][1..] == [];
    var s1 := Apply(s, a);
    var s2 := Apply(s1, b);
    var s3 := Apply(s2, c);
    assert Run(s, [a, b, c, d]) == Run(s1, [b, c, d]) == Run(s2, [c, d]) == Run(s3, [d]) == Run(Apply(s3, d), []);
  }

  /** It happens: log in, log out with the refresh token, wait 15 minutes, and it is valid. */
  lemma LoggedOutRefreshTokenReturns(user: string)
    ensures var t := Token(user, 1, REFRESH_TTL);
            && IssuedBy(Run(START, [AddUser(user)]), user).refresh == t
            && !Valid(Run(START, [AddUser(user), DoLogin(user, true), DoLogout(t), Tick(0)]), t)
            && Valid(Run(START, [AddUser(user), DoLogin(user, true), DoLogout(t), Tick(900_000)]), t)
  {
    var t := Token(user, 1, REFRESH_TTL);
    assert [AddUser(user)][1..] == [];
    assert Run(START, [AddUser(user)]) == Run(Apply(START, AddUser(user)), []);
    FourOps(START, AddUser(user), DoLogin(user, true), DoLogout(t), Tick(0));
    FourOps(START, AddUser(user), DoLogin(user, true), DoLogout(t), Tick(900_000));
    hide Run;
    var s2 := Apply(Apply(START, AddUser(user)), DoLogin(user, true));
    assert t in s2.signed && s2.users == {user} && s2.blacklist == map[];
    var s3 := Apply(s2, DoLogout(t));
    assert s3.blacklist == map[1 := For(true, ACCESS_TTL, 0)] && s3.signed == s2.signed && s3.users == {user};
  }

  // ---------- how many refresh tokens are stored ----------

  /** The identifiers of a user's live refresh tokens. */
  function StoredOf(s: State, user: string): set<nat> {
    set k | k in s.stored && k.0 == user && Live(s.stored[k], s.now) :: k.1
  }

  lemma SubsetSize<T>(a: set<T>, b: set<T>)
    requires a <= b
    ensures |a| <= |b|
  {
    assert b == a + (b - a);
  }

  /** What rotation does to the table of refresh tokens. */
  lemma RotatedTable(s: State, t: Token, k: (string, nat))
    requires Sound(s) && Redeemable(s, t)
    ensures var n := Refresh(s, t).0;
            && (k in n.stored <==> k == (t.sub, s.nextJti + 1) || (k in s.stored && k != (t.sub, t.jti)))
            && (k in n.stored && k != (t.sub, s.nextJti + 1) ==> n.stored[k] == s.stored[k])
    ensures var n := Refresh(s, t).0; n.now == s.now && (k == (t.sub, s.nextJti + 1) ==> Live(n.stored[k], s.now))
    ensures (t.sub, t.jti) in s.stored && Live(s.stored[(t.sub, t.jti)], s.now)
    ensures (t.sub, s.nextJti + 1) !in s.stored
  {
  }

  lemma StoredIs(s: State, user: string, jti: nat)
    ensures jti in StoredOf(s, user) <==> (user, jti) in s.stored && Live(s.stored[(user, jti)], s.now)
  {
  }

  /** Rotation swaps one token for another: the number stored does not change, for any user. */
  lemma RefreshKeepsCount(s: State, t: Token, user: string)
    requires Sound(s) && Redeemable(s, t)
    ensures |StoredOf(Refresh(s, t).0, user)| == |StoredOf(s, user)|
    ensures user != t.sub ==> StoredOf(Refresh(s, t).0, user) == StoredOf(s, user)
    ensures user == t.sub ==> StoredOf(Refresh(s, t).0, user) == StoredOf(s, user) - {t.jti} + {s.nextJti + 1}
  {
    hide Sound, Redeemable, Refresh, StoredOf, Live;
    var n := Refresh(s, t).0;
    forall jti: nat
      ensures user != t.sub ==> (jti in StoredOf(n, user) <==> jti in StoredOf(s, user))
      ensures user == t.sub ==> (jti in StoredOf(n, user) <==> jti == s.nextJti + 1 || (jti in StoredOf(s, user) && jti != t.jti))
    {
      RotatedTable(s, t, (user, jti));
      StoredIs(n, user, jti);
      StoredIs(s, user, jti);
    }
    RotatedTable(s, t, (t.sub, t.jti));
    StoredIs(s, t.sub, t.jti);
    StoredIs(s, t.sub, s.nextJti + 1);
    if user == t.sub {
      assert StoredOf(n, user) == StoredOf(s, user) - {t.jti} + {s.nextJti + 1};
    } else {
      assert StoredOf(n, user) == StoredOf(s, user);
    }
  }

  /** Successful logins of a user since the last logout. */
  function LoginsAfter(s: State, op: Op, user: string, n: nat): nat {
    match op
    case DoLogin(u, ok) => if u == user && Login(s, u, ok).1.Ok? then n + 1 else n
    case DoLogout(t) => if t.sub == user && MayLogout(s, t) then 0 else n
    case _ => n
  }

  function LoginsSince(s: State, ops: seq<Op>, user: string, n: nat): nat
    decreases |ops|
  {
    if ops == [] then n else LoginsSince(Apply(s, ops[0]), ops[1..], user, LoginsAfter(s, ops[0], user, n))
  }

  lemma GeneratedCount(s: State, u: string, user: string)
    requires Sound(s)
    ensures |StoredOf(Generated(s, u), user)| <= |StoredOf(s, user)| + if u == user then 1 else 0
  {
    var next := Generated(s, u);
    var more := if u == user then {s.nextJti + 1} else {};
    assert StoredOf(next, user) <= StoredOf(s, user) + more;
    SubsetSize(StoredOf(next, user), StoredOf(s, user) + more);
  }

  lemma LogoutCount(s: State, t: Token, user: string)
    ensures |StoredOf(Logout(s, t), user)| <= if t.sub == user && MayLogout(s, t) then 0 else |StoredOf(s, user)|
  {
    hide MayLogout, Live;
    var next := Logout(s, t);
    if MayLogout(s, t) && t.sub == user {
      assert StoredOf(next, user) == {};
    } else {
      SubsetSize(StoredOf(next, user), StoredOf(s, user));
    }
  }

  lemma TickCount(s: State, ms: nat, user: string)
    ensures |StoredOf(s.(now := s.now + ms), user)| <= |StoredOf(s, user)|
  {
    SubsetSize(StoredOf(s.(now := s.now + ms), user), StoredOf(s, user));
  }

  lemma CountStep(s: State, op: Op, user: string, n: nat)
    requires Sound(s) && |StoredOf(s, user)| <= n
    ensures |StoredOf(Apply(s, op), user)| <= LoginsAfter(s, op, user, n)
  {
    match op
    case DoLogin(u, ok) =>
      GeneratedCount(s, u, user);
      hide Sound, StoredOf, Generated, IssuedBy;
    case DoRefresh(t) =>
      if Redeemable(s, t) { RefreshKeepsCount(s, t, user); }
      hide Sound, StoredOf, Redeemable, Generated, Revoked;
    case DoLogout(t) =>
      LogoutCount(s, t, user);
      hide Sound, StoredOf, Logout, MayLogout;
    case Tick(ms) =>
      TickCount(s, ms, user);
      hide Sound, StoredOf;
    case AddUser(u) =>
      assert StoredOf(s.(users := s.users + {u}), user) == StoredOf(s, user);
    case DropUser(u) =>
      assert StoredOf(s.(users := s.users - {u}), user) == StoredOf(s, user);
  }

  lemma {:induction false} CountRun(s: State, ops: seq<Op>, user: string, n: nat)
    requires Sound(s) && |StoredOf(s, user)| <= n
    ensures |StoredOf(Run(s, ops), user)| <= LoginsSince(s, ops, user, n)
    decreases |ops|
  {
    if ops == [] {
    } else {
      CountStep(s, ops[0], user, n);
      SoundStep(s, ops[0]);
      hide Apply, Sound, StoredOf, LoginsAfter;
      CountRun(Apply(s, ops[0]), ops[1..], user, LoginsAfter(s, ops[0], user, n));
    }
  }

  /** In every run a user has no more live refresh tokens than logins since the last logout. */
  lemma NoMoreThanLogins(ops: seq<Op>, user: string)
    ensures |StoredOf(Run(START, ops), user)| <= LoginsSince(START, ops, user, 0)
  {
    assert StoredOf(START, user) == {};
    CountRun(START, ops, user, 0);
  }

  /** None of a user's tokens with an identifier below `bound` is stored. */
  predicate Gone(s: State, user: string, bound: nat) {
    bound <= s.nextJti && forall k | k in s.stored && k.0 == user :: k.1 >= bound
  }

  lemma {:induction false} GoneRun(s: State, ops: seq<Op>, user: string, bound: nat)
    requires Gone(s, user, bound)
    ensures Gone(Run(s, ops), user, bound)
    decreases |ops|
  {
    if ops == [] {
    } else {
      GoneRun(Apply(s, ops[0]), ops[1..], user, bound);
    }
  }

  /** In every run: after a logout no refresh token the user had before is ever redeemed. */
  lemma LogoutEndsSessions(before: seq<Op>, t: Token, after: seq<Op>, earlier: Token)
    requires var s := Run(START, before); MayLogout(s, t) && earlier in s.signed && earlier.sub == t.sub
    ensures var s := Run(Apply(Run(START, before), DoLogout(t)), after);
            !Redeemable(s, earlier) && Refresh(s, earlier).1.Err?
  {
    SoundRun(START, before);
    var s := Run(START, before);
    GoneRun(Apply(s, DoLogout(t)), after, t.sub, s.nextJti);
  }
}
