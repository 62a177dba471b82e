/** Refresh-token rotation: each refresh revokes the presented token and issues a new one.
    A signed token is modelled by its claims; `exp` and `jti` are the claims of sections
    4.1.4 and 4.1.7 of RFC 7519. */
module RefreshTokens {
  import opened Common

  datatype TokenKind = Access | Refresh

  /** `exp` is in whole seconds. */
  datatype Claims = Claims(user: Uuid, kind: TokenKind, jti: string, exp: int)

  datatype TokenRow = TokenRow(user: Uuid, expiresAt: Time, revoked: bool)

  type Tokens = map<string, TokenRow>

  /** `issued` are the claims the server has signed, `known` the user ids ever created. */
  datatype Auth = Auth(users: set<Uuid>, tokens: Tokens, issued: set<Claims>, known: set<Uuid>)

  datatype Config = Config(accessExpiry: Time, refreshExpiry: Time)

  /** The clock readings of one request, in order: checking the presented token, signing
      the new ones, reading the new jti back, and storing it. */
  datatype Clock = Clock(check: Time, sign: Time, readBack: Time, store: Time) {
    predicate Ticks() {
      check <= sign <= readBack <= store
    }
  }

  /** An expiry in Unix seconds, fractions dropped. */
  function UnixExpiry(now: Time, expiry: Time): int {
    (now + expiry) / SECOND
  }

  /** The table keeps microseconds. */
  function StoredExpiry(now: Time, expiry: Time): Time {
    (now + expiry) / MICROSECOND * MICROSECOND
  }

  /** A signed token is accepted strictly before its expiry. */
  predicate Unexpired(c: Claims, now: Time) {
    now < c.exp * SECOND
  }

  /** The stored expiry is never earlier than the second-truncated claim. */
  lemma {:induction false} StoredExpiryCoversClaim(signed: Time, stored: Time, expiry: Time)
    requires signed <= stored
    ensures UnixExpiry(signed, expiry) * SECOND <= StoredExpiry(stored, expiry)
  {
    var x, y := signed + expiry, stored + expiry;
    Floor(x, SECOND);
    Floor(y, MICROSECOND);
    WholeUnits(x / SECOND, y / MICROSECOND, y);
  }

  lemma {:induction false} Floor(x: Time, unit: Time)
    requires unit > 0
    ensures x / unit * unit <= x < (x / unit + 1) * unit
  {
  }

  lemma {:induction false} WholeUnits(seconds: int, micros: int, y: Time)
    requires seconds * SECOND <= y < (micros + 1) * MICROSECOND
    ensures seconds * SECOND <= micros * MICROSECOND
  {
    assert seconds * 1_000_000 < micros + 1;
  }

  // ------------------------------------------------------------------- table operations

  function Revoked(ts: Tokens, jti: string): Tokens {
    if jti in ts then ts[jti := ts[jti].(revoked := true)] else ts
  }

  function RevokedAll(ts: Tokens, user: Uuid): Tokens {
    map j | j in ts :: if ts[j].user == user then ts[j].(revoked := true) else ts[j]
  }

  function Purged(ts: Tokens, now: Time): Tokens {
    map j | j in ts && ts[j].expiresAt >= now :: ts[j]
  }

  /** Deleting a user cascades to the user's token rows. */
  function Cascaded(ts: Tokens, user: Uuid): Tokens {
    map j | j in ts && ts[j].user != user :: ts[j]
  }

  /** A missing row counts as not revoked. */
  predicate IsRevoked(ts: Tokens, jti: string) {
    jti in ts && ts[jti].revoked
  }

  function NewRefresh(cfg: Config, user: Uuid, jti: string, now: Time): Claims {
    Claims(user, Refresh, jti, UnixExpiry(now, cfg.refreshExpiry))
  }

  /** Signing an access and a refresh token and storing the latter's jti. Reading the jti
      back validates the token, so one that has already expired is not stored; nor is a
      jti that is taken. */
  function Issue(cfg: Config, a: Auth, user: Uuid, jti: string, t: Clock, storeFails: bool): Auth {
    var access := Claims(user, Access, "", UnixExpiry(t.sign, cfg.accessExpiry));
    var fresh' := NewRefresh(cfg, user, jti, t.sign);
    var a' := a.(issued := a.issued + {access, fresh'});
    if Unexpired(fresh', t.readBack) && jti != "" && !storeFails && jti !in a.tokens && user in a.users then
      a'.(tokens := a.tokens[jti := TokenRow(user, StoredExpiry(t.store, cfg.refreshExpiry), false)])
    else a'
  }

  datatype Error = InvalidCredentials | InvalidTokenType | TokenRevoked | UserNotFound

  datatype Outcome = Ok | Err(error: Error)

  /** Repository failures during a refresh; each is logged and ignored. */
  datatype Faults = Faults(check: bool, revoke: bool, store: bool)

  function CheckRefresh(a: Auth, c: Claims, now: Time, checkFails: bool): Outcome {
    if c !in a.issued || !Unexpired(c, now) then Err(InvalidCredentials)
    else if c.kind != Refresh then Err(InvalidTokenType)
    else if c.jti != "" && !checkFails && IsRevoked(a.tokens, c.jti) then Err(TokenRevoked)
    else if c.user !in a.users then Err(UserNotFound)
    else Ok
  }

  function Rotate(cfg: Config, a: Auth, c: Claims, jti: string, t: Clock, f: Faults): Auth {
    if CheckRefresh(a, c, t.check, f.check) != Ok then a
    else
      var a' := if f.revoke || c.jti == "" then a else a.(tokens := Revoked(a.tokens, c.jti));
      Issue(cfg, a', c.user, jti, t, f.store)
  }

  class RefreshTokenRepository {
    var tokens: Tokens

    constructor ()
      ensures tokens == map[]
    {
      tokens := map[];
    }

    method Store(user: Uuid, jti: string, expiresAt: Time, fails: bool) returns (ok: bool)
      modifies this
      ensures ok == (!fails && jti !in old(tokens))
      ensures tokens == if ok then old(tokens)[jti := TokenRow(user, expiresAt, false)] else old(tokens)
    {
      if fails || jti in tokens {
        return false;
      }
      tokens := tokens[jti := TokenRow(user, expiresAt, false)];
      return true;
    }

    method Revoke(jti: string, fails: bool) returns (r: Result<bool>)
      modifies this
      ensures r == if fails then Failure else Success(jti in old(tokens) && !old(tokens)[jti].revoked)
      ensures tokens == if fails then old(tokens) else Revoked(old(tokens), jti)
    {
      if fails {
        return Failure;
      }
      if jti in tokens && !tokens[jti].revoked {
        tokens := tokens[jti := tokens[jti].(revoked := true)];
        return Success(true);
      }
      assert tokens == Revoked(tokens, jti);
      return Success(false);
    }

    /** Returns the number of rows removed. */
    method PurgeExpired(now: Time) returns (purged: nat)
      modifies this
      ensures tokens == Purged(old(tokens), now)
      ensures forall j :: j in tokens <==> j in old(tokens) && old(tokens)[j].expiresAt >= now
      ensures forall j :: j in tokens ==> tokens[j] == old(tokens)[j]
      ensures purged == |set j | j in old(tokens) && old(tokens)[j].expiresAt < now| == |old(tokens)| - |tokens|
    {
      var kept := map j | j in tokens && tokens[j].expiresAt >= now :: tokens[j];
      var dropped := set j | j in tokens && tokens[j].expiresAt < now;
      assert tokens.Keys == kept.Keys + dropped && kept.Keys !! dropped;
      assert |tokens| == |kept| + |dropped|;
      purged := |dropped|;
      tokens := kept;
    }

    method RevokeAllForUser(user: Uuid, fails: bool)
      modifies this
      ensures tokens == if fails then old(tokens) else RevokedAll(old(tokens), user)
      ensures tokens.Keys == old(tokens).Keys
      ensures !fails ==> forall j :: j in tokens && tokens[j].user == user ==> IsRevoked(tokens, j)
      ensures forall j :: j in tokens && old(tokens)[j].user != user ==> tokens[j] == old(tokens)[j]
    {
      if !fails {
        tokens := map j | j in tokens :: if tokens[j].user == user then tokens[j].(revoked := true) else tokens[j];
      }
    }
  }

  class AuthService {
    const repo: RefreshTokenRepository
    const config: Config
    var users: set<Uuid>
    var issued: set<Claims>
    var known: set<Uuid>

    constructor (repo: RefreshTokenRepository, config: Config)
      ensures this.repo == repo && this.config == config && users == {} && issued == {} && known == {}
    {
      this.repo, this.config := repo, config;
      users, issued, known := {}, {}, {};
    }

    ghost function View(): Auth
      reads this, repo
    {
      Auth(users, repo.tokens, issued, known)
    }

    /** Token issue shared by registration, login and refresh. */
    method IssueTokens(user: Uuid, jti: string, t: Clock, storeFails: bool)
      requires user in users
      modifies this`issued, repo
      ensures View() == Issue(config, old(View()), user, jti, t, storeFails)
    {
      var claims := Claims(user, Refresh, jti, UnixExpiry(t.sign, config.refreshExpiry));
      issued := issued + {Claims(user, Access, "", UnixExpiry(t.sign, config.accessExpiry)), claims};
      var readBack := if Unexpired(claims, t.readBack) then claims.jti else "";
      if readBack != "" {
        var _ := repo.Store(user, readBack, StoredExpiry(t.store, config.refreshExpiry), storeFails);
      }
    }

    method RefreshToken(c: Claims, jti: string, t: Clock, f: Faults) returns (r: Outcome)
      modifies this`issued, repo
      ensures r == CheckRefresh(old(View()), c, t.check, f.check)
      ensures View() == Rotate(config, old(View()), c, jti, t, f)
    {
      ghost var a := View();
      r := Check(c, t.check, f.check);
      if r != Ok {
        return;
      }
      if c.jti != "" {
        var _ := repo.Revoke(c.jti, f.revoke);
      }
      assert View() == if f.revoke || c.jti == "" then a else a.(tokens := Revoked(a.tokens, c.jti));
      IssueTokens(c.user, jti, t, f.store);
    }

    /** A valid signature means the claims were signed here. */
    method Check(c: Claims, now: Time, checkFails: bool) returns (r: Outcome)
      ensures r == CheckRefresh(View(), c, now, checkFails)
      ensures var valid := c in issued && now < c.exp * 1_000_000_000;
              var seen := c.jti != "" && !checkFails && c.jti in repo.tokens && repo.tokens[c.jti].revoked;
              && (r == Err(InvalidCredentials) <==> !valid)
              && (r == Err(InvalidTokenType) <==> valid && c.kind == Access)
              && (r == Err(TokenRevoked) <==> valid && c.kind == Refresh && seen)
              && (r == Err(UserNotFound) <==> valid && c.kind == Refresh && !seen && c.user !in users)
    {
      if c !in issued || !Unexpired(c, now) {
        return Err(InvalidCredentials);
      }
      if c.kind != Refresh {
        return Err(InvalidTokenType);
      }
      if c.jti != "" {
        var revoked := !checkFails && c.jti in repo.tokens && repo.tokens[c.jti].revoked;
        if revoked {
          return Err(TokenRevoked);
        }
      }
      if c.user !in users {
        return Err(UserNotFound);
      }
      return Ok;
    }

    /** A new user gets a random id, never used before. */
    method Register(user: Uuid, jti: string, t: Clock, storeFails: bool)
      requires user !in known
      modifies this, repo
      ensures View() == Registered(config, old(View()), user, jti, t, storeFails)
      ensures users == old(users) + {user} && known == old(known) + {user}
    {
      users, known := users + {user}, known + {user};
      IssueTokens(user, jti, t, storeFails);
    }

    /** `verified`: the account exists under that email and the password hash matches. */
    method Login(user: Uuid, verified: bool, jti: string, t: Clock, storeFails: bool) returns (r: Outcome)
      modifies this, repo
      ensures r == if verified && user in users then Ok else Err(InvalidCredentials)
      ensures View() == LoggedIn(config, old(View()), user, verified, jti, t, storeFails)
      ensures users == old(users) && known == old(known) && (r != Ok ==> View() == old(View()))
    {
      if !verified || user !in users {
        return Err(InvalidCredentials);
      }
      IssueTokens(user, jti, t, storeFails);
      return Ok;
    }

    /** Revokes the user's tokens, then deletes the user; the deletion cascades. */
    method DeleteAccount(user: Uuid, verified: bool, revokeFails: bool, deleteFails: bool) returns (deleted: bool)
      modifies this, repo
      ensures deleted == (user in old(users) && verified && !deleteFails)
      ensures View() == Deleted(old(View()), user, verified, revokeFails, deleteFails)
      ensures users == if deleted then old(users) - {user} else old(users)
      ensures deleted ==> forall j :: j in repo.tokens ==> repo.tokens[j].user != user
      ensures forall j :: j in old(repo.tokens) && old(repo.tokens)[j].user != user ==>
                j in repo.tokens && repo.tokens[j] == old(repo.tokens)[j]
      ensures known == old(known) && issued == old(issued)
    {
      if user !in users || !verified {
        return false;
      }
      repo.RevokeAllForUser(user, revokeFails);
      if deleteFails {
        return false;
      }
      users := users - {user};
      repo.tokens := map j | j in repo.tokens && repo.tokens[j].user != user :: repo.tokens[j];
      return true;
    }
  }

  function Registered(cfg: Config, a: Auth, user: Uuid, jti: string, t: Clock, storeFails: bool): Auth {
    Issue(cfg, a.(users := a.users + {user}, known := a.known + {user}), user, jti, t, storeFails)
  }

  function LoggedIn(cfg: Config, a: Auth, user: Uuid, verified: bool, jti: string, t: Clock, storeFails: bool): Auth {
    if verified && user in a.users then Issue(cfg, a, user, jti, t, storeFails) else a
  }

  function Deleted(a: Auth, user: Uuid, verified: bool, revokeFails: bool, deleteFails: bool): Auth {
    if user !in a.users || !verified then a
    else
      var ts := if revokeFails then a.tokens else RevokedAll(a.tokens, user);
      if deleteFails then a.(tokens := ts)
      else a.(users := a.users - {user}, tokens := Cascaded(ts, user))
  }

  // ----------------------------------------------------------------------------- runs

  datatype Step =
    | DoRegister(user: Uuid, jti: string, clock: Clock, storeFails: bool)
    | DoLogin(user: Uuid, verified: bool, jti: string, clock: Clock, storeFails: bool)
    | DoRefresh(token: Claims, jti: string, clock: Clock, faults: Faults)
    | DoDelete(user: Uuid, verified: bool, revokeFails: bool, deleteFails: bool, now: Time)
    | DoPurge(now: Time)

  predicate Signs(s: Step) {
    !s.DoDelete? && !s.DoPurge?
  }

  function Begin(s: Step): Time {
    if Signs(s) then s.clock.check else s.now
  }

  function End(s: Step): Time {
    if Signs(s) then s.clock.store else s.now
  }

  predicate StoreFails(s: Step)
    requires Signs(s)
  {
    if s.DoRefresh? then s.faults.store else s.storeFails
  }

  function Next(cfg: Config, a: Auth, s: Step): Auth {
    match s
    case DoRegister(user, jti, t, storeFails) => Registered(cfg, a, user, jti, t, storeFails)
    case DoLogin(user, verified, jti, t, storeFails) => LoggedIn(cfg, a, user, verified, jti, t, storeFails)
    case DoRefresh(c, jti, t, f) => Rotate(cfg, a, c, jti, t, f)
    case DoDelete(user, verified, revokeFails, deleteFails, _) => Deleted(a, user, verified, revokeFails, deleteFails)
    case DoPurge(now) => a.(tokens := Purged(a.tokens, now))
  }

  /** New ids are random, hence new: a registration's user id has never been used, and an
      issued jti neither signed nor stored before. The clock does not run backwards. */
  ghost predicate Legal(a: Auth, s: Step, before: Time) {
    && before <= Begin(s)
    && (s.DoRegister? ==> s.user !in a.known)
    && (Signs(s) ==>
          && s.clock.Ticks() && s.jti != "" && s.jti !in a.tokens
          && (forall c :: c in a.issued ==> c.jti != s.jti))
  }

  predicate Succeeds(a: Auth, s: Step, jti: string) {
    s.DoRefresh? && s.token.jti == jti && CheckRefresh(a, s.token, s.clock.check, s.faults.check) == Ok
  }

  /** The step hands out the refresh token with this jti. */
  predicate Issues(a: Auth, s: Step, jti: string) {
    match s
    case DoRegister(_, new', _, _) => new' == jti
    case DoLogin(user, verified, new', _, _) => new' == jti && verified && user in a.users
    case DoRefresh(c, new', t, f) => new' == jti && CheckRefresh(a, c, t.check, f.check) == Ok
    case _ => false
  }

  /** The step asks the table, successfully, to revoke this token. */
  predicate Revokes(a: Auth, s: Step, c: Claims) {
    && c in a.issued
    && match s
       case DoRefresh(d, _, t, f) => d == c && CheckRefresh(a, c, t.check, f.check) == Ok && !f.revoke
       case DoDelete(user, verified, revokeFails, _, _) =>
         user == c.user && user in a.users && verified && !revokeFails
       case _ => false
  }

  function Run(cfg: Config, steps: seq<Step>): Auth {
    if steps == [] then Auth({}, map[], {}, {}) else Next(cfg, Run(cfg, steps[..|steps|-1]), steps[|steps|-1])
  }

  /** The time after the steps. */
  function Now(steps: seq<Step>, start: Time): Time {
    if steps == [] then start else End(steps[|steps|-1])
  }

  ghost predicate IsRun(cfg: Config, steps: seq<Step>, start: Time) {
    forall i :: 0 <= i < |steps| ==> Legal(Run(cfg, steps[..i]), steps[i], Now(steps[..i], start))
  }

  /** How often the token with this jti was refreshed. */
  function Uses(cfg: Config, steps: seq<Step>, jti: string): nat {
    if steps == [] then 0
    else var n := |steps| - 1;
         Uses(cfg, steps[..n], jti) + if Succeeds(Run(cfg, steps[..n]), steps[n], jti) then 1 else 0
  }

  /** The step that handed the token out also stored its jti. */
  predicate WasStored(cfg: Config, steps: seq<Step>, jti: string) {
    steps != [] &&
    var n := |steps| - 1;
    WasStored(cfg, steps[..n], jti) || (Issues(Run(cfg, steps[..n]), steps[n], jti) && !StoreFails(steps[n]))
  }

  /** Some step after the token was handed out revoked it. */
  predicate WasRevoked(cfg: Config, steps: seq<Step>, c: Claims) {
    steps != [] &&
    var n := |steps| - 1;
    WasRevoked(cfg, steps[..n], c) || Revokes(Run(cfg, steps[..n]), steps[n], c)
  }

  // -------------------------------------------------------------------- what is signed

  /** A claim signed at `signed` for `user` expires when the expiry of its kind has passed,
      fractions of a second dropped; only a refresh token carries the jti. */
  predicate SignedFor(cfg: Config, user: Uuid, jti: string, signed: Time, c: Claims) {
    && c.user == user && c.jti == (if c.kind == Refresh then jti else "")
    && var lifetime := if c.kind == Access then cfg.accessExpiry else cfg.refreshExpiry;
       c.exp * 1_000_000_000 <= signed + lifetime < (c.exp + 1) * 1_000_000_000
  }

  /** Handing out tokens signs one access and one refresh claim, and no other. */
  lemma {:induction false} IssueSignsPair(cfg: Config, a: Auth, user: Uuid, jti: string, t: Clock, storeFails: bool)
    returns (access: Claims, refresh: Claims)
    ensures Issue(cfg, a, user, jti, t, storeFails).issued == a.issued + {access, refresh}
    ensures access.kind == Access && SignedFor(cfg, user, jti, t.sign, access)
    ensures refresh.kind == Refresh && SignedFor(cfg, user, jti, t.sign, refresh)
  {
    access := Claims(user, Access, "", UnixExpiry(t.sign, cfg.accessExpiry));
    refresh := NewRefresh(cfg, user, jti, t.sign);
    Floor(t.sign + cfg.accessExpiry, SECOND);
    Floor(t.sign + cfg.refreshExpiry, SECOND);
  }

  /** A stored row is the user's, unrevoked, and expires when the refresh expiry after the
      moment of storing has passed, fractions of a microsecond dropped; every other row
      stays. */
  lemma {:induction false} IssueStoresRow(cfg: Config, a: Auth, user: Uuid, jti: string, t: Clock, storeFails: bool)
    ensures var ts := Issue(cfg, a, user, jti, t, storeFails).tokens;
            && (forall j :: j in a.tokens ==> j in ts && ts[j] == a.tokens[j])
            && (forall j :: j in ts && j !in a.tokens ==>
                  && j == jti && !storeFails && ts[j].user == user && !ts[j].revoked
                  && ts[j].expiresAt <= t.store + cfg.refreshExpiry < ts[j].expiresAt + 1_000)
  {
    Floor(t.store + cfg.refreshExpiry, MICROSECOND);
  }

  /** The step hands out tokens and `c` is one of them. */
  predicate SignedBy(cfg: Config, a: Auth, s: Step, c: Claims) {
    && Signs(s) && Issues(a, s, s.jti)
    && SignedFor(cfg, if s.DoRefresh? then s.token.user else s.user, s.jti, s.clock.sign, c)
  }

  lemma {:induction false} StepSigns(cfg: Config, a: Auth, s: Step, c: Claims)
    requires c in Next(cfg, a, s).issued && c !in a.issued
    ensures SignedBy(cfg, a, s, c)
  {
    match s
    case DoRegister(user, jti, t, storeFails) =>
      var b := a.(users := a.users + {user}, known := a.known + {user});
      var _, _ := IssueSignsPair(cfg, b, user, jti, t, storeFails);
    case DoLogin(user, verified, jti, t, storeFails) =>
      var _, _ := IssueSignsPair(cfg, a, user, jti, t, storeFails);
    case DoRefresh(d, jti, t, f) =>
      var ts := if f.revoke || d.jti == "" then a.tokens else Revoked(a.tokens, d.jti);
      var _, _ := IssueSignsPair(cfg, a.(tokens := ts), d.user, jti, t, f.store);
    case DoDelete(_, _, _, _, _) =>
    case DoPurge(_) =>
  }

  /** Every signed token of a run was handed out by one of its steps, to the user of that
      step and with the lifetime of its kind. */
  lemma {:induction false} EveryTokenWasSigned(cfg: Config, steps: seq<Step>, c: Claims) returns (i: nat)
    requires c in Run(cfg, steps).issued
    ensures i < |steps| && SignedBy(cfg, Run(cfg, steps[..i]), steps[i], c)
  {
    var n := |steps| - 1;
    if c in Run(cfg, steps[..n]).issued {
      i := EveryTokenWasSigned(cfg, steps[..n], c);
      assert steps[..n][..i] == steps[..i];
    } else {
      StepSigns(cfg, Run(cfg, steps[..n]), steps[n], c);
      i := n;
    }
  }

  // ----------------------------------------------------------------------- invariants

  /** A signed refresh token belongs to a known user, and a row with its jti is its own and
      outlives it. */
  ghost predicate Covered(a: Auth, c: Claims) {
    && c.jti != "" && c.user in a.known
    && (c.jti in a.tokens ==>
          a.tokens[c.jti].user == c.user && c.exp * SECOND <= a.tokens[c.jti].expiresAt)
  }

  ghost predicate IsRefreshToken(a: Auth, c: Claims) {
    c in a.issued && c.kind == Refresh
  }

  ghost predicate Inv(a: Auth) {
    && a.users <= a.known
    && (forall c :: IsRefreshToken(a, c) ==> Covered(a, c))
    && (forall c, d :: IsRefreshToken(a, c) && IsRefreshToken(a, d) && c.jti == d.jti ==> c == d)
  }

  lemma {:induction false} IssueKeepsInv(cfg: Config, a: Auth, user: Uuid, jti: string, t: Clock, storeFails: bool)
    requires Inv(a) && t.Ticks() && user in a.users
    requires jti != "" && jti !in a.tokens && forall c :: c in a.issued ==> c.jti != jti
    ensures Inv(Issue(cfg, a, user, jti, t, storeFails))
  {
    var a' := Issue(cfg, a, user, jti, t, storeFails);
    var new' := NewRefresh(cfg, user, jti, t.sign);
    forall c | IsRefreshToken(a', c) ensures Covered(a', c) {
      if c == new' {
        StoredExpiryCoversClaim(t.sign, t.store, cfg.refreshExpiry);
      } else {
        assert IsRefreshToken(a, c);
      }
    }
    forall c, d | IsRefreshToken(a', c) && IsRefreshToken(a', d) && c.jti == d.jti ensures c == d {
      assert c == new' || IsRefreshToken(a, c);
      assert d == new' || IsRefreshToken(a, d);
    }
  }

  /** Revoking rows and dropping rows keep what is left in place. */
  lemma {:induction false} FewerRowsKeepInv(a: Auth, ts: Tokens, users: set<Uuid>)
    requires Inv(a) && users <= a.users
    requires forall j :: j in ts ==>
      j in a.tokens && ts[j].user == a.tokens[j].user && ts[j].expiresAt == a.tokens[j].expiresAt
    ensures Inv(a.(tokens := ts, users := users))
  {
    var a' := a.(tokens := ts, users := users);
    forall c | IsRefreshToken(a', c) ensures Covered(a', c) && IsRefreshToken(a, c) {
      assert IsRefreshToken(a, c);
    }
  }

  lemma {:induction false} RegisterKeepsInv(a: Auth, user: Uuid)
    requires Inv(a)
    ensures Inv(a.(users := a.users + {user}, known := a.known + {user}))
  {
    var a' := a.(users := a.users + {user}, known := a.known + {user});
    forall c | IsRefreshToken(a', c) ensures Covered(a', c) && IsRefreshToken(a, c) {
      assert IsRefreshToken(a, c);
    }
  }

  /** Whatever fails in a step, rows keep belonging to their tokens and outliving them. */
  lemma {:induction false} NextKeepsInv(cfg: Config, a: Auth, s: Step, before: Time)
    requires Inv(a) && Legal(a, s, before)
    ensures Inv(Next(cfg, a, s))
  {
    match s
    case DoRegister(user, jti, t, storeFails) =>
      RegisterKeepsInv(a, user);
      IssueKeepsInv(cfg, a.(users := a.users + {user}, known := a.known + {user}), user, jti, t, storeFails);
    case DoLogin(user, verified, jti, t, storeFails) =>
      if user in a.users {
        IssueKeepsInv(cfg, a, user, jti, t, storeFails);
      }
    case DoRefresh(c, jti, t, f) =>
      if CheckRefresh(a, c, t.check, f.check) == Ok {
        var ts := if f.revoke || c.jti == "" then a.tokens else Revoked(a.tokens, c.jti);
        FewerRowsKeepInv(a, ts, a.users);
        IssueKeepsInv(cfg, a.(tokens := ts), c.user, jti, t, f.store);
      }
    case DoDelete(user, verified, revokeFails, deleteFails, now) =>
      FewerRowsKeepInv(a, Next(cfg, a, s).tokens, Next(cfg, a, s).users);
    case DoPurge(now) =>
      FewerRowsKeepInv(a, Purged(a.tokens, now), a.users);
  }

  lemma {:induction false} RunKeepsInv(cfg: Config, steps: seq<Step>, start: Time)
    requires IsRun(cfg, steps, start)
    ensures Inv(Run(cfg, steps))
  {
    if steps != [] {
      var n := |steps| - 1;
      RunPrefix(cfg, steps, start);
      RunKeepsInv(cfg, steps[..n], start);
      NextKeepsInv(cfg, Run(cfg, steps[..n]), steps[n], Now(steps[..n], start));
    }
  }

  lemma {:induction false} RunPrefix(cfg: Config, steps: seq<Step>, start: Time)
    requires IsRun(cfg, steps, start) && steps != []
    ensures IsRun(cfg, steps[..|steps|-1], start)
    ensures var n := |steps| - 1; Legal(Run(cfg, steps[..n]), steps[n], Now(steps[..n], start))
  {
    var before := steps[..|steps|-1];
    forall i | 0 <= i < |before| ensures Legal(Run(cfg, before[..i]), before[i], Now(before[..i], start)) {
      assert before[..i] == steps[..i];
    }
  }

  // ------------------------------------------------------------- when a token is accepted

  /** The token is still of use: its user exists and it has not expired. */
  predicate Live(a: Auth, c: Claims, now: Time) {
    c.user in a.users && Unexpired(c, now)
  }

  /** The row of a token is there exactly when it was stored, revoked exactly when also
      asked for. */
  predicate RowShows(a: Auth, c: Claims, stored: bool, revoked: bool) {
    (c.jti in a.tokens <==> stored) && (IsRevoked(a.tokens, c.jti) <==> stored && revoked)
  }

  lemma {:induction false} LiveBefore(cfg: Config, a: Auth, s: Step, before: Time, c: Claims)
    requires Inv(a) && Legal(a, s, before)
    requires IsRefreshToken(a, c) && Live(Next(cfg, a, s), c, End(s))
    ensures Live(a, c, before) && !Issues(a, s, c.jti)
  {
    assert Covered(a, c);
  }

  /** A step revokes the row of a live token exactly when it asks for that, and removes no
      such row. */
  lemma {:induction false} StepShows(
    cfg: Config, a: Auth, s: Step, before: Time, c: Claims, stored: bool, revoked: bool)
    requires Inv(a) && Legal(a, s, before)
    requires IsRefreshToken(a, c) && Live(Next(cfg, a, s), c, End(s)) && RowShows(a, c, stored, revoked)
    ensures RowShows(Next(cfg, a, s), c, stored, revoked || Revokes(a, s, c))
  {
    assert Covered(a, c);
    if s.DoRefresh? && CheckRefresh(a, s.token, s.clock.check, s.faults.check) == Ok {
      assert IsRefreshToken(a, s.token);
    }
  }

  /** A token handed out by the step has an unrevoked row unless storing it failed. */
  lemma {:induction false} NewTokenShows(cfg: Config, a: Auth, s: Step, before: Time, c: Claims)
    requires Legal(a, s, before) && c !in a.issued
    requires IsRefreshToken(Next(cfg, a, s), c) && Live(Next(cfg, a, s), c, End(s))
    ensures Issues(a, s, c.jti) && RowShows(Next(cfg, a, s), c, !StoreFails(s), false)
  {
  }

  lemma {:induction false} StoredIsIssued(cfg: Config, steps: seq<Step>, jti: string) returns (c: Claims)
    requires WasStored(cfg, steps, jti)
    ensures IsRefreshToken(Run(cfg, steps), c) && c.jti == jti
  {
    var n := |steps| - 1;
    if WasStored(cfg, steps[..n], jti) {
      c := StoredIsIssued(cfg, steps[..n], jti);
    } else {
      var s := steps[n];
      c := NewRefresh(cfg, if s.DoRefresh? then s.token.user else s.user, jti, s.clock.sign);
    }
  }

  lemma {:induction false} RevokedIsIssued(cfg: Config, steps: seq<Step>, c: Claims)
    requires WasRevoked(cfg, steps, c)
    ensures c in Run(cfg, steps).issued
  {
    var n := |steps| - 1;
    if WasRevoked(cfg, steps[..n], c) {
      RevokedIsIssued(cfg, steps[..n], c);
    }
  }

  /** The row of every live token tells the token's own history. */
  lemma {:induction false} RowIsItsHistory(cfg: Config, steps: seq<Step>, start: Time, c: Claims)
    requires IsRun(cfg, steps, start)
    requires IsRefreshToken(Run(cfg, steps), c) && Live(Run(cfg, steps), c, Now(steps, start))
    ensures RowShows(Run(cfg, steps), c, WasStored(cfg, steps, c.jti), WasRevoked(cfg, steps, c))
  {
    var n := |steps| - 1;
    var a, s, before := Run(cfg, steps[..n]), steps[n], Now(steps[..n], start);
    RunPrefix(cfg, steps, start);
    if c in a.issued {
      RunKeepsInv(cfg, steps[..n], start);
      LiveBefore(cfg, a, s, before, c);
      RowIsItsHistory(cfg, steps[..n], start, c);
      StepShows(cfg, a, s, before, c, WasStored(cfg, steps[..n], c.jti), WasRevoked(cfg, steps[..n], c));
    } else {
      NewTokenShows(cfg, a, s, before, c);
      if WasStored(cfg, steps[..n], c.jti) {
        var d := StoredIsIssued(cfg, steps[..n], c.jti);
        assert false;
      }
      if WasRevoked(cfg, steps[..n], c) {
        RevokedIsIssued(cfg, steps[..n], c);
      }
    }
  }

  /** After any run, whatever failed in it, a token is accepted exactly when its user exists,
      it has not expired, and its revocation cannot be seen: the check fails, its jti was
      never stored, or no step revoked it. */
  lemma {:induction false} AcceptedExactlyWhen(
    cfg: Config, steps: seq<Step>, start: Time, c: Claims, now: Time, checkFails: bool)
    requires IsRun(cfg, steps, start) && Now(steps, start) <= now
    ensures var a := Run(cfg, steps);
            CheckRefresh(a, c, now, checkFails) == Ok <==>
            && c in a.issued && c.kind == Refresh && c.user in a.users && now < c.exp * 1_000_000_000
            && (checkFails || !WasStored(cfg, steps, c.jti) || !WasRevoked(cfg, steps, c))
  {
    var a := Run(cfg, steps);
    RunKeepsInv(cfg, steps, start);
    if IsRefreshToken(a, c) && Live(a, c, now) {
      assert Covered(a, c);
      RowIsItsHistory(cfg, steps, start, c);
    }
  }

  /** A token that was just refreshed can be refreshed again exactly when it has not expired
      and the check fails, its row is missing, or the row's revocation failed. */
  lemma {:induction false} ReusableExactlyWhen(
    cfg: Config, a: Auth, c: Claims, jti: string, t: Clock, f: Faults, again: Time, checkFails: bool)
    requires CheckRefresh(a, c, t.check, f.check) == Ok && c.jti != "" && jti != c.jti
    ensures CheckRefresh(Rotate(cfg, a, c, jti, t, f), c, again, checkFails) == Ok <==>
            && Unexpired(c, again)
            && (checkFails || c.jti !in a.tokens || (f.revoke && !a.tokens[c.jti].revoked))
  {
  }

  // ----------------------------------------------------------------------- single use

  /** The token's revocation shows, or it is of no use any more. */
  predicate Spent(a: Auth, c: Claims, now: Time) {
    !Live(a, c, now) || IsRevoked(a.tokens, c.jti)
  }

  /** A token that can no longer be refreshed stays so under every step, purging, account
      deletion and failing statements included. */
  lemma {:induction false} SpentStays(cfg: Config, a: Auth, s: Step, c: Claims, before: Time)
    requires Inv(a) && Legal(a, s, before)
    requires IsRefreshToken(a, c) && Spent(a, c, before)
    ensures Spent(Next(cfg, a, s), c, End(s))
  {
    if Live(Next(cfg, a, s), c, End(s)) {
      LiveBefore(cfg, a, s, before, c);
      StepShows(cfg, a, s, before, c, true, true);
    }
  }

  /** A successful refresh with a working check and revocation spends a stored token. */
  lemma {:induction false} RefreshSpends(cfg: Config, a: Auth, s: Step, before: Time)
    requires Inv(a) && Legal(a, s, before) && s.DoRefresh?
    requires CheckRefresh(a, s.token, s.clock.check, s.faults.check) == Ok
    requires s.token.jti in a.tokens && !s.faults.check && !s.faults.revoke
    ensures !Spent(a, s.token, before)
    ensures Spent(Next(cfg, a, s), s.token, End(s)) && s.token in Next(cfg, a, s).issued
  {
    assert IsRefreshToken(a, s.token) && Covered(a, s.token);
  }

  /** Nothing fails for the token with this jti: it is stored when handed out, and checked and
      revoked when presented. Anything may fail for other tokens. */
  predicate Healthy(a: Auth, s: Step, jti: string) {
    && (Issues(a, s, jti) ==> !StoreFails(s))
    && (s.DoRefresh? && s.token.jti == jti ==> !s.faults.check && !s.faults.revoke)
  }

  predicate HealthyRun(cfg: Config, steps: seq<Step>, jti: string) {
    steps == [] ||
    var n := |steps| - 1;
    HealthyRun(cfg, steps[..n], jti) && Healthy(Run(cfg, steps[..n]), steps[n], jti)
  }

  lemma {:induction false} HealthyIsStored(cfg: Config, steps: seq<Step>, c: Claims)
    requires HealthyRun(cfg, steps, c.jti) && IsRefreshToken(Run(cfg, steps), c)
    ensures WasStored(cfg, steps, c.jti)
  {
    var n := |steps| - 1;
    if IsRefreshToken(Run(cfg, steps[..n]), c) {
      HealthyIsStored(cfg, steps[..n], c);
    }
  }

  ghost predicate UsedUp(a: Auth, jti: string, now: Time) {
    exists c :: IsRefreshToken(a, c) && c.jti == jti && Spent(a, c, now)
  }

  /** Refresh tokens are single-use: over every run, rotations, deletions and purges included,
      no token for which nothing failed is refreshed twice, whatever failed for others. */
  lemma {:induction false} SingleUse(cfg: Config, steps: seq<Step>, start: Time, jti: string)
    requires IsRun(cfg, steps, start) && HealthyRun(cfg, steps, jti)
    ensures Uses(cfg, steps, jti) <= 1
    ensures Uses(cfg, steps, jti) == 1 ==> UsedUp(Run(cfg, steps), jti, Now(steps, start))
  {
    if steps != [] {
      var n := |steps| - 1;
      var a, s, before := Run(cfg, steps[..n]), steps[n], Now(steps[..n], start);
      RunPrefix(cfg, steps, start);
      RunKeepsInv(cfg, steps[..n], start);
      SingleUse(cfg, steps[..n], start, jti);
      if Uses(cfg, steps[..n], jti) == 1 {
        var c :| IsRefreshToken(a, c) && c.jti == jti && Spent(a, c, before);
        SpentStays(cfg, a, s, c, before);
        assert IsRefreshToken(Next(cfg, a, s), c);
      }
      if Succeeds(a, s, jti) {
        assert IsRefreshToken(a, s.token);
        HealthyIsStored(cfg, steps[..n], s.token);
        RowIsItsHistory(cfg, steps[..n], start, s.token);
        RefreshSpends(cfg, a, s, before);
        assert IsRefreshToken(Next(cfg, a, s), s.token);
      }
    }
  }

  // --------------------------------------------------------------------------- purging

  function WithoutPurges(steps: seq<Step>): seq<Step> {
    if steps == [] then []
    else var n := |steps| - 1;
         WithoutPurges(steps[..n]) + if steps[n].DoPurge? then [] else [steps[n]]
  }

  /** Every row belongs to a signed token. */
  ghost predicate RowsAreSigned(a: Auth) {
    forall j :: j in a.tokens ==> exists c :: c in a.issued && c.jti == j
  }

  /** `full` never purged and `a` did: they differ in expired rows only. */
  ghost predicate PurgedFrom(full: Auth, a: Auth, now: Time) {
    && a == full.(tokens := a.tokens)
    && (forall j :: j in a.tokens ==> j in full.tokens && full.tokens[j] == a.tokens[j])
    && (forall j :: j in full.tokens && j !in a.tokens ==> full.tokens[j].expiresAt < now)
  }

  ghost predicate Simulates(full: Auth, a: Auth, now: Time) {
    Inv(full) && RowsAreSigned(full) && PurgedFrom(full, a, now)
  }

  /** A row gone by purging belonged to a token that has expired, so it is not missed. */
  lemma {:induction false} SameAnswer(full: Auth, a: Auth, c: Claims, before: Time, now: Time, checkFails: bool)
    requires Inv(full) && PurgedFrom(full, a, before) && before <= now
    ensures CheckRefresh(full, c, now, checkFails) == CheckRefresh(a, c, now, checkFails)
    ensures CheckRefresh(a, c, now, checkFails) == Ok && c.jti in full.tokens ==> c.jti in a.tokens
  {
    if IsRefreshToken(full, c) {
      assert Covered(full, c);
    }
  }

  lemma {:induction false} IssueKeepsSigned(
    cfg: Config, a: Auth, user: Uuid, jti: string, t: Clock, storeFails: bool)
    requires RowsAreSigned(a)
    ensures RowsAreSigned(Issue(cfg, a, user, jti, t, storeFails))
  {
    var a' := Issue(cfg, a, user, jti, t, storeFails);
    var new' := NewRefresh(cfg, user, jti, t.sign);
    assert new' in a'.issued;
    forall j | j in a'.tokens ensures exists c :: c in a'.issued && c.jti == j {
      if j in a.tokens {
        var c :| c in a.issued && c.jti == j;
        assert c in a'.issued;
      } else {
        assert new'.jti == j;
      }
    }
  }

  lemma {:induction false} IssueKeepsPurged(
    cfg: Config, full: Auth, a: Auth, user: Uuid, jti: string, t: Clock, storeFails: bool, before: Time)
    requires PurgedFrom(full, a, before) && before <= t.store && jti !in full.tokens
    ensures PurgedFrom(Issue(cfg, full, user, jti, t, storeFails), Issue(cfg, a, user, jti, t, storeFails), t.store)
  {
  }

  /** The jti a step hands out is new to the unpurged table as well. */
  lemma {:induction false} LegalWithAllRows(full: Auth, a: Auth, s: Step, before: Time)
    requires RowsAreSigned(full) && PurgedFrom(full, a, before) && Legal(a, s, before)
    ensures Legal(full, s, before)
  {
  }

  lemma {:induction false} NextKeepsSigned(cfg: Config, a: Auth, s: Step)
    requires RowsAreSigned(a)
    ensures RowsAreSigned(Next(cfg, a, s))
  {
    match s
    case DoRegister(user, jti, t, storeFails) =>
      IssueKeepsSigned(cfg, a.(users := a.users + {user}, known := a.known + {user}), user, jti, t, storeFails);
    case DoLogin(user, verified, jti, t, storeFails) =>
      IssueKeepsSigned(cfg, a, user, jti, t, storeFails);
    case DoRefresh(c, jti, t, f) =>
      IssueKeepsSigned(cfg, a, c.user, jti, t, f.store);
      IssueKeepsSigned(cfg, a.(tokens := Revoked(a.tokens, c.jti)), c.user, jti, t, f.store);
    case DoDelete(_, _, _, _, _) =>
    case DoPurge(_) =>
  }

  lemma {:induction false} NextKeepsPurged(cfg: Config, full: Auth, a: Auth, s: Step, before: Time)
    requires Inv(full) && PurgedFrom(full, a, before) && Legal(full, s, before) && !s.DoPurge?
    ensures PurgedFrom(Next(cfg, full, s), Next(cfg, a, s), End(s))
  {
    match s
    case DoRegister(user, jti, t, storeFails) =>
      IssueKeepsPurged(cfg, full.(users := full.users + {user}, known := full.known + {user}),
                       a.(users := a.users + {user}, known := a.known + {user}), user, jti, t, storeFails, before);
    case DoLogin(user, verified, jti, t, storeFails) =>
      IssueKeepsPurged(cfg, full, a, user, jti, t, storeFails, before);
    case DoRefresh(c, jti, t, f) =>
      SameAnswer(full, a, c, before, t.check, f.check);
      if CheckRefresh(full, c, t.check, f.check) == Ok {
        var ts := if f.revoke || c.jti == "" then full.tokens else Revoked(full.tokens, c.jti);
        var us := if f.revoke || c.jti == "" then a.tokens else Revoked(a.tokens, c.jti);
        IssueKeepsPurged(cfg, full.(tokens := ts), a.(tokens := us), c.user, jti, t, f.store, before);
      }
    case DoDelete(_, _, _, _, _) =>
  }

  lemma {:induction false} PurgeKeepsPurged(full: Auth, a: Auth, before: Time, now: Time)
    requires PurgedFrom(full, a, before) && before <= now
    ensures PurgedFrom(full, a.(tokens := Purged(a.tokens, now)), now)
  {
  }

  lemma {:induction false} RunSimulates(cfg: Config, steps: seq<Step>, start: Time)
    requires IsRun(cfg, steps, start)
    ensures Simulates(Run(cfg, WithoutPurges(steps)), Run(cfg, steps), Now(steps, start))
  {
    if steps != [] {
      var n := |steps| - 1;
      var a, s, before := Run(cfg, steps[..n]), steps[n], Now(steps[..n], start);
      var kept := WithoutPurges(steps[..n]);
      RunPrefix(cfg, steps, start);
      RunSimulates(cfg, steps[..n], start);
      var full := Run(cfg, kept);
      if s.DoPurge? {
        assert WithoutPurges(steps) == kept;
        PurgeKeepsPurged(full, a, before, s.now);
      } else {
        assert (kept + [s])[..|kept|] == kept;
        LegalWithAllRows(full, a, s, before);
        NextKeepsInv(cfg, full, s, before);
        NextKeepsSigned(cfg, full, s);
        NextKeepsPurged(cfg, full, a, s, before);
      }
    }
  }

  /** Purging never changes an answer: after any run, whatever failed in it, a presented
      token is answered as if no purge had ever taken place. */
  lemma {:induction false} PurgeNeverRevives(
    cfg: Config, steps: seq<Step>, start: Time, c: Claims, now: Time, checkFails: bool)
    requires IsRun(cfg, steps, start) && Now(steps, start) <= now
    ensures CheckRefresh(Run(cfg, steps), c, now, checkFails) ==
            CheckRefresh(Run(cfg, WithoutPurges(steps)), c, now, checkFails)
  {
    RunSimulates(cfg, steps, start);
    SameAnswer(Run(cfg, WithoutPurges(steps)), Run(cfg, steps), c, Now(steps, start), now, checkFails);
  }

  // ------------------------------------------------------------------ deleted accounts

  lemma {:induction false} OutsiderStaysOut(cfg: Config, a: Auth, s: Step, before: Time, user: Uuid)
    requires Legal(a, s, before) && user in a.known && user !in a.users
    ensures user in Next(cfg, a, s).known && user !in Next(cfg, a, s).users
  {
  }

  lemma {:induction false} OutsiderRun(cfg: Config, steps: seq<Step>, start: Time, n: nat, user: Uuid)
    requires IsRun(cfg, steps, start) && n <= |steps|
    requires user in Run(cfg, steps[..n]).known && user !in Run(cfg, steps[..n]).users
    ensures user in Run(cfg, steps).known && user !in Run(cfg, steps).users
    decreases |steps|
  {
    if n == |steps| {
      assert steps[..n] == steps;
    } else {
      var m := |steps| - 1;
      var before := steps[..m];
      RunPrefix(cfg, steps, start);
      assert before[..n] == steps[..n];
      OutsiderRun(cfg, before, start, n, user);
      OutsiderStaysOut(cfg, Run(cfg, before), steps[m], Now(before, start), user);
    }
  }

  /** After an account is deleted none of its tokens is ever refreshed again. */
  lemma {:induction false} DeletedUserStaysOut(
    cfg: Config, before: seq<Step>, s: Step, after: seq<Step>, start: Time, c: Claims, now: Time, checkFails: bool)
    requires IsRun(cfg, before + [s] + after, start)
    requires s.DoDelete? && s.verified && !s.deleteFails && s.user in Run(cfg, before).users && c.user == s.user
    ensures CheckRefresh(Run(cfg, before + [s] + after), c, now, checkFails) != Ok
  {
    var steps, n := before + [s] + after, |before| + 1;
    assert steps[..n] == before + [s] && (before + [s])[..|before|] == before;
    assert steps[..|before|] == before && steps[|before|] == s;
    RunPrefixes(cfg, steps, start, |before|);
    RunKeepsInv(cfg, before, start);
    OutsiderRun(cfg, steps, start, n, s.user);
  }

  lemma {:induction false} RunPrefixes(cfg: Config, steps: seq<Step>, start: Time, n: nat)
    requires IsRun(cfg, steps, start) && n <= |steps|
    ensures IsRun(cfg, steps[..n], start)
  {
    forall i | 0 <= i < n ensures Legal(Run(cfg, steps[..n][..i]), steps[..n][i], Now(steps[..n][..i], start)) {
      assert steps[..n][..i] == steps[..i];
    }
  }
}
