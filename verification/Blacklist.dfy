/**
  Logged-out access tokens: the decision of backend/auth/src/middleware.rs over the blacklist that
  the logout handler of backend/auth/src/routes.rs writes, and token lifetimes of backend/auth/src/jwt.rs.
  Times are milliseconds; token times are Unix seconds.
 */
module Blacklist {
  import opened Basics
  import opened RedisKeys
  import CacheStore

  datatype AuthMode = Bearer | Cookie | Both

  // `leeway` is the JWT validator's clock allowance in seconds.
  datatype Config = Config(mode: AuthMode, jwtExpiry: nat, leeway: nat, failOpen: bool, prefix: string)

  // The claims of a token whose signature and issuer check out.
  datatype Token = Token(sub: string, jti: string, iat: nat, exp: nat)

  datatype AuthUser = AuthUser(userId: string, jti: string, sessionId: Option<string>)

  // `sessionUser` is what the session lookup yields; `csrfOk` is the outcome of the CSRF comparison.
  datatype Request = Request(publicPath: bool, bearer: Option<Token>, session: Option<string>,
                             sessionUser: Option<string>,
                             stateChanging: bool, csrfOk: bool)

  datatype Redis = NotConfigured | Down | Up(keys: Keyspace<string>)

  datatype Verdict = Forward(user: Option<AuthUser>) | Forbidden

  // ---- tokens and the decision ----------------------------------------------------------------

  function CreateToken(cfg: Config, userId: string, jti: string, now: nat): Token {
    Token(userId, jti, now / 1000, now / 1000 + cfg.jwtExpiry)
  }

  /** A token this service has issued at some time. */
  ghost predicate Minted(cfg: Config, token: Token) {
    exists now: nat :: token == CreateToken(cfg, token.sub, token.jti, now)
  }

  predicate ValidateToken(cfg: Config, token: Token, now: nat) { now / 1000 <= token.exp + cfg.leeway }

  function BlacklistKey(cfg: Config, jti: string): string { CacheStore.MakeKey(cfg.prefix, "blacklist", jti) }

  /** The stored JSON is a boolean; anything else reads as an error, like a failing Redis. */
  predicate Blocks(cfg: Config, redis: Redis, jti: string, now: nat) {
    match redis
    case NotConfigured => false
    case Down => !cfg.failOpen
    case Up(keys) =>
      var slot := Fetch(keys, BlacklistKey(cfg, jti), now);
      slot.Present? && slot.value != "false" && (slot.value == "true" || !cfg.failOpen)
  }

  /** Whom the request speaks for, before the blacklist: bearer first where allowed, cookies otherwise. */
  function Identify(cfg: Config, redis: Redis, req: Request, now: nat): Verdict {
    var bearer :=
      if req.bearer.Some? && ValidateToken(cfg, req.bearer.value, now) then
        Some(AuthUser(req.bearer.value.sub, req.bearer.value.jti, None))
      else None;
    if cfg.mode.Bearer? || (cfg.mode.Both? && bearer.Some?) then Forward(bearer)
    else if req.session.Some? && req.stateChanging && !req.csrfOk then Forbidden
    else if req.session.Some? && redis != NotConfigured && req.sessionUser.Some? then
      Forward(Some(AuthUser(req.sessionUser.value, "", req.session)))
    else Forward(None)
  }

  function Decide(service: Option<Config>, redis: Redis, req: Request, now: nat): Verdict {
    if req.publicPath || service.None? then Forward(None)
    else
      var who := Identify(service.value, redis, req, now);
      if who.Forward? && who.user.Some? && Blocks(service.value, redis, who.user.value.jti, now) then Forward(None)
      else who
  }

  /** The middleware as written, with its early returns. */
  method AuthMiddleware(service: Option<Config>, redis: Redis, req: Request, now: nat) returns (v: Verdict)
    ensures v == Decide(service, redis, req, now)
  {
    if req.publicPath {
      return Forward(None);
    }
    if service.None? {
      return Forward(None);
    }
    var cfg := service.value;
    var bearerUser: Option<AuthUser> := None;
    if req.bearer.Some? && ValidateToken(cfg, req.bearer.value, now) {
      bearerUser := Some(AuthUser(req.bearer.value.sub, req.bearer.value.jti, None));
    }
    var authUser := bearerUser;
    if cfg.mode.Cookie? || (cfg.mode.Both? && bearerUser.None?) {
      if req.session.Some? && req.stateChanging && !req.csrfOk {
        return Forbidden;
      }
      if req.session.None? || redis.NotConfigured? {
        return Forward(None);
      }
      if req.sessionUser.None? {
        return Forward(None);
      }
      authUser := Some(AuthUser(req.sessionUser.value, "", req.session));
    }
    if authUser.Some? && !redis.NotConfigured? {
      var isBlacklisted: Option<bool> := None;
      if redis.Up? {
        var slot := Fetch(redis.keys, BlacklistKey(cfg, authUser.value.jti), now);
        if slot == Absent {
          isBlacklisted := Some(false);
        } else if slot.value == "true" || slot.value == "false" {
          isBlacklisted := Some(slot.value == "true");
        }
      }
      if isBlacklisted == Some(true) {
        return Forward(None);
      }
      if isBlacklisted == None && !cfg.failOpen {
        return Forward(None);
      }
    }
    v := Forward(authUser);
  }

  // ---- whom the middleware lets in ------------------------------------------------------------

  /** A signed token that has not run out; the validator grants the leeway in whole seconds. */
  predicate GoodBearer(cfg: Config, req: Request, now: nat) {
    req.bearer.Some? && now < (req.bearer.value.exp + cfg.leeway + 1) * 1000
  }

  /** Cookies are looked at in cookie mode, and in both-mode without a good bearer token. */
  predicate ByCookie(cfg: Config, req: Request, now: nat) {
    cfg.mode == Cookie || (cfg.mode == Both && !GoodBearer(cfg, req, now))
  }

  /** Forbidden is the answer to state-changing cookie requests that fail CSRF, and to nothing else. */
  lemma ForbiddenExactly(service: Option<Config>, redis: Redis, req: Request, now: nat)
    ensures Decide(service, redis, req, now) == Forbidden <==>
              && !req.publicPath && service.Some? && ByCookie(service.value, req, now)
              && req.session.Some? && req.stateChanging && !req.csrfOk
  {
  }

  /** The token's subject and id get in with a good bearer token, where bearer tokens are looked at. */
  lemma BearerUserExactly(cfg: Config, redis: Redis, req: Request, now: nat, user: AuthUser)
    requires user.sessionId.None?
    ensures Decide(Some(cfg), redis, req, now) == Forward(Some(user)) <==>
              && !req.publicPath && cfg.mode != Cookie && GoodBearer(cfg, req, now)
              && user.userId == req.bearer.value.sub && user.jti == req.bearer.value.jti
              && !Blocks(cfg, redis, user.jti, now)
  {
  }

  /**
    Otherwise the user of the session gets in, under that session's id and an empty token id, unless
    Redis is not configured or the CSRF check fails.
   */
  lemma CookieUserExactly(cfg: Config, redis: Redis, req: Request, now: nat, user: AuthUser)
    requires user.sessionId.Some?
    ensures Decide(Some(cfg), redis, req, now) == Forward(Some(user)) <==>
              && !req.publicPath && ByCookie(cfg, req, now)
              && req.session == user.sessionId && req.sessionUser == Some(user.userId) && user.jti == ""
              && (req.stateChanging ==> req.csrfOk) && !redis.NotConfigured?
              && !Blocks(cfg, redis, "", now)
  {
  }

  /**
    What blocks a token id: a live entry saying true, or, failing closed, a Redis that does not
    answer or answers with something else than a boolean.
   */
  lemma BlocksExactly(cfg: Config, redis: Redis, jti: string, now: nat)
    ensures redis.NotConfigured? ==> !Blocks(cfg, redis, jti, now)
    ensures redis.Down? ==> (Blocks(cfg, redis, jti, now) <==> !cfg.failOpen)
    ensures redis.Up? ==>
              var key := cfg.prefix + ":" + "blacklist" + ":" + jti;
              var live := key in redis.keys && Alive(redis.keys[key], now);
              && (!live ==> !Blocks(cfg, redis, jti, now))
              && (live && redis.keys[key].value == "true" ==> Blocks(cfg, redis, jti, now))
              && (live && redis.keys[key].value == "false" ==> !Blocks(cfg, redis, jti, now))
              && (live && redis.keys[key].value != "true" && redis.keys[key].value != "false" ==>
                    (Blocks(cfg, redis, jti, now) <==> !cfg.failOpen))
  {
  }

  /** Public paths, and every path without an auth service, are forwarded without a user. */
  lemma PublicIsAnonymous(service: Option<Config>, redis: Redis, req: Request, now: nat)
    requires req.publicPath || service.None?
    ensures Decide(service, redis, req, now) == Forward(None)
  {
  }

  // ---- the key space over time ----------------------------------------------------------------

  // A logout (or account deletion) that got past its blacklist write, and any write or deletion
  // in another namespace.
  datatype Event = LogoutOk(jti: string, at: nat) | Other(namespace: string, key: string, slot: Slot<string>, at: nat)

  datatype Store = Store(clock: nat, keys: Keyspace<string>)

  predicate Possible(s: Store, e: Event) {
    s.clock <= e.at && (e.Other? ==> e.namespace != "blacklist" && ':' !in e.namespace)
  }

  function Step(cfg: Config, s: Store, e: Event): Store {
    match e
    case LogoutOk(jti, at) => Store(at, s.keys[BlacklistKey(cfg, jti) := SetEx("true", at, cfg.jwtExpiry)])
    case Other(ns, key, slot, at) =>
      var full := CacheStore.MakeKey(cfg.prefix, ns, key);
      Store(at, if slot.Absent? then s.keys - {full} else s.keys[full := slot])
  }

  ghost predicate Valid(cfg: Config, s: Store, events: seq<Event>)
    decreases |events|
  {
    events == [] || (Possible(s, events[0]) && Valid(cfg, Step(cfg, s, events[0]), events[1..]))
  }

  ghost function Run(cfg: Config, s: Store, events: seq<Event>): Store
    decreases |events|
  {
    if events == [] then s else Run(cfg, Step(cfg, s, events[0]), events[1..])
  }

  /**
    The handler's Redis steps: the refresh token goes first, then the access token is blacklisted.
    The first command that is not answered ends the handler with an error.
   */
  method Logout(redis: CacheStore.RedisClient, cfg: Config, user: AuthUser, refreshToken: Option<string>, now: nat,
                deletion: CacheStore.Link, listing: CacheStore.Link)
    returns (r: Result<(), CacheStore.CacheError>)
    requires redis.prefix == cfg.prefix
    modifies redis`keys
    ensures var given := refreshToken.Some? && refreshToken.value != "";
            var refreshed := if given && !deletion.Unreachable?
                             then old(redis.keys) - {CacheStore.MakeKey(cfg.prefix, "refresh", refreshToken.value)}
                             else old(redis.keys);
            && (r.Ok? <==> (given ==> deletion.Answered?) && listing.Answered? && 0 < cfg.jwtExpiry)
            && redis.keys ==
               if (given && !deletion.Answered?) || listing.Unreachable? || cfg.jwtExpiry == 0 then refreshed
               else Step(cfg, Store(now, refreshed), LogoutOk(user.jti, now)).keys
  {
    if refreshToken.Some? && refreshToken.value != "" {
      r := redis.CacheDelete("refresh", refreshToken.value, deletion);
      if r.Err? {
        return;
      }
    }
    r := redis.CacheSet("blacklist", user.jti, "true", cfg.jwtExpiry, now, listing);
  }

  // ---- entries last ---------------------------------------------------------------------------

  /** `jti` is blacklisted at least until `until`. */
  predicate Listed(cfg: Config, s: Store, jti: string, until: nat) {
    var key := BlacklistKey(cfg, jti);
    && key in s.keys && s.keys[key].Present? && s.keys[key].value == "true"
    && s.keys[key].expireAt.Some? && until <= s.keys[key].expireAt.value
  }

  lemma OtherKeysApart(cfg: Config, jti: string, e: Event)
    requires e.Other? && e.namespace != "blacklist" && ':' !in e.namespace
    ensures BlacklistKey(cfg, jti) != CacheStore.MakeKey(cfg.prefix, e.namespace, e.key)
  {
    if BlacklistKey(cfg, jti) == CacheStore.MakeKey(cfg.prefix, e.namespace, e.key) {
      CacheStore.MakeKeyInjective(cfg.prefix, "blacklist", jti, e.namespace, e.key);
    }
  }

  lemma LogoutKeysApart(cfg: Config, jti: string, other: string)
    requires jti != other
    ensures BlacklistKey(cfg, jti) != BlacklistKey(cfg, other)
  {
    if BlacklistKey(cfg, jti) == BlacklistKey(cfg, other) {
      CacheStore.MakeKeyInjective(cfg.prefix, "blacklist", jti, "blacklist", other);
    }
  }

  lemma {:induction false} EntryLasts(cfg: Config, s: Store, events: seq<Event>, jti: string, until: nat)
    requires Valid(cfg, s, events) && Listed(cfg, s, jti, until) && until <= s.clock + cfg.jwtExpiry * 1000
    ensures Listed(cfg, Run(cfg, s, events), jti, until)
    ensures s.clock <= Run(cfg, s, events).clock
    decreases |events|
  {
    if events == [] {
    } else {
      var e := events[0];
      if e.Other? {
        OtherKeysApart(cfg, jti, e);
      } else if e.jti != jti {
        LogoutKeysApart(cfg, jti, e.jti);
      }
      EntryLasts(cfg, Step(cfg, s, e), events[1..], jti, until);
    }
  }

  // ---- main results ---------------------------------------------------------------------------

  /** The request's bearer token is what it gets in with. */
  predicate LetsIn(cfg: Config, redis: Redis, req: Request, token: Token, now: nat) {
    Decide(Some(cfg), redis, req, now) == Forward(Some(AuthUser(token.sub, token.jti, None)))
  }

  function PlainBearer(token: Token): Request { Request(false, Some(token), None, None, false, false) }

  /** A later request with the token is let in, with Redis up or down. */
  predicate ComesBack(cfg: Config, s: Store, req: Request, token: Token, now: nat) {
    && s.clock <= now && req.bearer == Some(token)
    && (LetsIn(cfg, Down, req, token, now) || LetsIn(cfg, Up(s.keys), req, token, now))
  }

  /** That never happens, whatever happens to the store. */
  ghost predicate StaysOut(cfg: Config, s: Store, token: Token) {
    forall events: seq<Event>, req: Request, now: nat ::
      Valid(cfg, s, events) ==> !ComesBack(cfg, Run(cfg, s, events), req, token, now)
  }

  lemma LateLogoutHolds(cfg: Config, s: Store, token: Token, at: nat, events: seq<Event>, req: Request, now: nat)
    requires !cfg.failOpen && Minted(cfg, token)
    requires (token.iat + cfg.leeway + 1) * 1000 <= at
    requires s.clock == at && Listed(cfg, s, token.jti, at + cfg.jwtExpiry * 1000)
    requires Valid(cfg, s, events)
    ensures !ComesBack(cfg, Run(cfg, s, events), req, token, now)
  {
    EntryLasts(cfg, s, events, token.jti, at + cfg.jwtExpiry * 1000);
    if Run(cfg, s, events).clock <= now && ValidateToken(cfg, token, now) {
      assert now < at + cfg.jwtExpiry * 1000;
      assert Fetch(Run(cfg, s, events).keys, BlacklistKey(cfg, token.jti), now).Present?;
    }
  }

  lemma EarlyLogoutLapses(cfg: Config, s: Store, token: Token, at: nat)
    requires cfg.mode != Cookie && Minted(cfg, token)
    requires at < (token.iat + cfg.leeway + 1) * 1000
    ensures LetsIn(cfg, Up(Step(cfg, s, LogoutOk(token.jti, at)).keys), PlainBearer(token), token,
                   at + cfg.jwtExpiry * 1000)
  {
  }

  /**
    With fail-closed handling, a token logged out at `at` never lets anybody in again exactly when
    the logout came at least `leeway` plus one second after the second of issue; before that the
    blacklist entry lapses while the validator still accepts the token.
   */
  lemma LoggedOutStaysOut(cfg: Config, s: Store, token: Token, at: nat)
    requires !cfg.failOpen && cfg.mode != Cookie && s.clock <= at && Minted(cfg, token)
    ensures StaysOut(cfg, Step(cfg, s, LogoutOk(token.jti, at)), token) <==> (token.iat + cfg.leeway + 1) * 1000 <= at
  {
    var after := Step(cfg, s, LogoutOk(token.jti, at));
    if (token.iat + cfg.leeway + 1) * 1000 <= at {
      LateLogoutStaysOut(cfg, after, token, at);
    } else {
      EarlyLogoutComesBack(cfg, s, token, at);
    }
  }

  lemma LateLogoutStaysOut(cfg: Config, after: Store, token: Token, at: nat)
    requires !cfg.failOpen && Minted(cfg, token) && (token.iat + cfg.leeway + 1) * 1000 <= at
    requires after.clock == at && Listed(cfg, after, token.jti, at + cfg.jwtExpiry * 1000)
    ensures StaysOut(cfg, after, token)
  {
    forall events: seq<Event>, req: Request, now: nat
      | Valid(cfg, after, events)
      ensures !ComesBack(cfg, Run(cfg, after, events), req, token, now)
    {
      LateLogoutHolds(cfg, after, token, at, events, req, now);
    }
  }

  lemma EarlyLogoutComesBack(cfg: Config, s: Store, token: Token, at: nat)
    requires cfg.mode != Cookie && Minted(cfg, token) && at < (token.iat + cfg.leeway + 1) * 1000
    ensures !StaysOut(cfg, Step(cfg, s, LogoutOk(token.jti, at)), token)
  {
    var after, back := Step(cfg, s, LogoutOk(token.jti, at)), at + cfg.jwtExpiry * 1000;
    EarlyLogoutLapses(cfg, s, token, at);
    assert Valid(cfg, after, []) && Run(cfg, after, []) == after && after.clock <= back;
    assert ComesBack(cfg, Run(cfg, after, []), PlainBearer(token), token, back);
  }

  /** Failing open, an outage lets a logged-out token in for as long as the validator accepts it. */
  lemma FailOpenReadmits(cfg: Config, token: Token, now: nat)
    requires cfg.mode != Cookie
    ensures LetsIn(cfg, Down, PlainBearer(token), token, now) <==> cfg.failOpen && ValidateToken(cfg, token, now)
  {
  }

  /** Blacklisting a jti changes the outcome of a request exactly when that request goes by that jti. */
  lemma BlacklistIsolation(cfg: Config, s: Store, jti: string, at: nat, req: Request, now: nat)
    requires at <= now < at + cfg.jwtExpiry * 1000
    ensures var before := Decide(Some(cfg), Up(s.keys), req, now);
            var after := Decide(Some(cfg), Up(Step(cfg, s, LogoutOk(jti, at)).keys), req, now);
            after == if before.Forward? && before.user.Some? && before.user.value.jti == jti
                     then Forward(None) else before
  {
    var who := Identify(cfg, Up(s.keys), req, now);
    if who.Forward? && who.user.Some? && who.user.value.jti != jti {
      LogoutKeysApart(cfg, who.user.value.jti, jti);
    }
  }

  /** Cookie users share the empty jti: while one's logout is remembered, no session of anybody gets in. */
  lemma CookieLogoutBlocksEveryCookieUser(cfg: Config, s: Store, at: nat, events: seq<Event>, req: Request, now: nat)
    requires var after := Step(cfg, s, LogoutOk("", at));
             Valid(cfg, after, events) && Run(cfg, after, events).clock <= now < at + cfg.jwtExpiry * 1000
    requires req.bearer.None?
    ensures var v := Decide(Some(cfg), Up(Run(cfg, Step(cfg, s, LogoutOk("", at)), events).keys), req, now);
            v == Forward(None) || v == Forbidden
  {
    EntryLasts(cfg, Step(cfg, s, LogoutOk("", at)), events, "", at + cfg.jwtExpiry * 1000);
  }
}
