/**
  Refresh-token rotation of backend/auth/src/routes.rs under concurrent handlers: a login starts a
  chain, a refresh takes the presented token in one atomic step and issues the next one in a later
  step, a logout deletes the token it is given.
 */
module RefreshChains {
  import opened Basics
  import opened RedisKeys
  import opened CacheStore

  // A refresh handler that has taken a token and not yet issued the next one.
  datatype Rotation = Rotation(chain: nat, uid: string)

  // `chainOf` remembers the login behind every token ever issued, `userOf` who logged in.
  datatype World = World(tokens: Keyspace<string>, chainOf: map<string, nat>, userOf: map<nat, string>,
                         rotating: map<nat, Rotation>, consumed: seq<string>, now: nat)

  const START := World(map[], map[], map[], map[], [], 0)

  datatype Event =
    | Login(token: string, uid: string, chain: nat, now: nat)
    | Present(handler: nat, token: string, now: nat)
    | Issue(handler: nat, token: string, now: nat)
    | Abort(handler: nat, now: nat)             // user gone, database or Redis error
    | Logout(token: string, now: nat)

  /** Tokens are 32 fresh random bytes; chain and handler names are only labels. */
  predicate Possible(w: World, e: Event) {
    && w.now <= e.now
    && match e
       case Login(token, _, chain, _) => token !in w.chainOf && chain !in w.userOf
       case Present(handler, _, _) => handler !in w.rotating
       case Issue(handler, token, _) => handler in w.rotating && token !in w.chainOf
       case Abort(handler, _) => handler in w.rotating
       case Logout(_, _) => true
  }

  function Step(ttl: nat, w: World, e: Event): World
    requires Possible(w, e)
  {
    match e
    case Login(token, uid, chain, now) =>
      w.(tokens := w.tokens[token := SetEx(uid, now, ttl)], chainOf := w.chainOf[token := chain],
         userOf := w.userOf[chain := uid], now := now)
    case Present(handler, token, now) =>
      var (uid, tokens) := Take(w.tokens, token, now);
      if uid.None? || token !in w.chainOf then w.(now := now)
      else w.(tokens := tokens, rotating := w.rotating[handler := Rotation(w.chainOf[token], uid.value)],
              consumed := w.consumed + [token], now := now)
    case Issue(handler, token, now) =>
      var r := w.rotating[handler];
      w.(tokens := w.tokens[token := SetEx(r.uid, now, ttl)], chainOf := w.chainOf[token := r.chain],
         rotating := w.rotating - {handler}, now := now)
    case Abort(handler, now) => w.(rotating := w.rotating - {handler}, now := now)
    case Logout(token, now) => w.(tokens := w.tokens - {token}, now := now)
  }

  ghost predicate Valid(ttl: nat, w: World, events: seq<Event>)
    decreases |events|
  {
    events == [] || (Possible(w, events[0]) && Valid(ttl, Step(ttl, w, events[0]), events[1..]))
  }

  ghost function Run(ttl: nat, w: World, events: seq<Event>): World
    requires Valid(ttl, w, events)
    decreases |events|
  {
    if events == [] then w else Run(ttl, Step(ttl, w, events[0]), events[1..])
  }

  /** Tokens of a login that a refresh would still accept. */
  function LiveTokens(w: World, chain: nat): set<string> {
    set t | t in w.tokens && Fetch(w.tokens, t, w.now).Present? && t in w.chainOf && w.chainOf[t] == chain
  }

  function Rotations(w: World, chain: nat): set<nat> {
    set h | h in w.rotating && w.rotating[h].chain == chain
  }

  predicate Labelled(w: World) {
    && (forall t :: t in w.chainOf ==> w.chainOf[t] in w.userOf)
    && (forall t :: t in w.tokens ==>
          && t in w.chainOf && w.tokens[t].Present? && w.tokens[t].expireAt.Some?
          && w.tokens[t].value == w.userOf[w.chainOf[t]])
    && (forall h :: h in w.rotating ==>
          w.rotating[h].chain in w.userOf && w.rotating[h].uid == w.userOf[w.rotating[h].chain])
    && (forall t :: t in w.consumed ==> t in w.chainOf && t !in w.tokens)
    && NoRepeats(w.consumed)
  }

  predicate Linear(w: World)
    requires Labelled(w)
  {
    && (forall t, u :: t in w.tokens && u in w.tokens && w.chainOf[t] == w.chainOf[u] ==> t == u)
    && (forall h, k :: h in w.rotating && k in w.rotating && w.rotating[h].chain == w.rotating[k].chain ==> h == k)
    && (forall t, h :: t in w.tokens && h in w.rotating ==> w.chainOf[t] != w.rotating[h].chain)
  }

  predicate Sound(w: World) { Labelled(w) && Linear(w) }

  lemma StepLabelled(ttl: nat, w: World, e: Event)
    requires Sound(w) && Possible(w, e)
    ensures Labelled(Step(ttl, w, e))
  {
  }

  lemma StepOneToken(ttl: nat, w: World, e: Event, t: string, u: string)
    requires Sound(w) && Possible(w, e) && Labelled(Step(ttl, w, e))
    requires var w' := Step(ttl, w, e); t in w'.tokens && u in w'.tokens && w'.chainOf[t] == w'.chainOf[u]
    ensures t == u
  {
  }

  lemma StepOneRotation(ttl: nat, w: World, e: Event, h: nat, k: nat)
    requires Sound(w) && Possible(w, e)
    requires var w' := Step(ttl, w, e);
             h in w'.rotating && k in w'.rotating && w'.rotating[h].chain == w'.rotating[k].chain
    ensures h == k
  {
  }

  lemma StepTokenOrRotation(ttl: nat, w: World, e: Event, t: string, h: nat)
    requires Sound(w) && Possible(w, e) && Labelled(Step(ttl, w, e))
    requires var w' := Step(ttl, w, e); t in w'.tokens && h in w'.rotating
    ensures var w' := Step(ttl, w, e); w'.chainOf[t] != w'.rotating[h].chain
  {
  }

  lemma StepSound(ttl: nat, w: World, e: Event)
    requires Sound(w) && Possible(w, e)
    ensures Sound(Step(ttl, w, e))
  {
    StepLabelled(ttl, w, e);
    var w' := Step(ttl, w, e);
    forall t, u | t in w'.tokens && u in w'.tokens && w'.chainOf[t] == w'.chainOf[u] ensures t == u {
      StepOneToken(ttl, w, e, t, u);
    }
    forall h, k | h in w'.rotating && k in w'.rotating && w'.rotating[h].chain == w'.rotating[k].chain ensures h == k {
      StepOneRotation(ttl, w, e, h, k);
    }
    forall t, h | t in w'.tokens && h in w'.rotating ensures w'.chainOf[t] != w'.rotating[h].chain {
      StepTokenOrRotation(ttl, w, e, t, h);
    }
  }

  lemma {:induction false} RunSound(ttl: nat, w: World, events: seq<Event>)
    requires Sound(w) && Valid(ttl, w, events)
    ensures Sound(Run(ttl, w, events))
    decreases |events|
  {
    if events == [] {
    } else {
      StepSound(ttl, w, events[0]);
      RunSound(ttl, Step(ttl, w, events[0]), events[1..]);
    }
  }

  /**
    In every interleaving, handlers that fail midway included: each login has at most one live
    token or one rotation in flight, all its tokens belong to the user who logged in, and no token
    is ever consumed twice.
   */
  lemma ChainsAreLinear(ttl: nat, events: seq<Event>, chain: nat)
    requires Valid(ttl, START, events)
    ensures var w := Run(ttl, START, events);
            && |LiveTokens(w, chain)| + |Rotations(w, chain)| <= 1
            && (forall t :: t in LiveTokens(w, chain) ==> chain in w.userOf && w.tokens[t].value == w.userOf[chain])
            && NoRepeats(w.consumed)
  {
    RunSound(ttl, START, events);
    var w := Run(ttl, START, events);
    AtMostOneElement(LiveTokens(w, chain));
    AtMostOneElement(Rotations(w, chain));
    if LiveTokens(w, chain) != {} {
      assert Rotations(w, chain) == {};
    }
  }

  predicate Idle(w: World, chain: nat) {
    chain in w.userOf && LiveTokens(w, chain) == {} && Rotations(w, chain) == {}
  }

  lemma IdleStaysIdle(ttl: nat, w: World, e: Event, chain: nat)
    requires Sound(w) && Possible(w, e) && Idle(w, chain)
    ensures Idle(Step(ttl, w, e), chain)
  {
    if e.Issue? {
      assert e.handler !in Rotations(w, chain);
    } else if e.Present? {
      assert e.token !in LiveTokens(w, chain);
    }
    assert LiveTokens(Step(ttl, w, e), chain) <= LiveTokens(w, chain);
    assert Rotations(Step(ttl, w, e), chain) <= Rotations(w, chain);
  }

  lemma {:induction false} IdleForGood(ttl: nat, w: World, events: seq<Event>, chain: nat)
    requires Sound(w) && Valid(ttl, w, events) && Idle(w, chain)
    ensures LiveTokens(Run(ttl, w, events), chain) == {}
    decreases |events|
  {
    if events == [] {
    } else {
      StepSound(ttl, w, events[0]);
      IdleStaysIdle(ttl, w, events[0], chain);
      IdleForGood(ttl, Step(ttl, w, events[0]), events[1..], chain);
    }
  }

  // ---- what each handler does -----------------------------------------------------------------

  /** Whatever is said of sound states below is said of every reachable one. */
  lemma ReachableIsSound(ttl: nat, events: seq<Event>)
    requires Valid(ttl, START, events)
    ensures Sound(Run(ttl, START, events))
  {
    RunSound(ttl, START, events);
  }

  // The login an event is about.
  predicate IsAbout(w: World, e: Event, chain: nat)
    requires Possible(w, e)
  {
    match e
    case Login(_, _, c, _) => c == chain
    case Present(_, token, _) => token in w.chainOf && w.chainOf[token] == chain
    case Issue(handler, _, _) => w.rotating[handler].chain == chain
    case Abort(handler, _) => w.rotating[handler].chain == chain
    case Logout(token, _) => token in w.chainOf && w.chainOf[token] == chain
  }

  /** Nothing that happens to one login changes another's tokens. */
  lemma OtherTokensStay(ttl: nat, w: World, e: Event, chain: nat)
    requires Sound(w) && Possible(w, e) && !IsAbout(w, e, chain)
    ensures LiveTokens(Step(ttl, w, e), chain) == LiveTokens(w.(now := e.now), chain)
  {
    var w' := Step(ttl, w, e);
    forall t ensures t in LiveTokens(w', chain) <==> t in LiveTokens(w.(now := e.now), chain) {
    }
  }

  lemma OtherRotationsStay(ttl: nat, w: World, e: Event, chain: nat)
    requires Possible(w, e) && !IsAbout(w, e, chain)
    ensures Rotations(Step(ttl, w, e), chain) == Rotations(w, chain)
  {
    var w' := Step(ttl, w, e);
    forall h ensures h in Rotations(w', chain) <==> h in Rotations(w, chain) {
    }
  }

  /** An event leaves every other login its tokens, its rotation and its user. */
  lemma LoginsAreIndependent(ttl: nat, w: World, w': World, e: Event, chain: nat)
    requires Sound(w) && Possible(w, e) && w' == Step(ttl, w, e) && !IsAbout(w, e, chain)
    ensures LiveTokens(w', chain) == LiveTokens(w.(now := e.now), chain) && Rotations(w', chain) == Rotations(w, chain)
    ensures chain in w.userOf ==> chain in w'.userOf && w'.userOf[chain] == w.userOf[chain]
  {
    OtherTokensStay(ttl, w, e, chain);
    OtherRotationsStay(ttl, w, e, chain);
  }

  /** A live token is all its login has. */
  lemma LiveTokenIsAlone(w: World, token: string, now: nat)
    requires Sound(w) && Fetch(w.tokens, token, now).Present?
    ensures var chain := w.chainOf[token];
            LiveTokens(w.(now := now), chain) == {token} && Rotations(w, chain) == {}
  {
    var chain := w.chainOf[token];
    forall t ensures t in LiveTokens(w.(now := now), chain) <==> t == token {
    }
  }

  /** A login of positive lifetime has its first token, good for that lifetime, for the user who logged in. */
  lemma LoginGivesToken(ttl: nat, w: World, w': World, token: string, uid: string, chain: nat, now: nat)
    requires Sound(w) && Possible(w, Login(token, uid, chain, now))
    requires w' == Step(ttl, w, Login(token, uid, chain, now))
    ensures LiveTokens(w', chain) == (if 0 < ttl then {token} else {}) && Rotations(w', chain) == {}
    ensures token in w'.tokens && w'.tokens[token] == Slot.Present(uid, Some(now + ttl * 1000))
    ensures chain in w'.userOf && w'.userOf[chain] == uid
    ensures w'.consumed == w.consumed
  {
  }

  /**
    A refresh starts exactly when the presented token is live, for that token's login and user, and
    the token is then spent; any other token changes nothing.
   */
  lemma RefreshTakesLiveToken(ttl: nat, w: World, w': World, handler: nat, token: string, now: nat)
    requires Sound(w) && Possible(w, Event.Present(handler, token, now))
    requires w' == Step(ttl, w, Event.Present(handler, token, now))
    ensures handler in w'.rotating <==>
              && token in w.tokens && w.tokens[token].Present? && w.tokens[token].expireAt.Some?
              && now < w.tokens[token].expireAt.value
    ensures handler !in w'.rotating ==> w' == w.(now := now)
    ensures handler in w'.rotating ==>
              && token in w.chainOf
              && var chain := w.chainOf[token];
                 && chain in w.userOf && w'.rotating[handler] == Rotation(chain, w.userOf[chain])
                 && LiveTokens(w.(now := now), chain) == {token} && Rotations(w, chain) == {}
                 && LiveTokens(w', chain) == {} && Rotations(w', chain) == {handler}
                 && token !in w'.tokens && w'.consumed == w.consumed + [token]
  {
    if handler in w'.rotating {
      LiveTokenIsAlone(w, token, now);
      assert LiveTokens(w', w.chainOf[token]) <= LiveTokens(w.(now := now), w.chainOf[token]) - {token};
      assert Rotations(w', w.chainOf[token]) == {handler};
    }
  }

  /** The rotation ends with a token of the same login and user, good for the full lifetime from then. */
  lemma IssueContinuesChain(ttl: nat, w: World, w': World, handler: nat, token: string, now: nat)
    requires Sound(w) && Possible(w, Issue(handler, token, now))
    requires w' == Step(ttl, w, Issue(handler, token, now))
    ensures var chain := w.rotating[handler].chain;
            && chain in w.userOf && w'.userOf == w.userOf
            && LiveTokens(w', chain) == (if 0 < ttl then {token} else {}) && Rotations(w', chain) == {}
            && token in w'.tokens && w'.tokens[token] == Slot.Present(w.userOf[chain], Some(now + ttl * 1000))
            && w'.consumed == w.consumed
  {
    StepSound(ttl, w, Issue(handler, token, now));
  }

  /** A refresh that fails after taking the token leaves its login with nothing. */
  lemma AbortIdlesChain(ttl: nat, w: World, w': World, handler: nat, now: nat)
    requires Sound(w) && Possible(w, Abort(handler, now)) && w' == Step(ttl, w, Abort(handler, now))
    ensures var chain := w.rotating[handler].chain;
            Idle(w', chain)
    ensures w'.tokens == w.tokens && w'.consumed == w.consumed
  {
    StepSound(ttl, w, Abort(handler, now));
  }

  /** No continuation ever gives the login a usable token again. */
  ghost predicate DeadForGood(ttl: nat, w: World, chain: nat) {
    forall events :: Valid(ttl, w, events) ==> LiveTokens(Run(ttl, w, events), chain) == {}
  }

  lemma Revives(ttl: nat, w: World, chain: nat, handler: nat)
    requires Sound(w) && 0 < ttl && handler in Rotations(w, chain)
    ensures !DeadForGood(ttl, w, chain)
  {
    var token := FreshString(w.chainOf.Keys);
    var e := Issue(handler, token, w.now);
    assert [e][0] == e && [e][1..] == [];
    assert Valid(ttl, Step(ttl, w, e), []);
    assert Valid(ttl, w, [e]);
    assert token in LiveTokens(Run(ttl, w, [e]), chain);
  }

  /**
    A logout ends the login for good exactly when no rotation of it is in flight and no live token
    other than the presented one exists. Presenting the current token is therefore enough, since a
    live token rules out a rotation in flight.
   */
  lemma LogoutEndsChain(ttl: nat, w: World, before: seq<Event>, token: string, now: nat)
    requires 0 < ttl && Valid(ttl, START, before) && w == Run(ttl, START, before)
    requires Possible(w, Logout(token, now)) && token in w.chainOf
    ensures var chain := w.chainOf[token];
            var w' := Step(ttl, w, Logout(token, now));
            && LiveTokens(w', chain) == LiveTokens(w.(now := now), chain) - {token}
            && (DeadForGood(ttl, w', chain) <==> Rotations(w, chain) == {} && LiveTokens(w', chain) == {})
            && (token in w.tokens ==> DeadForGood(ttl, w', chain))
  {
    RunSound(ttl, START, before);
    StepSound(ttl, w, Logout(token, now));
    var chain := w.chainOf[token];
    var w' := Step(ttl, w, Logout(token, now));
    assert Rotations(w', chain) == Rotations(w, chain);
    if Rotations(w, chain) != {} {
      var h :| h in Rotations(w, chain);
      Revives(ttl, w', chain, h);
    } else if LiveTokens(w', chain) != {} {
      assert Valid(ttl, w', []);
      assert Run(ttl, w', []) == w';
    } else {
      forall events | Valid(ttl, w', events) ensures LiveTokens(Run(ttl, w', events), chain) == {} {
        IdleForGood(ttl, w', events, chain);
      }
    }
  }
}
