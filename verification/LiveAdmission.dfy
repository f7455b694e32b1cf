/**
  WebSocket admission of backend/api/src/live.rs: a semaphore for all connections, a count per
  user, and drop guards that give both back, under any interleaving of connections.
 */
module LiveAdmission {
  import opened Basics

  // ---- the shared state and its critical sections ---------------------------------------------

  // `active` is the global connection counter behind the metrics; the source's unsigned counter
  // would wrap where this one goes negative, and `AdmissionConserved` shows it never does.
  datatype Ws = Ws(available: nat, users: map<string, nat>, active: int)

  function CountOf(users: map<string, nat>, uid: string): nat { if uid in users then users[uid] else 0 }

  predicate HasRoom(users: map<string, nat>, uid: Option<string>, perUserMax: nat) {
    uid.None? || CountOf(users, uid.value) < perUserMax
  }

  /** The locked section of the admission: count the connection unless the user is full. */
  function Admitted(users: map<string, nat>, uid: Option<string>, perUserMax: nat): map<string, nat> {
    if uid.Some? && HasRoom(users, uid, perUserMax) then users[uid.value := CountOf(users, uid.value) + 1] else users
  }

  /** The per-user drop guard: saturating decrement, and no key left at zero. */
  function UserDropped(users: map<string, nat>, uid: Option<string>): map<string, nat> {
    if uid.None? || uid.value !in users then users
    else if users[uid.value] <= 1 then users - {uid.value}
    else users[uid.value := users[uid.value] - 1]
  }

  datatype Rejection =
    | OriginNotAllowed | InvalidToken | AuthenticationRequired | RedisDisabled | AtCapacity | TooManyForUser

  datatype Outcome = Permit(uid: Option<string>) | Reject(reason: Rejection)

  // What a request brings along: results of the token and cookie lookups are given.
  datatype Handshake = Handshake(origin: Option<string>, tokenGiven: bool, tokenUser: Option<string>,
                                 cookieUser: Option<string>)

  datatype Server = Server(allowedOrigin: Option<string>, authConfigured: bool, redisConfigured: bool, perUserMax: nat)

  /** The checks before the permit: the user to count, or why the handshake is refused. */
  function Authenticate(s: Server, h: Handshake): Outcome {
    if s.allowedOrigin.Some? && h.origin != s.allowedOrigin then Reject(OriginNotAllowed)
    else if s.authConfigured && h.tokenGiven && h.tokenUser.None? then Reject(InvalidToken)
    else
      var uid := if !s.authConfigured then None else if h.tokenGiven then h.tokenUser else h.cookieUser;
      if s.authConfigured && uid.None? then Reject(AuthenticationRequired)
      else if !s.redisConfigured then Reject(RedisDisabled)
      else Permit(uid)
  }

  /**
    Who gets in and as whom, and which rejection the others get: origin, token or cookie, Redis,
    capacity and the user's count are looked at in this order.
   */
  function Verdict(s: Server, w: Ws, h: Handshake): (r: Outcome)
    ensures r == Reject(OriginNotAllowed) <==> s.allowedOrigin.Some? && h.origin != s.allowedOrigin
    ensures s.allowedOrigin.None? || h.origin == s.allowedOrigin ==>
              var user := if h.tokenGiven then h.tokenUser else h.cookieUser;
              var count := if user.Some? && user.value in w.users then w.users[user.value] else 0;
              var known := !s.authConfigured || user.Some?;
              var room := !s.authConfigured || count < s.perUserMax;
              && (r.Permit? <==> known && s.redisConfigured && 0 < w.available && room)
              && (r.Permit? ==> r.uid == if s.authConfigured then user else None)
              && (r == Reject(InvalidToken) <==> !known && h.tokenGiven)
              && (r == Reject(AuthenticationRequired) <==> !known && !h.tokenGiven)
              && (r == Reject(RedisDisabled) <==> known && !s.redisConfigured)
              && (r == Reject(AtCapacity) <==> known && s.redisConfigured && w.available == 0)
              && (r == Reject(TooManyForUser) <==> known && s.redisConfigured && 0 < w.available && !room)
  {
    var a := Authenticate(s, h);
    if a.Reject? then a
    else if w.available == 0 then Reject(AtCapacity)
    else if !HasRoom(w.users, a.uid, s.perUserMax) then Reject(TooManyForUser)
    else a
  }

  class WebSocketState {
    const server: Server
    var available: nat
    var users: map<string, nat>
    var active: int

    constructor (server: Server, maxConnections: nat)
      ensures this.server == server && State() == Ws(maxConnections, map[], 0)
    {
      this.server := server;
      available, users, active := maxConnections, map[], 0;
    }

    function State(): Ws
      reads this
    {
      Ws(available, users, active)
    }

    /** A rejection leaves permits and counts as they were; a permit takes one of each. */
    method ValidateWsConnection(h: Handshake) returns (r: Outcome)
      modifies this`available, this`users
      ensures r == Verdict(server, old(State()), h)
      ensures r.Reject? ==> State() == old(State())
      ensures r.Permit? ==>
                available == old(available) - 1 && users == Admitted(old(users), r.uid, server.perUserMax)
    {
      if server.allowedOrigin.Some? && h.origin != server.allowedOrigin {
        return Reject(OriginNotAllowed);
      }
      var uid: Option<string> := None;
      if server.authConfigured {
        if h.tokenGiven {
          if h.tokenUser.None? {
            return Reject(InvalidToken);
          }
          uid := h.tokenUser;
        } else {
          uid := h.cookieUser;
        }
      }
      if server.authConfigured && uid.None? {
        return Reject(AuthenticationRequired);
      }
      if !server.redisConfigured {
        return Reject(RedisDisabled);
      }
      if available == 0 {
        return Reject(AtCapacity);
      }
      available := available - 1;
      if uid.Some? {
        var current := CountOf(users, uid.value);
        if server.perUserMax <= current {
          available := available + 1;  // the permit is dropped on return
          return Reject(TooManyForUser);
        }
        users := users[uid.value := current + 1];
      }
      return Permit(uid);
    }

    method OpenSocket()
      modifies this`active
      ensures active == old(active) + 1
    {
      active := active + 1;
    }

    method DropUserGuard(uid: string)
      modifies this`users
      ensures users == UserDropped(old(users), Some(uid))
    {
      if uid in users {
        var count := if users[uid] == 0 then 0 else users[uid] - 1;
        users := users[uid := count];
        if count == 0 {
          users := users - {uid};
        }
        assert old(users)[uid := 0] - {uid} == old(users) - {uid};
      }
    }

    method DropCounterAndPermit()
      modifies this`active, this`available
      ensures active == old(active) - 1 && available == old(available) + 1
    {
      active := active - 1;
      available := available + 1;
    }
  }

  // ---- interleavings --------------------------------------------------------------------------

  // A connection holds its permit in every phase: between permit and lock, after a refusal by the
  // lock, between validation and upgrade, while its socket runs, and while its guards drop.
  datatype Phase = Holding | Refused | Pending | Active | UserReleased | CounterReleased

  datatype Conn = Conn(uid: Option<string>, phase: Phase)

  // `failed` counts upgrades that failed after validation, per user.
  datatype World = World(ws: Ws, conns: map<nat, Conn>, failed: map<string, nat>)

  datatype Event =
    | Acquire(c: nat, uid: Option<string>)
    | Admit(c: nat)
    | UpgradeFails(c: nat)
    | Open(c: nat)
    | DropUser(c: nat)
    | DropCounter(c: nat)
    | DropPermit(c: nat)

  predicate InPhase(w: World, c: nat, phase: Phase) { c in w.conns && w.conns[c].phase == phase }

  predicate Possible(w: World, e: Event) {
    match e
    case Acquire(c, _) => c !in w.conns && 0 < w.ws.available
    case Admit(c) => InPhase(w, c, Holding)
    case UpgradeFails(c) => InPhase(w, c, Pending)
    case Open(c) => InPhase(w, c, Pending)
    case DropUser(c) => InPhase(w, c, Active)
    case DropCounter(c) => InPhase(w, c, UserReleased)
    case DropPermit(c) => InPhase(w, c, Refused) || InPhase(w, c, CounterReleased)
  }

  function Step(perUserMax: nat, w: World, e: Event): World
    requires Possible(w, e)
  {
    match e
    case Acquire(c, uid) =>
      w.(ws := w.ws.(available := w.ws.available - 1), conns := w.conns[c := Conn(uid, Holding)])
    case Admit(c) =>
      var uid := w.conns[c].uid;
      w.(ws := w.ws.(users := Admitted(w.ws.users, uid, perUserMax)),
         conns := w.conns[c := Conn(uid, if HasRoom(w.ws.users, uid, perUserMax) then Pending else Refused)])
    case UpgradeFails(c) =>
      var uid := w.conns[c].uid;
      w.(ws := w.ws.(available := w.ws.available + 1), conns := w.conns - {c},
         failed := if uid.Some? then w.failed[uid.value := CountOf(w.failed, uid.value) + 1] else w.failed)
    case Open(c) =>
      w.(ws := w.ws.(active := w.ws.active + 1), conns := w.conns[c := w.conns[c].(phase := Active)])
    case DropUser(c) =>
      w.(ws := w.ws.(users := UserDropped(w.ws.users, w.conns[c].uid)),
         conns := w.conns[c := w.conns[c].(phase := UserReleased)])
    case DropCounter(c) =>
      w.(ws := w.ws.(active := w.ws.active - 1), conns := w.conns[c := w.conns[c].(phase := CounterReleased)])
    case DropPermit(c) =>
      w.(ws := w.ws.(available := w.ws.available + 1), conns := w.conns - {c})
  }

  ghost predicate Valid(perUserMax: nat, w: World, events: seq<Event>)
    decreases |events|
  {
    events == [] || (Possible(w, events[0]) && Valid(perUserMax, Step(perUserMax, w, events[0]), events[1..]))
  }

  ghost function Run(perUserMax: nat, w: World, events: seq<Event>): World
    requires Valid(perUserMax, w, events)
    decreases |events|
  {
    if events == [] then w else Run(perUserMax, Step(perUserMax, w, events[0]), events[1..])
  }

  predicate IsCounted(w: World, c: nat, uid: string) {
    c in w.conns && w.conns[c].uid == Some(uid) && (w.conns[c].phase.Pending? || w.conns[c].phase.Active?)
  }

  predicate IsRunning(w: World, c: nat) {
    c in w.conns && (w.conns[c].phase.Active? || w.conns[c].phase.UserReleased?)
  }

  /** A user's validated connections: waiting for the upgrade or running. */
  function Counted(w: World, uid: string): set<nat> { set c | c in w.conns && IsCounted(w, c, uid) }

  /** Connections that have incremented the global counter and not yet given it back. */
  function Running(w: World): set<nat> { set c | c in w.conns && IsRunning(w, c) }

  // ---- what every step keeps ------------------------------------------------------------------

  ghost predicate UserConserved(w: World, uid: string) {
    CountOf(w.ws.users, uid) == |Counted(w, uid)| + CountOf(w.failed, uid)
  }

  ghost predicate Conserved(maxConnections: nat, perUserMax: nat, w: World) {
    && w.ws.available + |w.conns| == maxConnections
    && w.ws.active == |Running(w)|
    && (forall uid :: UserConserved(w, uid))
    && (forall uid :: uid in w.ws.users ==> 1 <= w.ws.users[uid] <= perUserMax)
  }

  function Weight(b: bool): nat { if b then 1 else 0 }

  predicate AgreeOff(w: World, w': World, c: nat) { w.conns - {c} == w'.conns - {c} }

  lemma CardinalityOffOne(a: set<nat>, b: set<nat>, c: nat)
    requires a - {c} == b - {c}
    ensures |b| + Weight(c in a) == |a| + Weight(c in b)
  {
    assert a == (a - {c}) + (if c in a then {c} else {});
    assert b == (b - {c}) + (if c in b then {c} else {});
  }

  lemma SameOff(w: World, w': World, c: nat, d: nat)
    requires AgreeOff(w, w', c) && d != c
    ensures d in w.conns <==> d in w'.conns
    ensures d in w.conns ==> w.conns[d] == w'.conns[d]
  {
    assert d in w.conns <==> d in (w.conns - {c});
    assert d in w'.conns <==> d in (w'.conns - {c});
    if d in w.conns {
      assert (w.conns - {c})[d] == (w'.conns - {c})[d];
    }
  }

  lemma CountedChange(w: World, w': World, c: nat, uid: string)
    requires AgreeOff(w, w', c)
    ensures |Counted(w', uid)| + Weight(IsCounted(w, c, uid)) == |Counted(w, uid)| + Weight(IsCounted(w', c, uid))
  {
    forall d | d != c ensures d in Counted(w, uid) <==> d in Counted(w', uid) { SameOff(w, w', c, d); }
    CardinalityOffOne(Counted(w, uid), Counted(w', uid), c);
  }

  lemma RunningChange(w: World, w': World, c: nat)
    requires AgreeOff(w, w', c)
    ensures |Running(w')| + Weight(IsRunning(w, c)) == |Running(w)| + Weight(IsRunning(w', c))
  {
    forall d | d != c ensures d in Running(w) <==> d in Running(w') { SameOff(w, w', c, d); }
    CardinalityOffOne(Running(w), Running(w'), c);
  }

  lemma ConnectionsChange(w: World, w': World, c: nat)
    requires AgreeOff(w, w', c)
    ensures |w'.conns| + Weight(c in w.conns) == |w.conns| + Weight(c in w'.conns)
  {
    forall d | d != c ensures d in w.conns.Keys <==> d in w'.conns.Keys { SameOff(w, w', c, d); }
    CardinalityOffOne(w.conns.Keys, w'.conns.Keys, c);
  }

  /** A running connection keeps the counter above zero, so its decrement never wraps. */
  lemma CounterCoversRunning(w: World, c: nat)
    requires w.ws.active == |Running(w)| && IsRunning(w, c)
    ensures 0 < w.ws.active
  {
    assert c in Running(w);
  }

  /** A counted connection keeps its user's entry above zero, so the saturating decrement is exact. */
  lemma EntryCoversCounted(w: World, c: nat, uid: string)
    requires UserConserved(w, uid) && IsCounted(w, c, uid)
    ensures uid in w.ws.users && CountOf(w.failed, uid) < w.ws.users[uid]
  {
    assert c in Counted(w, uid);
  }

  lemma StepConservesUser(maxConnections: nat, perUserMax: nat, w: World, e: Event, uid: string)
    requires Conserved(maxConnections, perUserMax, w) && Possible(w, e)
    ensures UserConserved(Step(perUserMax, w, e), uid)
  {
    var w' := Step(perUserMax, w, e);
    assert UserConserved(w, uid);
    StepIsLocal(perUserMax, w, e);
    CountedChange(w, w', e.c, uid);
    if IsCounted(w, e.c, uid) {
      EntryCoversCounted(w, e.c, uid);
    }
  }

  /** A step touches one connection only. */
  lemma StepIsLocal(perUserMax: nat, w: World, e: Event)
    requires Possible(w, e)
    ensures AgreeOff(w, Step(perUserMax, w, e), e.c)
  {
  }

  lemma StepConservesPermits(perUserMax: nat, w: World, e: Event)
    requires Possible(w, e)
    ensures Step(perUserMax, w, e).ws.available + |Step(perUserMax, w, e).conns| == w.ws.available + |w.conns|
  {
    var w' := Step(perUserMax, w, e);
    StepIsLocal(perUserMax, w, e);
    ConnectionsChange(w, w', e.c);
    assert w'.ws.available + Weight(e.c in w'.conns) == w.ws.available + Weight(e.c in w.conns);
  }

  lemma StepConservesCounter(perUserMax: nat, w: World, e: Event)
    requires Possible(w, e) && w.ws.active == |Running(w)|
    ensures Step(perUserMax, w, e).ws.active == |Running(Step(perUserMax, w, e))|
  {
    var w' := Step(perUserMax, w, e);
    StepIsLocal(perUserMax, w, e);
    RunningChange(w, w', e.c);
    assert w'.ws.active + Weight(IsRunning(w, e.c)) == w.ws.active + Weight(IsRunning(w', e.c));
  }

  lemma StepConserves(maxConnections: nat, perUserMax: nat, w: World, e: Event)
    requires Conserved(maxConnections, perUserMax, w) && Possible(w, e)
    ensures Conserved(maxConnections, perUserMax, Step(perUserMax, w, e))
  {
    StepConservesPermits(perUserMax, w, e);
    StepConservesCounter(perUserMax, w, e);
    forall uid ensures UserConserved(Step(perUserMax, w, e), uid) {
      StepConservesUser(maxConnections, perUserMax, w, e, uid);
    }
  }

  lemma {:induction false} RunConserves(maxConnections: nat, perUserMax: nat, w: World, events: seq<Event>)
    requires Conserved(maxConnections, perUserMax, w) && Valid(perUserMax, w, events)
    ensures Conserved(maxConnections, perUserMax, Run(perUserMax, w, events))
    decreases |events|
  {
    if events == [] {
    } else {
      StepConserves(maxConnections, perUserMax, w, events[0]);
      RunConserves(maxConnections, perUserMax, Step(perUserMax, w, events[0]), events[1..]);
    }
  }

  // ---- main results ---------------------------------------------------------------------------

  function Start(maxConnections: nat): World { World(Ws(maxConnections, map[], 0), map[], map[]) }

  lemma StartConserved(maxConnections: nat, perUserMax: nat)
    ensures Conserved(maxConnections, perUserMax, Start(maxConnections))
  {
    var w := Start(maxConnections);
    assert Running(w) == {};
    forall uid ensures UserConserved(w, uid) {
      assert Counted(w, uid) == {};
    }
  }

  /**
    After any interleaving: permits handed out are exactly the connections holding one, the global
    counter is exactly the running sockets, a user's count covers the validated connections and stays
    within the maximum, the two agree exactly while no upgrade of that user has failed, and no entry is zero.
   */
  lemma AdmissionConserved(maxConnections: nat, perUserMax: nat, events: seq<Event>, w: World)
    requires Valid(perUserMax, Start(maxConnections), events) && w == Run(perUserMax, Start(maxConnections), events)
    ensures w.ws.available + |w.conns| == maxConnections && |w.conns| <= maxConnections
    ensures w.ws.active == |Running(w)| <= |w.conns|
    ensures forall uid :: |Counted(w, uid)| <= CountOf(w.ws.users, uid) <= perUserMax
    ensures forall uid :: |Counted(w, uid)| == CountOf(w.ws.users, uid) <==> CountOf(w.failed, uid) == 0
    ensures forall uid :: uid in w.ws.users ==> 0 < w.ws.users[uid]
  {
    StartConserved(maxConnections, perUserMax);
    RunConserves(maxConnections, perUserMax, Start(maxConnections), events);
    assert Running(w) <= w.conns.Keys;
    SubsetCardinality(Running(w), w.conns.Keys);
    forall uid
      ensures |Counted(w, uid)| <= CountOf(w.ws.users, uid) <= perUserMax
      ensures |Counted(w, uid)| == CountOf(w.ws.users, uid) <==> CountOf(w.failed, uid) == 0
    {
      assert UserConserved(w, uid);
    }
  }

  /** Both decrements are exact: the counter is positive and the entry present whenever a guard drops. */
  lemma GuardsDecrementExactly(maxConnections: nat, perUserMax: nat, events: seq<Event>, w: World, e: Event)
    requires Valid(perUserMax, Start(maxConnections), events) && w == Run(perUserMax, Start(maxConnections), events)
    requires Possible(w, e)
    ensures e.DropCounter? ==> 0 < w.ws.active
    ensures e.DropUser? && w.conns[e.c].uid.Some? ==>
              var uid := w.conns[e.c].uid.value;
              uid in w.ws.users && CountOf(UserDropped(w.ws.users, Some(uid)), uid) + 1 == w.ws.users[uid]
  {
    StartConserved(maxConnections, perUserMax);
    RunConserves(maxConnections, perUserMax, Start(maxConnections), events);
    if e.DropCounter? {
      CounterCoversRunning(w, e.c);
    }
    if e.DropUser? && w.conns[e.c].uid.Some? {
      EntryCoversCounted(w, e.c, w.conns[e.c].uid.value);
    }
  }

  /** A user is admitted exactly when validated connections plus failed upgrades are below the maximum. */
  lemma AdmittedExactlyBelowMaximum(maxConnections: nat, perUserMax: nat, events: seq<Event>, w: World, c: nat,
                                    uid: string)
    requires Valid(perUserMax, Start(maxConnections), events) && w == Run(perUserMax, Start(maxConnections), events)
    requires InPhase(w, c, Holding) && w.conns[c].uid == Some(uid)
    ensures InPhase(Step(perUserMax, w, Admit(c)), c, Pending) <==>
              |Counted(w, uid)| + CountOf(w.failed, uid) < perUserMax
    ensures !InPhase(Step(perUserMax, w, Admit(c)), c, Pending) ==> Step(perUserMax, w, Admit(c)).ws == w.ws
  {
    StartConserved(maxConnections, perUserMax);
    RunConserves(maxConnections, perUserMax, Start(maxConnections), events);
    assert UserConserved(w, uid);
  }

  /** With every connection gone, all permits are back and each count is the number of failed upgrades. */
  lemma QuiescentServer(maxConnections: nat, perUserMax: nat, events: seq<Event>, w: World, uid: string)
    requires Valid(perUserMax, Start(maxConnections), events) && w == Run(perUserMax, Start(maxConnections), events)
    requires w.conns == map[]
    ensures w.ws.available == maxConnections && w.ws.active == 0
    ensures CountOf(w.ws.users, uid) == CountOf(w.failed, uid)
  {
    AdmissionConserved(maxConnections, perUserMax, events, w);
    StartConserved(maxConnections, perUserMax);
    RunConserves(maxConnections, perUserMax, Start(maxConnections), events);
    assert UserConserved(w, uid);
    assert Counted(w, uid) == {};
  }

  /**
    The validated handshake of the source is these steps in a row: with room, a permit and a count
    are taken; without, the permit comes back and nothing has changed.
   */
  lemma HandshakeAsSteps(s: Server, w: World, c: nat, h: Handshake)
    requires c !in w.conns
    requires Verdict(s, w.ws, h).Permit? || Verdict(s, w.ws, h) == Reject(TooManyForUser)
    ensures var uid := if !s.authConfigured then None else if h.tokenGiven then h.tokenUser else h.cookieUser;
            && Valid(s.perUserMax, w, [Acquire(c, uid), Admit(c)])
            && var after := Run(s.perUserMax, w, [Acquire(c, uid), Admit(c)]);
               if Verdict(s, w.ws, h).Permit? then
                 && after.conns == w.conns[c := Conn(uid, Pending)]
                 && after.ws == Ws(w.ws.available - 1, Admitted(w.ws.users, uid, s.perUserMax), w.ws.active)
               else
                 Possible(after, DropPermit(c)) && Step(s.perUserMax, after, DropPermit(c)) == w
  {
    var uid := if !s.authConfigured then None else if h.tokenGiven then h.tokenUser else h.cookieUser;
    var perUserMax := s.perUserMax;
    var first := Step(perUserMax, w, Acquire(c, uid));
    var second := Step(perUserMax, first, Admit(c));
    assert [Acquire(c, uid), Admit(c)][1..] == [Admit(c)];
    assert [Admit(c)][1..] == [];
    assert Valid(perUserMax, second, []);
    assert Valid(perUserMax, first, [Admit(c)]);
    assert Run(perUserMax, first, [Admit(c)]) == second;
    assert second.conns - {c} == w.conns;
  }

  // ---- upgrades that fail keep their count ----------------------------------------------------

  lemma StepFailedGrows(perUserMax: nat, w: World, e: Event, uid: string)
    requires Possible(w, e)
    ensures CountOf(w.failed, uid) <= CountOf(Step(perUserMax, w, e).failed, uid)
  {
  }

  lemma {:induction false} RunFailedGrows(perUserMax: nat, w: World, events: seq<Event>, uid: string)
    requires Valid(perUserMax, w, events)
    ensures CountOf(w.failed, uid) <= CountOf(Run(perUserMax, w, events).failed, uid)
    decreases |events|
  {
    if events == [] {
    } else {
      StepFailedGrows(perUserMax, w, events[0], uid);
      RunFailedGrows(perUserMax, Step(perUserMax, w, events[0]), events[1..], uid);
    }
  }

  /** Once a user's failed upgrades fill the maximum, no continuation ever admits that user again. */
  lemma FailedUpgradesLockOut(maxConnections: nat, perUserMax: nat, w: World, events: seq<Event>, later: World,
                              uid: string)
    requires Conserved(maxConnections, perUserMax, w) && CountOf(w.failed, uid) == perUserMax
    requires Valid(perUserMax, w, events) && later == Run(perUserMax, w, events)
    ensures Counted(later, uid) == {} && !HasRoom(later.ws.users, Some(uid), perUserMax)
  {
    RunConserves(maxConnections, perUserMax, w, events);
    RunFailedGrows(perUserMax, w, events, uid);
    assert UserConserved(later, uid);
  }

  /** A user whose first `n` validated upgrades all fail. */
  function FailingUpgrades(uid: string, n: nat): seq<Event> {
    if n == 0 then [] else [Acquire(0, Some(uid)), Admit(0), UpgradeFails(0)] + FailingUpgrades(uid, n - 1)
  }

  lemma {:induction false} FailingUpgradesFrom(perUserMax: nat, w: World, uid: string, n: nat)
    requires w.conns == map[] && 0 < w.ws.available && CountOf(w.ws.users, uid) + n <= perUserMax
    ensures Valid(perUserMax, w, FailingUpgrades(uid, n))
    ensures var w' := Run(perUserMax, w, FailingUpgrades(uid, n));
            w'.conns == map[] && CountOf(w'.failed, uid) == CountOf(w.failed, uid) + n
    decreases n
  {
    if n == 0 {
    } else {
      var rest := FailingUpgrades(uid, n - 1);
      var events := FailingUpgrades(uid, n);
      var w1 := Step(perUserMax, w, Acquire(0, Some(uid)));
      var w2 := Step(perUserMax, w1, Admit(0));
      var w3 := Step(perUserMax, w2, UpgradeFails(0));
      assert events[1..] == [Admit(0), UpgradeFails(0)] + rest;
      assert events[1..][1..] == [UpgradeFails(0)] + rest;
      assert events[1..][1..][1..] == rest;
      assert w3.conns == map[];
      FailingUpgradesFrom(perUserMax, w3, uid, n - 1);
      assert Valid(perUserMax, w2, events[1..][1..]);
      assert Valid(perUserMax, w1, events[1..]);
      assert Run(perUserMax, w2, events[1..][1..]) == Run(perUserMax, w3, rest);
      assert Run(perUserMax, w1, events[1..]) == Run(perUserMax, w2, events[1..][1..]);
      assert Run(perUserMax, w, events) == Run(perUserMax, w1, events[1..]);
    }
  }

  /** So `perUserMax` failed upgrades in a row are enough, with no connection left open. */
  lemma LockOutIsReached(maxConnections: nat, perUserMax: nat, uid: string)
    requires 0 < maxConnections
    ensures Valid(perUserMax, Start(maxConnections), FailingUpgrades(uid, perUserMax))
    ensures var w := Run(perUserMax, Start(maxConnections), FailingUpgrades(uid, perUserMax));
            w.conns == map[] && !HasRoom(w.ws.users, Some(uid), perUserMax)
  {
    FailingUpgradesFrom(perUserMax, Start(maxConnections), uid, perUserMax);
    var w := Run(perUserMax, Start(maxConnections), FailingUpgrades(uid, perUserMax));
    QuiescentServer(maxConnections, perUserMax, FailingUpgrades(uid, perUserMax), w, uid);
  }
}
