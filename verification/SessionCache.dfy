/**
  The in-process session cache in front of Redis: several processes reading and caching in
  separate steps, and the stronger guarantees of one process working sequentially.
 */
module SessionCache {
  import opened Basics
  import opened RedisKeys
  import opened Sessions
  import opened SessionRuns

  // ---------------------------------------------------------------------------------------------
  // Many processes. A get that has missed, at that time or long before, reads Redis in one step and
  // fills the cache in a later one; the same process may have several such reads in flight.

  datatype Pending = Pending(process: nat, id: string, session: Session)

  // `putAt` records when the entry of (process, id) was stored.
  datatype Fleet = Fleet(w: World, caches: map<nat, map<string, Cached>>, putAt: map<(nat, string), nat>,
                         pending: multiset<Pending>)

  datatype Action =
    | Redis(e: Event)
    | ReadMiss(process: nat, id: string, now: nat)
    | Put(read: Pending, now: nat)
    | Forget(process: nat, ids: set<string>)   // removal, user-wide removal or eviction

  function CacheOf(f: Fleet, process: nat): map<string, Cached> {
    if process in f.caches then f.caches[process] else map[]
  }

  predicate Enabled(f: Fleet, a: Action) {
    match a
    case Redis(e) => Possible(f.w, e)
    case ReadMiss(_, _, now) => f.w.now <= now
    case Put(read, now) => read in f.pending && f.w.now <= now
    case Forget(_, _) => true
  }

  function Act(ttl: nat, f: Fleet, a: Action): Fleet
    requires Enabled(f, a)
  {
    match a
    case Redis(e) => f.(w := Step(ttl, f.w, e))
    case ReadMiss(process, id, now) =>
      var slot := Fetch(f.w.db.sessions, id, now);
      f.(w := f.w.(now := now),
         pending := if slot.Present? then f.pending + multiset{Pending(process, id, slot.value)} else f.pending)
    case Put(read, now) =>
      f.(w := f.w.(now := now),
         caches := f.caches[read.process := CachePut(CacheOf(f, read.process), read.id, read.session, now)],
         putAt := f.putAt[(read.process, read.id) := now],
         pending := f.pending - multiset{read})
    case Forget(process, ids) =>
      f.(caches := f.caches[process := CacheOf(f, process) - ids])
  }

  ghost predicate Acts(ttl: nat, f: Fleet, actions: seq<Action>)
    decreases |actions|
  {
    actions == [] || (Enabled(f, actions[0]) && Acts(ttl, Act(ttl, f, actions[0]), actions[1..]))
  }

  ghost function After(ttl: nat, f: Fleet, actions: seq<Action>): Fleet
    requires Acts(ttl, f, actions)
    decreases |actions|
  {
    if actions == [] then f else After(ttl, Act(ttl, f, actions[0]), actions[1..])
  }

  const NO_CACHES := Fleet(SessionRuns.START, map[], map[], multiset{})

  /** What is held for an id in memory is what the id was created with. */
  ghost predicate Honest(ttl: nat, f: Fleet) {
    && Sound(ttl, f.w)
    && (forall r :: r in f.pending ==> r.id in f.w.log && r.session == f.w.log[r.id].session)
    && (forall p, id :: p in f.caches && id in f.caches[p] ==> EntryHonest(f, p, id))
  }

  lemma TickSound(ttl: nat, w: World, t: nat)
    requires Sound(ttl, w) && w.now <= t
    ensures Sound(ttl, w.(now := t))
    ensures SoundAlone(ttl, w) ==> SoundAlone(ttl, w.(now := t))
  {
    var w' := w.(now := t);
    assert forall id :: LiveNow(w', id) ==> LiveNow(w, id);
    assert forall id :: id in w.log ==> Indexed(w, id) == Indexed(w', id);
    assert forall id, j :: id in w.log ==> Targeted(w, id, j) == Targeted(w', id, j);
    assert forall id, uid :: OwnedBy(w, id, uid) == OwnedBy(w', id, uid);
  }

  ghost predicate EntryHonest(f: Fleet, p: nat, id: string)
    requires p in f.caches && id in f.caches[p]
  {
    && id in f.w.log && f.caches[p][id].session == f.w.log[id].session
    && (p, id) in f.putAt && f.putAt[(p, id)] <= f.w.now
    && f.caches[p][id].expiry == f.putAt[(p, id)] + SESSION_CACHE_TTL
  }

  lemma ActKeepsSound(ttl: nat, f: Fleet, a: Action)
    requires Honest(ttl, f) && Enabled(f, a)
    ensures Sound(ttl, Act(ttl, f, a).w)
    ensures f.w.now <= Act(ttl, f, a).w.now
    ensures forall id :: id in f.w.log ==> id in Act(ttl, f, a).w.log && Act(ttl, f, a).w.log[id] == f.w.log[id]
  {
    match a
    case Redis(e) => StepSound(ttl, f.w, e);
    case ReadMiss(_, _, now) => TickSound(ttl, f.w, now);
    case Put(_, now) => TickSound(ttl, f.w, now);
    case Forget(_, _) =>
  }

  lemma ActPendingHonest(ttl: nat, f: Fleet, a: Action, r: Pending)
    requires Honest(ttl, f) && Enabled(f, a) && r in Act(ttl, f, a).pending
    ensures r.id in f.w.log && r.session == f.w.log[r.id].session
  {
    assert r in f.pending || (a.ReadMiss? && r.id == a.id && r.id in f.w.db.sessions);
  }

  lemma ActEntryHonest(ttl: nat, f: Fleet, a: Action, p: nat, id: string)
    requires Honest(ttl, f) && Enabled(f, a)
    requires p in Act(ttl, f, a).caches && id in Act(ttl, f, a).caches[p]
    ensures EntryHonest(Act(ttl, f, a), p, id)
  {
    ActKeepsSound(ttl, f, a);
    if a.Put? && p == a.read.process && id == a.read.id {
    } else {
      assert p in f.caches && id in f.caches[p] && EntryHonest(f, p, id);
    }
  }

  lemma ActHonest(ttl: nat, f: Fleet, a: Action)
    requires Honest(ttl, f) && Enabled(f, a)
    ensures Honest(ttl, Act(ttl, f, a))
  {
    var f' := Act(ttl, f, a);
    ActKeepsSound(ttl, f, a);
    forall r | r in f'.pending ensures r.id in f'.w.log && r.session == f'.w.log[r.id].session {
      ActPendingHonest(ttl, f, a, r);
    }
    forall p, id | p in f'.caches && id in f'.caches[p] ensures EntryHonest(f', p, id) {
      ActEntryHonest(ttl, f, a, p, id);
    }
  }

  lemma {:induction false} AlwaysHonest(ttl: nat, f: Fleet, actions: seq<Action>)
    requires Honest(ttl, f) && Acts(ttl, f, actions)
    ensures Honest(ttl, After(ttl, f, actions))
    decreases |actions|
  {
    if actions == [] {
    } else {
      ActHonest(ttl, f, actions[0]);
      AlwaysHonest(ttl, Act(ttl, f, actions[0]), actions[1..]);
    }
  }

  lemma ReachedIsHonest(ttl: nat, actions: seq<Action>)
    requires Acts(ttl, NO_CACHES, actions)
    ensures Honest(ttl, After(ttl, NO_CACHES, actions))
  {
    StartIsSoundAlone(ttl);
    AlwaysHonest(ttl, NO_CACHES, actions);
  }

  lemma HonestGet(ttl: nat, f: Fleet, process: nat, id: string, now: nat)
    requires Honest(ttl, f) && f.w.now <= now
    ensures var cache := CacheOf(f, process);
            var reply := GetSession(f.w.db, cache, id, now, true).0;
            && (reply.Ok? ==> id in f.w.log && reply.value == f.w.log[id].session)
            && (reply.Err? ==> reply.error == SessionNotFound)
            && (CacheLookup(cache, id, now).Some? ==>
                  (process, id) in f.putAt && f.putAt[(process, id)] <= now < f.putAt[(process, id)] + 300_000)
  {
    if CacheLookup(CacheOf(f, process), id, now).Some? {
      assert EntryHonest(f, process, id);
    } else if Fetch(f.w.db.sessions, id, now).Present? {
      assert f.w.db.sessions[id].value == f.w.log[id].session;
    }
  }

  /**
    In every interleaving a get answers not-found or exactly the session created under the id, and
    an answer from memory is younger than 300 s. For how long a process may still answer a session
    that died elsewhere is the subject of `SilentExactlyWhenSettled`.
   */
  lemma GetsAreAuthentic(ttl: nat, actions: seq<Action>, process: nat, id: string, now: nat)
    requires Acts(ttl, NO_CACHES, actions) && After(ttl, NO_CACHES, actions).w.now <= now
    ensures var f := After(ttl, NO_CACHES, actions);
            var cache := CacheOf(f, process);
            var reply := GetSession(f.w.db, cache, id, now, true).0;
            && (reply.Ok? ==> id in f.w.log && reply.value == f.w.log[id].session)
            && (reply.Err? ==> reply.error == SessionNotFound)
            && (CacheLookup(cache, id, now).Some? ==>
                  (process, id) in f.putAt && f.putAt[(process, id)] <= now < f.putAt[(process, id)] + 300_000)
  {
    ReachedIsHonest(ttl, actions);
    HonestGet(ttl, After(ttl, NO_CACHES, actions), process, id, now);
  }

  // ---- sessions that died elsewhere -----------------------------------------------------------

  function Reply(f: Fleet, process: nat, id: string, now: nat): Result<Session, CacheError> {
    GetSession(f.w.db, CacheOf(f, process), id, now, true).0
  }

  /** From `t` on no process answers the session, in any continuation. */
  ghost predicate SilentFrom(ttl: nat, f: Fleet, id: string, t: nat) {
    forall actions, process, now ::
      Acts(ttl, f, actions) && After(ttl, f, actions).w.now <= now && t <= now ==>
        Reply(After(ttl, f, actions), process, id, now) == Err(SessionNotFound)
  }

  /** No read of the session is in flight, and every cached entry of it runs out by `t`. */
  ghost predicate Settled(f: Fleet, id: string, t: nat) {
    && (forall r :: r in f.pending ==> r.id != id)
    && (forall p :: id in CacheOf(f, p) ==> CacheOf(f, p)[id].expiry <= t)
  }

  lemma ActKeepsDead(ttl: nat, f: Fleet, a: Action, id: string)
    requires Honest(ttl, f) && Enabled(f, a) && id in f.w.log && !LiveNow(f.w, id)
    ensures id in Act(ttl, f, a).w.log && !LiveNow(Act(ttl, f, a).w, id)
  {
    if a.Redis? {
      StepKeepsDead(ttl, f.w, a.e, id);
    }
  }

  lemma ActKeepsUnread(ttl: nat, f: Fleet, a: Action, id: string, r: Pending)
    requires Honest(ttl, f) && Enabled(f, a) && id in f.w.log && !LiveNow(f.w, id)
    requires (forall q :: q in f.pending ==> q.id != id) && r in Act(ttl, f, a).pending
    ensures r.id != id
  {
    if a.ReadMiss? && a.id == id {
      assert !Live(f.w.db, id, a.now);
    }
    assert r in f.pending || (a.ReadMiss? && r.id == a.id && Live(f.w.db, a.id, a.now));
  }

  lemma ActKeepsEntry(ttl: nat, f: Fleet, a: Action, id: string, p: nat)
    requires Enabled(f, a) && (forall r :: r in f.pending ==> r.id != id) && id in CacheOf(Act(ttl, f, a), p)
    ensures id in CacheOf(f, p) && CacheOf(Act(ttl, f, a), p)[id] == CacheOf(f, p)[id]
  {
  }

  lemma ActKeepsSettled(ttl: nat, f: Fleet, a: Action, id: string, t: nat)
    requires Honest(ttl, f) && Enabled(f, a) && id in f.w.log && !LiveNow(f.w, id) && Settled(f, id, t)
    ensures Settled(Act(ttl, f, a), id, t)
    ensures id in Act(ttl, f, a).w.log && !LiveNow(Act(ttl, f, a).w, id)
  {
    var f' := Act(ttl, f, a);
    ActKeepsDead(ttl, f, a, id);
    forall r | r in f'.pending ensures r.id != id {
      ActKeepsUnread(ttl, f, a, id, r);
    }
    forall p | id in CacheOf(f', p) ensures CacheOf(f', p)[id].expiry <= t {
      ActKeepsEntry(ttl, f, a, id, p);
    }
  }

  lemma {:induction false} SettledStays(ttl: nat, f: Fleet, actions: seq<Action>, id: string, t: nat)
    requires Honest(ttl, f) && Acts(ttl, f, actions) && id in f.w.log && !LiveNow(f.w, id) && Settled(f, id, t)
    ensures var later := After(ttl, f, actions);
            Settled(later, id, t) && id in later.w.log && !LiveNow(later.w, id)
    decreases |actions|
  {
    if actions == [] {
    } else {
      ActHonest(ttl, f, actions[0]);
      ActKeepsSettled(ttl, f, actions[0], id, t);
      SettledStays(ttl, Act(ttl, f, actions[0]), actions[1..], id, t);
    }
  }

  lemma SettledIsSilent(ttl: nat, f: Fleet, id: string, t: nat)
    requires Honest(ttl, f) && id in f.w.log && !LiveNow(f.w, id) && Settled(f, id, t)
    ensures SilentFrom(ttl, f, id, t)
  {
    forall actions, process, now | Acts(ttl, f, actions) && After(ttl, f, actions).w.now <= now && t <= now
      ensures Reply(After(ttl, f, actions), process, id, now) == Err(SessionNotFound)
    {
      SettledStays(ttl, f, actions, id, t);
    }
  }

  lemma ReadInFlightAnswers(ttl: nat, f: Fleet, r: Pending, t: nat)
    requires r in f.pending && f.w.now <= t
    ensures !SilentFrom(ttl, f, r.id, t)
  {
    var a := Put(r, t);
    assert [a][1..] == [];
    assert Acts(ttl, Act(ttl, f, a), []);
    assert Acts(ttl, f, [a]) && After(ttl, f, [a]) == Act(ttl, f, a);
    assert Reply(Act(ttl, f, a), r.process, r.id, t) == Ok(r.session);
  }

  lemma CachedEntryAnswers(ttl: nat, f: Fleet, p: nat, id: string, t: nat)
    requires f.w.now <= t && id in CacheOf(f, p) && t < CacheOf(f, p)[id].expiry
    ensures !SilentFrom(ttl, f, id, t)
  {
    assert Acts(ttl, f, []) && After(ttl, f, []) == f;
    assert Reply(f, p, id, t).Ok?;
  }

  lemma SilentIsSettled(ttl: nat, f: Fleet, id: string, t: nat)
    requires Honest(ttl, f) && id in f.w.log && !LiveNow(f.w, id) && f.w.now <= t
    ensures SilentFrom(ttl, f, id, t) <==> Settled(f, id, t)
  {
    if Settled(f, id, t) {
      SettledIsSilent(ttl, f, id, t);
    } else if r :| r in f.pending && r.id == id {
      ReadInFlightAnswers(ttl, f, r, t);
    } else {
      var p :| id in CacheOf(f, p) && t < CacheOf(f, p)[id].expiry;
      CachedEntryAnswers(ttl, f, p, id, t);
    }
  }

  /**
    The exact condition, over all runs of any number of processes: once a session is dead, by logout,
    bulk destroy or expiry, no process ever answers it from `t` on if and only if no read of it is in
    flight and every cached entry of it runs out by `t`.
   */
  lemma SilentExactlyWhenSettled(ttl: nat, actions: seq<Action>, f: Fleet, id: string, t: nat)
    requires Acts(ttl, NO_CACHES, actions) && f == After(ttl, NO_CACHES, actions)
    requires id in f.w.log && !LiveNow(f.w, id) && f.w.now <= t
    ensures SilentFrom(ttl, f, id, t) <==> Settled(f, id, t)
  {
    ReachedIsHonest(ttl, actions);
    SilentIsSettled(ttl, f, id, t);
  }

  /** So, with no read of it in flight, a dead session is answered nowhere any more after 300 s. */
  lemma SilentAfterLifetime(ttl: nat, actions: seq<Action>, f: Fleet, id: string)
    requires Acts(ttl, NO_CACHES, actions) && f == After(ttl, NO_CACHES, actions)
    requires id in f.w.log && !LiveNow(f.w, id) && forall r :: r in f.pending ==> r.id != id
    ensures SilentFrom(ttl, f, id, f.w.now + 300_000)
  {
    ReachedIsHonest(ttl, actions);
    forall p | id in CacheOf(f, p) ensures CacheOf(f, p)[id].expiry <= f.w.now + 300_000 {
      assert EntryHonest(f, p, id);
    }
    SettledIsSilent(ttl, f, id, f.w.now + 300_000);
  }

  /** A logout in one process: the session goes in Redis, then that process's own entry of it. */
  function LogoutIn(ttl: nat, f: Fleet, process: nat, id: string, now: nat): Fleet
    requires f.w.now <= now
  {
    Act(ttl, Act(ttl, f, Redis(Logout(id, now))), Forget(process, {id}))
  }

  lemma LogoutHonest(ttl: nat, f: Fleet, process: nat, id: string, now: nat)
    requires Honest(ttl, f) && id in f.w.log && f.w.now <= now
    ensures var f' := LogoutIn(ttl, f, process, id, now);
            Honest(ttl, f') && id in f'.w.log && !LiveNow(f'.w, id) && f'.w.now == now
  {
    var middle := Act(ttl, f, Redis(Logout(id, now)));
    assert Enabled(middle, Forget(process, {id}));
    ActHonest(ttl, f, Redis(Logout(id, now)));
    ActHonest(ttl, middle, Forget(process, {id}));
  }

  lemma LogoutForgets(ttl: nat, f: Fleet, process: nat, id: string, now: nat, p: nat)
    requires f.w.now <= now
    ensures CacheOf(LogoutIn(ttl, f, process, id, now), p)
         == if p == process then CacheOf(f, p) - {id} else CacheOf(f, p)
  {
  }

  /** No read of the session is in flight, and no other process has an entry of it beyond `t`. */
  ghost predicate NoOtherCopies(f: Fleet, process: nat, id: string, t: nat) {
    && (forall r :: r in f.pending ==> r.id != id)
    && (forall p :: p != process && id in CacheOf(f, p) ==> CacheOf(f, p)[id].expiry <= t)
  }

  lemma LogoutSettles(ttl: nat, f: Fleet, process: nat, id: string, now: nat)
    requires f.w.now <= now
    ensures Settled(LogoutIn(ttl, f, process, id, now), id, now) <==> NoOtherCopies(f, process, id, now)
  {
    var f' := LogoutIn(ttl, f, process, id, now);
    assert f'.pending == f.pending;
    forall p
      ensures id in CacheOf(f', p) <==> p != process && id in CacheOf(f, p)
      ensures id in CacheOf(f', p) ==> CacheOf(f', p)[id] == CacheOf(f, p)[id]
    {
      LogoutForgets(ttl, f, process, id, now, p);
    }
  }

  /** Exactly then a logout silences the session everywhere at once. */
  lemma LogoutSilencesExactly(ttl: nat, actions: seq<Action>, f: Fleet, process: nat, id: string, now: nat)
    requires Acts(ttl, NO_CACHES, actions) && f == After(ttl, NO_CACHES, actions)
    requires id in f.w.log && f.w.now <= now
    ensures SilentFrom(ttl, LogoutIn(ttl, f, process, id, now), id, now) <==> NoOtherCopies(f, process, id, now)
  {
    ReachedIsHonest(ttl, actions);
    LogoutHonest(ttl, f, process, id, now);
    LogoutSettles(ttl, f, process, id, now);
    SilentIsSettled(ttl, LogoutIn(ttl, f, process, id, now), id, now);
  }

  // After a create and a read by process 1 that has not been put yet, at time 0.
  predicate CreatedAndRead(f: Fleet, s: Session) {
    && f.w.now == 0 && f.w.log.Keys == {"id"} && f.w.loggedOut == {} && f.caches == map[]
    && "id" in f.w.db.sessions && f.w.db.sessions["id"] == Present(s, Some(900_000))
    && f.pending == multiset{Pending(1, "id", s)}
  }

  lemma CreateAndRead(s: Session) returns (f1: Fleet, f2: Fleet)
    ensures Enabled(NO_CACHES, Redis(Create("id", s, 0))) && f1 == Act(900, NO_CACHES, Redis(Create("id", s, 0)))
    ensures Enabled(f1, ReadMiss(1, "id", 0)) && f2 == Act(900, f1, ReadMiss(1, "id", 0)) && CreatedAndRead(f2, s)
  {
    f1 := Act(900, NO_CACHES, Redis(Create("id", s, 0)));
    assert f1.w.db.sessions["id"] == Present(s, Some(900_000));
    f2 := Act(900, f1, ReadMiss(1, "id", 0));
  }

  lemma PutAnswers(f: Fleet, read: Pending, now: nat, t: nat)
    requires Enabled(f, Put(read, now)) && now <= t < now + 300_000 &&
              |CacheOf(f, read.process)| < MAX_SESSION_CACHE_ENTRIES
    ensures var f' := Act(900, f, Put(read, now));
            f'.w == f.w.(now := now) && CacheLookup(CacheOf(f', read.process), read.id, t) == Some(read.session)
  {
  }

  lemma LogoutKeepsMemory(f: Fleet)
    requires f.w.now == 0 && "id" in f.w.log
    ensures Enabled(f, Redis(Logout("id", 0)))
    ensures var f' := Act(900, f, Redis(Logout("id", 0)));
            "id" in f'.w.loggedOut && f'.w.now == 0 && f'.caches == f.caches && f'.pending == f.pending
  {
  }

  lemma CachedIsAnswered(f: Fleet, process: nat, id: string, now: nat)
    requires CacheLookup(CacheOf(f, process), id, now).Some?
    ensures Reply(f, process, id, now) == Ok(CacheLookup(CacheOf(f, process), id, now).value)
  {
  }

  lemma PutThenLogout(f2: Fleet, s: Session) returns (f3: Fleet, f4: Fleet)
    requires CreatedAndRead(f2, s)
    ensures var put, out := Put(Pending(1, "id", s), 0), Redis(Logout("id", 0));
            && Enabled(f2, put) && f3 == Act(900, f2, put) && Enabled(f3, out) && f4 == Act(900, f3, out)
    ensures "id" in f4.w.loggedOut && f4.w.now == 0 && Reply(f4, 1, "id", 299_999) == Ok(s)
  {
    PutAnswers(f2, Pending(1, "id", s), 0, 299_999);
    f3 := Act(900, f2, Put(Pending(1, "id", s), 0));
    LogoutKeepsMemory(f3);
    f4 := Act(900, f3, Redis(Logout("id", 0)));
    CachedIsAnswered(f4, 1, "id", 299_999);
  }

  lemma LogoutThenPut(f2: Fleet, s: Session) returns (f3: Fleet, f4: Fleet)
    requires CreatedAndRead(f2, s)
    ensures var out, put := Redis(Logout("id", 0)), Put(Pending(1, "id", s), 500_000);
            && Enabled(f2, out) && f3 == Act(900, f2, out) && Enabled(f3, put) && f4 == Act(900, f3, put)
    ensures "id" in f4.w.loggedOut && f4.w.now == 500_000 && Reply(f4, 1, "id", 799_999) == Ok(s)
  {
    LogoutKeepsMemory(f2);
    f3 := Act(900, f2, Redis(Logout("id", 0)));
    PutAnswers(f3, Pending(1, "id", s), 500_000, 799_999);
    f4 := Act(900, f3, Put(Pending(1, "id", s), 500_000));
    CachedIsAnswered(f4, 1, "id", 799_999);
  }

  /** Cached by process 1, logged out by process 0: process 1 still answers, up to its last millisecond. */
  lemma HitAfterLogoutElsewhere(s: Session) returns (actions: seq<Action>)
    ensures Acts(900, NO_CACHES, actions)
    ensures var f := After(900, NO_CACHES, actions);
            "id" in f.w.loggedOut && f.w.now == 0 && Reply(f, 1, "id", 299_999) == Ok(s)
  {
    var f1, f2 := CreateAndRead(s);
    var f3, f4 := PutThenLogout(f2, s);
    actions := [Redis(Create("id", s, 0)), ReadMiss(1, "id", 0), Put(Pending(1, "id", s), 0), Redis(Logout("id", 0))];
    FourActions(900, NO_CACHES, actions, f1, f2, f3, f4);
  }

  /** Read before the logout and put when the first entry would have run out: the dead session gets another 300 s. */
  lemma LatePutAfterLogout(s: Session) returns (actions: seq<Action>)
    ensures Acts(900, NO_CACHES, actions)
    ensures var f := After(900, NO_CACHES, actions);
            "id" in f.w.loggedOut && f.w.now == 500_000 && Reply(f, 1, "id", 799_999) == Ok(s)
  {
    var f1, f2 := CreateAndRead(s);
    var f3, f4 := LogoutThenPut(f2, s);
    actions := [Redis(Create("id", s, 0)), ReadMiss(1, "id", 0), Redis(Logout("id", 0)),
                Put(Pending(1, "id", s), 500_000)];
    FourActions(900, NO_CACHES, actions, f1, f2, f3, f4);
  }

  lemma FourActions(ttl: nat, f: Fleet, a: seq<Action>, f1: Fleet, f2: Fleet, f3: Fleet, f4: Fleet)
    requires |a| == 4
    requires Enabled(f, a[0]) && f1 == Act(ttl, f, a[0]) && Enabled(f1, a[1]) && f2 == Act(ttl, f1, a[1])
    requires Enabled(f2, a[2]) && f3 == Act(ttl, f2, a[2]) && Enabled(f3, a[3]) && f4 == Act(ttl, f3, a[3])
    ensures Acts(ttl, f, a) && After(ttl, f, a) == f4
  {
    assert a[1..][1..] == a[2..] && a[2..][1..] == a[3..] && a[3..][1..] == [];
    assert Acts(ttl, f4, []) && After(ttl, f4, []) == f4;
    assert Acts(ttl, f3, a[3..]) && After(ttl, f3, a[3..]) == f4;
    assert Acts(ttl, f2, a[2..]) && After(ttl, f2, a[2..]) == f4;
    assert Acts(ttl, f1, a[1..]) && After(ttl, f1, a[1..]) == f4;
  }

  // ---- the cap --------------------------------------------------------------------------------

  lemma PutBounded(cache: map<string, Cached>, id: string, s: Session, now: nat)
    requires |cache| <= MAX_SESSION_CACHE_ENTRIES
    ensures |CachePut(cache, id, s, now)| <= MAX_SESSION_CACHE_ENTRIES
  {
    var base := if MAX_SESSION_CACHE_ENTRIES <= |cache| then map[] else cache;
    CacheGrowsByOne(base, id, Cached(now + SESSION_CACHE_TTL, s));
  }

  lemma ForgetBounded(cache: map<string, Cached>, ids: set<string>)
    ensures |cache - ids| <= |cache|
  {
    assert (cache - ids).Keys <= cache.Keys;
    SubsetCardinality((cache - ids).Keys, cache.Keys);
  }

  predicate Bounded(f: Fleet, p: nat) { |CacheOf(f, p)| <= MAX_SESSION_CACHE_ENTRIES }

  lemma ActBounded(ttl: nat, f: Fleet, a: Action, p: nat)
    requires Enabled(f, a) && Bounded(f, p)
    ensures Bounded(Act(ttl, f, a), p)
  {
    match a
    case Redis(_) =>
    case ReadMiss(_, _, _) =>
    case Put(read, now) => PutBounded(CacheOf(f, p), read.id, read.session, now);
    case Forget(_, ids) => ForgetBounded(CacheOf(f, p), ids);
  }

  lemma {:induction false} StaysBounded(ttl: nat, f: Fleet, actions: seq<Action>, p: nat)
    requires Acts(ttl, f, actions) && Bounded(f, p)
    ensures Bounded(After(ttl, f, actions), p)
    decreases |actions|
  {
    if actions == [] {
    } else {
      ActBounded(ttl, f, actions[0], p);
      StaysBounded(ttl, Act(ttl, f, actions[0]), actions[1..], p);
    }
  }

  /** In every interleaving no process's cache ever exceeds its cap. */
  lemma CachesStayBounded(ttl: nat, actions: seq<Action>)
    requires Acts(ttl, NO_CACHES, actions)
    ensures forall p :: |CacheOf(After(ttl, NO_CACHES, actions), p)| <= 100_000
  {
    forall p ensures |CacheOf(After(ttl, NO_CACHES, actions), p)| <= 100_000 {
      StaysBounded(ttl, NO_CACHES, actions, p);
    }
  }

  // ---------------------------------------------------------------------------------------------
  // One process, one request at a time.

  datatype Op =
    | SeqCreate(id: string, session: Session, now: nat)
    | SeqGet(id: string, now: nat)
    | SeqLogout(id: string, now: nat)
    | SeqDestroyAll(uid: string, job: nat, now: nat)

  datatype Client = Client(w: World, cache: map<string, Cached>)

  const FRESH := Client(SessionRuns.START, map[])

  predicate OpPossible(c: Client, op: Op) {
    && c.w.now <= op.now
    && (op.SeqCreate? ==> op.id !in c.w.log)
    && (op.SeqDestroyAll? ==> op.job !in c.w.ended)
  }

  /** The commands of an undisturbed bulk destroy. */
  function DestroyCommands(w: World, job: nat, uid: string, now: nat): seq<Event> {
    if RenameIndex(w.db, uid, now).None? then [Rename(job, uid, now)]
    else [Rename(job, uid, now), List(job, now), DropTemp(job, now), DeleteKeys(job, now)]
  }

  lemma CommandsInARow(ttl: nat, w: World, job: nat, uid: string, now: nat)
    requires w.jobs == map[] && job !in w.ended && w.now <= now
    ensures Valid(ttl, w, DestroyCommands(w, job, uid, now)) && AllAlone(ttl, w, DestroyCommands(w, job, uid, now))
    ensures RenameIndex(w.db, uid, now).None? ==>
              Run(ttl, w, DestroyCommands(w, job, uid, now)) == Step(ttl, w, Rename(job, uid, now))
    ensures RenameIndex(w.db, uid, now).Some? ==>
              var w1 := Step(ttl, w, Rename(job, uid, now));
              && Possible(w1, List(job, now))
              && var w2 := Step(ttl, w1, List(job, now));
                 && Possible(w2, DropTemp(job, now))
                 && var w3 := Step(ttl, w2, DropTemp(job, now));
                    && Possible(w3, DeleteKeys(job, now))
                    && Run(ttl, w, DestroyCommands(w, job, uid, now)) == Step(ttl, w3, DeleteKeys(job, now))
  {
    var first := Rename(job, uid, now);
    var w1 := Step(ttl, w, first);
    if RenameIndex(w.db, uid, now).None? {
      assert [first][1..] == [];
      assert Valid(ttl, w1, []) && AllAlone(ttl, w1, []);
    } else {
      var a, b, c := List(job, now), DropTemp(job, now), DeleteKeys(job, now);
      var w2 := Step(ttl, w1, a);
      var w3 := Step(ttl, w2, b);
      var w4 := Step(ttl, w3, c);
      assert [first, a, b, c][1..] == [a, b, c] && [a, b, c][1..] == [b, c] && [b, c][1..] == [c] && [c][1..] == [];
      assert Valid(ttl, w4, []) && AllAlone(ttl, w4, []) && Run(ttl, w4, []) == w4;
      assert Valid(ttl, w3, [c]) && AllAlone(ttl, w3, [c]) && Run(ttl, w3, [c]) == w4;
      assert Valid(ttl, w2, [b, c]) && AllAlone(ttl, w2, [b, c]) && Run(ttl, w2, [b, c]) == w4;
      assert Valid(ttl, w1, [a, b, c]) && AllAlone(ttl, w1, [a, b, c]) && Run(ttl, w1, [a, b, c]) == w4;
    }
  }

  ghost function DestroyAllAtOnce(ttl: nat, w: World, job: nat, uid: string, now: nat): World
    requires w.jobs == map[] && job !in w.ended && w.now <= now
  {
    CommandsInARow(ttl, w, job, uid, now);
    Run(ttl, w, DestroyCommands(w, job, uid, now))
  }

  lemma AtOnceIsDestroyAll(ttl: nat, w: World, job: nat, uid: string, now: nat)
    requires w.jobs == map[] && job !in w.ended && w.now <= now
    ensures var w' := DestroyAllAtOnce(ttl, w, job, uid, now);
            && w'.db == DestroyAll(w.db, uid, now, NO_FAULTS).0
            && w'.jobs == map[] && w'.now == now && w'.log == w.log && w'.loggedOut == w.loggedOut
  {
    CommandsInARow(ttl, w, job, uid, now);
  }

  ghost function Apply(ttl: nat, c: Client, op: Op): Client
    requires OpPossible(c, op) && c.w.jobs == map[]
  {
    match op
    case SeqCreate(id, s, now) => c.(w := Step(ttl, c.w, Create(id, s, now)))
    case SeqGet(id, now) => Client(c.w.(now := now), GetSession(c.w.db, c.cache, id, now, true).1)
    case SeqLogout(id, now) => Client(Step(ttl, c.w, Logout(id, now)), c.cache - {id})
    case SeqDestroyAll(uid, job, now) =>
      Client(DestroyAllAtOnce(ttl, c.w, job, uid, now),
             if RenameIndex(c.w.db, uid, now).Some? then CacheWithoutUser(c.cache, uid) else c.cache)
  }

  ghost predicate Applies(ttl: nat, c: Client, ops: seq<Op>)
    decreases |ops|
  {
    ops == [] || (c.w.jobs == map[] && OpPossible(c, ops[0]) && Applies(ttl, Apply(ttl, c, ops[0]), ops[1..]))
  }

  ghost function Finally(ttl: nat, c: Client, ops: seq<Op>): Client
    requires Applies(ttl, c, ops)
    decreases |ops|
  {
    if ops == [] then c else Finally(ttl, Apply(ttl, c, ops[0]), ops[1..])
  }

  ghost predicate Consistent(ttl: nat, c: Client) {
    && SoundAlone(ttl, c.w) && c.w.jobs == map[]
    && (forall id :: id in c.cache ==> id in c.w.log && c.cache[id].session == c.w.log[id].session)
  }

  lemma DestroyAllSound(ttl: nat, w: World, job: nat, uid: string, now: nat)
    requires SoundAlone(ttl, w) && w.jobs == map[] && job !in w.ended && w.now <= now
    ensures SoundAlone(ttl, DestroyAllAtOnce(ttl, w, job, uid, now))
  {
    CommandsInARow(ttl, w, job, uid, now);
    RunSoundAlone(ttl, w, DestroyCommands(w, job, uid, now));
  }

  lemma ApplySound(ttl: nat, c: Client, op: Op)
    requires Consistent(ttl, c) && OpPossible(c, op)
    ensures SoundAlone(ttl, Apply(ttl, c, op).w)
  {
    match op
    case SeqCreate(id, s, now) => StepSoundAlone(ttl, c.w, Create(id, s, now));
    case SeqGet(id, now) => TickSound(ttl, c.w, now);
    case SeqLogout(id, now) => StepSoundAlone(ttl, c.w, Logout(id, now));
    case SeqDestroyAll(uid, job, now) => DestroyAllSound(ttl, c.w, job, uid, now);
  }

  lemma ApplyKeepsLog(ttl: nat, c: Client, op: Op, id: string)
    requires Consistent(ttl, c) && OpPossible(c, op) && id in c.w.log
    ensures id in Apply(ttl, c, op).w.log && Apply(ttl, c, op).w.log[id] == c.w.log[id]
  {
    if op.SeqDestroyAll? {
      AtOnceIsDestroyAll(ttl, c.w, op.job, op.uid, op.now);
    }
  }

  lemma ApplyCachesFrom(ttl: nat, c: Client, op: Op, id: string)
    requires OpPossible(c, op) && c.w.jobs == map[] && id in Apply(ttl, c, op).cache
    ensures var entry := Apply(ttl, c, op).cache[id];
            || (id in c.cache && entry == c.cache[id])
            || (op.SeqGet? && id == op.id && id in c.w.db.sessions && c.w.db.sessions[id].Present?
                && entry.session == c.w.db.sessions[id].value)
  {
  }

  lemma ApplyEntryHonest(ttl: nat, c: Client, op: Op, id: string)
    requires Consistent(ttl, c) && OpPossible(c, op) && id in Apply(ttl, c, op).cache
    ensures id in Apply(ttl, c, op).w.log && Apply(ttl, c, op).cache[id].session == Apply(ttl, c, op).w.log[id].session
  {
    ApplyCachesFrom(ttl, c, op, id);
    assert id in c.w.log;
    ApplyKeepsLog(ttl, c, op, id);
  }

  lemma ApplyLeavesNoJobs(ttl: nat, c: Client, op: Op)
    requires OpPossible(c, op) && c.w.jobs == map[]
    ensures Apply(ttl, c, op).w.jobs == map[]
  {
    if op.SeqDestroyAll? {
      AtOnceIsDestroyAll(ttl, c.w, op.job, op.uid, op.now);
    }
  }

  lemma ApplyConsistent(ttl: nat, c: Client, op: Op)
    requires Consistent(ttl, c) && OpPossible(c, op)
    ensures Consistent(ttl, Apply(ttl, c, op))
  {
    ApplySound(ttl, c, op);
    ApplyLeavesNoJobs(ttl, c, op);
    var c' := Apply(ttl, c, op);
    forall id | id in c'.cache ensures id in c'.w.log && c'.cache[id].session == c'.w.log[id].session {
      ApplyEntryHonest(ttl, c, op, id);
    }
  }

  lemma {:induction false} AlwaysConsistent(ttl: nat, c: Client, ops: seq<Op>)
    requires Consistent(ttl, c) && Applies(ttl, c, ops)
    ensures Consistent(ttl, Finally(ttl, c, ops))
    decreases |ops|
  {
    if ops == [] {
    } else {
      ApplyConsistent(ttl, c, ops[0]);
      AlwaysConsistent(ttl, Apply(ttl, c, ops[0]), ops[1..]);
    }
  }

  lemma FreshIsConsistent(ttl: nat)
    ensures Consistent(ttl, FRESH)
  {
    StartIsSoundAlone(ttl);
  }

  lemma ReachedIsConsistent(ttl: nat, before: seq<Op>)
    requires Applies(ttl, FRESH, before)
    ensures Consistent(ttl, Finally(ttl, FRESH, before))
  {
    FreshIsConsistent(ttl);
    AlwaysConsistent(ttl, FRESH, before);
  }

  // Issued, no longer alive in Redis and not cached.
  predicate Gone(c: Client, id: string) {
    id in c.w.log && !LiveNow(c.w, id) && id !in c.cache
  }

  lemma ApplyKeepsDead(ttl: nat, c: Client, op: Op, id: string)
    requires Consistent(ttl, c) && OpPossible(c, op) && id in c.w.log && !LiveNow(c.w, id)
    ensures id in Apply(ttl, c, op).w.log && !LiveNow(Apply(ttl, c, op).w, id)
  {
    if op.SeqDestroyAll? {
      AtOnceIsDestroyAll(ttl, c.w, op.job, op.uid, op.now);
    }
  }

  lemma ApplyKeepsEntry(ttl: nat, c: Client, op: Op, id: string)
    requires OpPossible(c, op) && c.w.jobs == map[] && !LiveNow(c.w, id) && id in Apply(ttl, c, op).cache
    ensures id in c.cache && Apply(ttl, c, op).cache[id] == c.cache[id]
  {
  }

  lemma GoneStaysGone(ttl: nat, c: Client, op: Op, id: string)
    requires Consistent(ttl, c) && OpPossible(c, op) && Gone(c, id)
    ensures Gone(Apply(ttl, c, op), id)
  {
    ApplyKeepsDead(ttl, c, op, id);
    if id in Apply(ttl, c, op).cache {
      ApplyKeepsEntry(ttl, c, op, id);
    }
  }

  lemma GoneIsNotFound(c: Client, id: string, now: nat)
    requires Gone(c, id) && c.w.now <= now
    ensures GetSession(c.w.db, c.cache, id, now, true).0 == Err(SessionNotFound)
  {
  }

  lemma {:induction false} GoneForGood(ttl: nat, c: Client, ops: seq<Op>, id: string, now: nat)
    requires Consistent(ttl, c) && Applies(ttl, c, ops) && Gone(c, id)
    requires Finally(ttl, c, ops).w.now <= now
    ensures var c' := Finally(ttl, c, ops);
            GetSession(c'.w.db, c'.cache, id, now, true).0 == Err(SessionNotFound)
    decreases |ops|
  {
    if ops == [] {
      GoneIsNotFound(c, id, now);
    } else {
      ApplyConsistent(ttl, c, ops[0]);
      GoneStaysGone(ttl, c, ops[0], id);
      GoneForGood(ttl, Apply(ttl, c, ops[0]), ops[1..], id, now);
    }
  }

  lemma {:induction false} ApplySplit(ttl: nat, c: Client, a: seq<Op>, b: seq<Op>)
    requires Applies(ttl, c, a + b)
    ensures Applies(ttl, c, a) && Applies(ttl, Finally(ttl, c, a), b)
    ensures Finally(ttl, c, a + b) == Finally(ttl, Finally(ttl, c, a), b)
    decreases |a|
  {
    if a == [] {
      assert a + b == b;
    } else {
      assert (a + b)[0] == a[0] && (a + b)[1..] == a[1..] + b;
      ApplySplit(ttl, Apply(ttl, c, a[0]), a[1..], b);
    }
  }

  lemma GoneAfter(ttl: nat, c: Client, op: Op, later: seq<Op>, id: string, now: nat)
    requires Consistent(ttl, c) && OpPossible(c, op) && Gone(Apply(ttl, c, op), id)
    requires Applies(ttl, c, [op] + later) && Finally(ttl, c, [op] + later).w.now <= now
    ensures var c' := Finally(ttl, c, [op] + later);
            GetSession(c'.w.db, c'.cache, id, now, true).0 == Err(SessionNotFound)
  {
    assert ([op] + later)[0] == op && ([op] + later)[1..] == later;
    ApplyConsistent(ttl, c, op);
    GoneForGood(ttl, Apply(ttl, c, op), later, id, now);
  }

  /** In one sequential process no get succeeds after a logout of the session. */
  lemma NoGetAfterLogout(ttl: nat, c: Client, before: seq<Op>, op: Op, later: seq<Op>, c': Client, now: nat)
    requires Applies(ttl, FRESH, before) && c == Finally(ttl, FRESH, before) && op.SeqLogout? && op.id in c.w.log
    requires Applies(ttl, c, [op] + later) && c' == Finally(ttl, c, [op] + later) && c'.w.now <= now
    ensures GetSession(c'.w.db, c'.cache, op.id, now, true).0 == Err(SessionNotFound)
  {
    assert Consistent(ttl, c) by { ReachedIsConsistent(ttl, before); }
    assert ([op] + later)[0] == op;
    GoneAfter(ttl, c, op, later, op.id, now);
  }

  lemma DestroyAllLeavesNone(ttl: nat, c: Client, op: Op, id: string)
    requires Consistent(ttl, c) && OpPossible(c, op) && op.SeqDestroyAll?
    requires RenameIndex(c.w.db, op.uid, op.now).Some? && OwnedBy(c.w, id, op.uid)
    ensures Gone(Apply(ttl, c, op), id)
  {
    AtOnceIsDestroyAll(ttl, c.w, op.job, op.uid, op.now);
    assert LiveNow(c.w, id) ==> Indexed(c.w, id);
  }

  lemma GoneAfterBulkDestroy(ttl: nat, c: Client, op: Op, later: seq<Op>, id: string, now: nat)
    requires Consistent(ttl, c) && op.SeqDestroyAll? && RenameIndex(c.w.db, op.uid, op.now).Some? &&
              OwnedBy(c.w, id, op.uid)
    requires Applies(ttl, c, [op] + later) && Finally(ttl, c, [op] + later).w.now <= now
    ensures var c' := Finally(ttl, c, [op] + later);
            GetSession(c'.w.db, c'.cache, id, now, true).0 == Err(SessionNotFound)
  {
    assert OpPossible(c, op) by { assert ([op] + later)[0] == op; }
    assert Gone(Apply(ttl, c, op), id) by { DestroyAllLeavesNone(ttl, c, op, id); }
    GoneAfter(ttl, c, op, later, id, now);
  }

  /** ... nor after a bulk destroy whose RENAME went through, for any session the user had. */
  lemma NoGetAfterBulkDestroy(ttl: nat, c: Client, before: seq<Op>, op: Op, later: seq<Op>, c': Client, id: string,
                              now: nat)
    requires Applies(ttl, FRESH, before) && c == Finally(ttl, FRESH, before)
    requires op.SeqDestroyAll? && RenameIndex(c.w.db, op.uid, op.now).Some? && OwnedBy(c.w, id, op.uid)
    requires Applies(ttl, c, [op] + later) && c' == Finally(ttl, c, [op] + later) && c'.w.now <= now
    ensures GetSession(c'.w.db, c'.cache, id, now, true).0 == Err(SessionNotFound)
  {
    assert Consistent(ttl, c) by { ReachedIsConsistent(ttl, before); }
    GoneAfterBulkDestroy(ttl, c, op, later, id, now);
  }

  // The session is dead in Redis, and its cache entry, if any is left, is the one of `earlier`.
  predicate Fading(earlier: map<string, Cached>, c: Client, id: string) {
    && id in c.w.log && !LiveNow(c.w, id)
    && (id in c.cache ==> id in earlier && c.cache[id] == earlier[id])
  }

  lemma FadingStays(ttl: nat, earlier: map<string, Cached>, c: Client, op: Op, id: string)
    requires Consistent(ttl, c) && OpPossible(c, op) && Fading(earlier, c, id)
    ensures Fading(earlier, Apply(ttl, c, op), id)
  {
    ApplyKeepsDead(ttl, c, op, id);
    if id in Apply(ttl, c, op).cache {
      ApplyKeepsEntry(ttl, c, op, id);
    }
  }

  lemma {:induction false} FadingForGood(ttl: nat, earlier: map<string, Cached>, c: Client, ops: seq<Op>, id: string)
    requires Consistent(ttl, c) && Applies(ttl, c, ops) && Fading(earlier, c, id)
    ensures Fading(earlier, Finally(ttl, c, ops), id)
    decreases |ops|
  {
    if ops == [] {
    } else {
      ApplyConsistent(ttl, c, ops[0]);
      FadingStays(ttl, earlier, c, ops[0], id);
      FadingForGood(ttl, earlier, Apply(ttl, c, ops[0]), ops[1..], id);
    }
  }

  lemma NoIndexFades(ttl: nat, c: Client, op: Op, id: string)
    requires Consistent(ttl, c) && OpPossible(c, op) && op.SeqDestroyAll?
    requires RenameIndex(c.w.db, op.uid, op.now).None? && OwnedBy(c.w, id, op.uid)
    ensures Fading(c.cache, Apply(ttl, c, op), id)
  {
    AtOnceIsDestroyAll(ttl, c.w, op.job, op.uid, op.now);
    assert LiveNow(c.w, id) ==> Indexed(c.w, id);
  }

  lemma FadingGet(earlier: map<string, Cached>, c: Client, id: string, now: nat)
    requires Fading(earlier, c, id) && c.w.now <= now
    ensures !Live(c.w.db, id, now)
    ensures GetSession(c.w.db, c.cache, id, now, true).0.Ok? <==> CacheLookup(c.cache, id, now).Some?
    ensures id in earlier && earlier[id].expiry <= now ==>
              GetSession(c.w.db, c.cache, id, now, true).0 == Err(SessionNotFound)
  {
  }

  lemma FadesInRun(ttl: nat, c: Client, op: Op, later: seq<Op>, id: string)
    requires Consistent(ttl, c) && OpPossible(c, op) && op.SeqDestroyAll?
    requires RenameIndex(c.w.db, op.uid, op.now).None? && OwnedBy(c.w, id, op.uid)
    requires Applies(ttl, c, [op] + later)
    ensures Fading(c.cache, Finally(ttl, c, [op] + later), id)
  {
    var ops := [op] + later;
    assert ops[0] == op && ops[1..] == later;
    ApplyConsistent(ttl, c, op);
    NoIndexFades(ttl, c, op, id);
    FadingForGood(ttl, c.cache, Apply(ttl, c, op), later, id);
  }

  /**
    When RENAME finds no index, nothing of the user is alive in Redis and the cache is left alone:
    whatever happens afterwards, a get succeeds exactly while an unexpired entry is still cached,
    and that entry is the one from before, so no get succeeds after the expiry it had then.
   */
  lemma BulkDestroyWithoutIndex(ttl: nat, c: Client, before: seq<Op>, op: Op, later: seq<Op>, c': Client, id: string,
                                now: nat)
    requires Applies(ttl, FRESH, before) && c == Finally(ttl, FRESH, before)
    requires op.SeqDestroyAll? && RenameIndex(c.w.db, op.uid, op.now).None? && OwnedBy(c.w, id, op.uid)
    requires Applies(ttl, c, [op] + later) && c' == Finally(ttl, c, [op] + later) && c'.w.now <= now
    ensures !Live(c'.w.db, id, now)
    ensures GetSession(c'.w.db, c'.cache, id, now, true).0.Ok? <==> CacheLookup(c'.cache, id, now).Some?
    ensures id in c'.cache ==> id in c.cache && c'.cache[id] == c.cache[id]
    ensures id in c.cache && c.cache[id].expiry <= now ==>
              GetSession(c'.w.db, c'.cache, id, now, true).0 == Err(SessionNotFound)
  {
    assert Fading(c.cache, c', id) by {
      ReachedIsConsistent(ttl, before);
      assert ([op] + later)[0] == op;
      FadesInRun(ttl, c, op, later, id);
    }
    FadingGet(c.cache, c', id, now);
  }

  /** Such a hit happens: cached just before its 900 s ran out, a session outlives the bulk destroy. */
  lemma StaleHitAfterBulkDestroy(s: Session)
    ensures var c1 := Apply(900, FRESH, SeqCreate("id", s, 0));
            var c2 := Apply(900, c1, SeqGet("id", 899_000));
            var c3 := Apply(900, c2, SeqDestroyAll(s.userId, 0, 901_000));
            GetSession(c3.w.db, c3.cache, "id", 901_000, true).0 == Ok(s)
  {
    var c1 := Apply(900, FRESH, SeqCreate("id", s, 0));
    assert c1.w.db.sessions["id"] == Present(s, Some(900_000));
    assert c1.w.db.index[s.userId].expireAt == Some(900_000);
    var c2 := Apply(900, c1, SeqGet("id", 899_000));
    assert CacheLookup(c2.cache, "id", 901_000) == Some(s);
  }
}
