/**
  The session store under interleaved clients: creates, logouts and bulk destroys, each bulk destroy
  running as the four separate commands it is. A user may have any number of them in flight, all
  sharing the user's one temporary key.
 */
module SessionRuns {
  import opened Basics
  import opened RedisKeys
  import opened Sessions

  datatype Phase = Renamed | Listed(ids: set<string>) | Dropped(ids: set<string>)

  // A bulk destroy in flight, after its RENAME went through.
  datatype Job = Job(uid: string, phase: Phase)

  // What a session was created as.
  datatype Birth = Birth(session: Session, expireAt: nat)

  // `movedBy` tells which job's RENAME took a session out of the index.
  datatype World = World(db: Db, log: map<string, Birth>, loggedOut: set<string>, purged: set<string>,
                         jobs: map<nat, Job>, ended: set<nat>, movedBy: map<string, nat>, now: nat)

  const START := World(Db(map[], map[], map[]), map[], {}, {}, map[], {}, map[], 0)

  datatype Event =
    | Create(id: string, session: Session, now: nat)
    | Logout(id: string, now: nat)
    | Rename(job: nat, uid: string, now: nat)
    | List(job: nat, now: nat)
    | DropTemp(job: nat, now: nat)
    | DeleteKeys(job: nat, now: nat)

  /** Session ids are fresh UUIDs; job names are only labels. */
  predicate Possible(w: World, e: Event) {
    && w.now <= e.now
    && match e
       case Create(id, _, _) => id !in w.log
       case Logout(_, _) => true
       case Rename(j, _, _) => j !in w.jobs && j !in w.ended
       case List(j, _) => j in w.jobs && w.jobs[j].phase.Renamed?
       case DropTemp(j, _) => j in w.jobs && w.jobs[j].phase.Listed?
       case DeleteKeys(j, _) => j in w.jobs && w.jobs[j].phase.Dropped?
  }

  function Step(ttl: nat, w: World, e: Event): World
    requires Possible(w, e)
  {
    match e
    case Create(id, s, now) =>
      w.(db := CreateScript(w.db, id, s, ttl, now), log := w.log[id := Birth(s, now + ttl * 1000)], now := now)
    case Logout(id, now) =>
      w.(db := DestroyScript(w.db, id, now), loggedOut := w.loggedOut + (if id in w.log then {id} else {}), now := now)
    case Rename(j, uid, now) =>
      var renamed := RenameIndex(w.db, uid, now);
      if renamed.None? then w.(now := now)
      else
        var moved := MembersOf(Fetch(w.db.index, uid, now));
        w.(db := renamed.value, jobs := w.jobs[j := Job(uid, Renamed)],
           movedBy := w.movedBy + map id | id in moved :: j, now := now)
    case List(j, now) =>
      w.(jobs := w.jobs[j := Job(w.jobs[j].uid, Listed(ListDestroying(w.db, w.jobs[j].uid, now)))], now := now)
    case DropTemp(j, now) =>
      w.(db := DropDestroying(w.db, w.jobs[j].uid),
         jobs := w.jobs[j := Job(w.jobs[j].uid, Dropped(w.jobs[j].phase.ids))],
         now := now)
    case DeleteKeys(j, now) =>
      w.(db := DeleteSessions(w.db, w.jobs[j].phase.ids), purged := w.purged + w.jobs[j].phase.ids,
         jobs := w.jobs - {j}, ended := w.ended + {j}, now := now)
  }

  ghost predicate Valid(ttl: nat, w: World, events: seq<Event>)
    decreases |events|
  {
    events == [] || (Possible(w, events[0]) && Valid(ttl, Step(ttl, w, events[0]), events[1..]))
  }

  ghost function Run(ttl: nat, w: World, events: seq<Event>): World
    requires Valid(ttl, w, events)
    decreases |events|
  {
    if events == [] then w else Run(ttl, Step(ttl, w, events[0]), events[1..])
  }

  predicate LiveNow(w: World, id: string) { Live(w.db, id, w.now) }

  predicate OwnedBy(w: World, id: string, uid: string) { id in w.log && w.log[id].session.userId == uid }

  /** In the set stored under the user's key, and that set lives at least as long as the session. */
  predicate InSet(w: World, keys: Keyspace<set<string>>, uid: string, id: string)
    requires id in w.log
  {
    && uid in keys && keys[uid].Present? && id in keys[uid].value
    && keys[uid].expireAt.Some? && w.log[id].expireAt <= keys[uid].expireAt.value
  }

  predicate Indexed(w: World, id: string)
    requires id in w.log
  {
    InSet(w, w.db.index, w.log[id].session.userId, id)
  }

  // ---- what every step keeps, bulk destroys overlapping or not --------------------------------

  // The log tells exactly what is stored under every id ever issued.
  ghost predicate Logged(ttl: nat, w: World) {
    && w.db.sessions.Keys <= w.log.Keys && w.loggedOut + w.purged <= w.log.Keys
    && (forall id :: id in w.log ==> w.log[id].expireAt <= w.now + ttl * 1000)
    && (forall id :: id in w.log ==>
          if id in w.loggedOut || id in w.purged then id !in w.db.sessions
          else id in w.db.sessions && w.db.sessions[id] == Present(w.log[id].session, Some(w.log[id].expireAt)))
  }

  ghost predicate SetsOwned(w: World, keys: Keyspace<set<string>>) {
    forall uid :: uid in keys ==>
      && keys[uid].Present? && keys[uid].expireAt.Some?
      && forall id :: id in keys[uid].value ==> OwnedBy(w, id, uid)
  }

  // Only sessions that have not been moved are in an index set ...
  ghost predicate IndexUnmoved(w: World) {
    forall uid, id :: uid in w.db.index && id in MembersOf(w.db.index[uid]) ==> id !in w.movedBy
  }

  // ... and only moved ones are in a temporary key ...
  ghost predicate TemporaryMoved(w: World) {
    forall uid, id :: uid in w.db.destroying && id in MembersOf(w.db.destroying[uid]) ==> id in w.movedBy
  }

  // ... or listed by a job or purged.
  ghost predicate ListedMoved(w: World) {
    forall j, id :: j in w.jobs && !w.jobs[j].phase.Renamed? && id in w.jobs[j].phase.ids ==>
      id in w.movedBy && OwnedBy(w, id, w.jobs[j].uid)
  }

  ghost predicate MovedOnce(w: World) {
    && w.movedBy.Keys <= w.log.Keys && w.purged <= w.movedBy.Keys
    && (forall id :: id in w.movedBy ==> w.movedBy[id] in w.jobs || w.movedBy[id] in w.ended)
    && IndexUnmoved(w) && TemporaryMoved(w) && ListedMoved(w)
  }

  // Alive means indexed, until a bulk destroy moves it.
  ghost predicate Complete(w: World) {
    forall id :: id in w.log && LiveNow(w, id) && id !in w.movedBy ==> Indexed(w, id)
  }

  ghost predicate Sound(ttl: nat, w: World) {
    && Logged(ttl, w)
    && SetsOwned(w, w.db.index) && SetsOwned(w, w.db.destroying)
    && MovedOnce(w)
    && Complete(w)
    && w.jobs.Keys !! w.ended
  }

  lemma StepLogged(ttl: nat, w: World, e: Event)
    requires Sound(ttl, w) && Possible(w, e)
    ensures Logged(ttl, Step(ttl, w, e))
  {
  }

  lemma OwnersStay(ttl: nat, w: World, e: Event)
    requires Possible(w, e)
    ensures forall uid, id :: OwnedBy(w, id, uid) ==> OwnedBy(Step(ttl, w, e), id, uid)
  {
  }

  lemma StepIndexOwned(ttl: nat, w: World, e: Event)
    requires Sound(ttl, w) && Possible(w, e)
    ensures SetsOwned(Step(ttl, w, e), Step(ttl, w, e).db.index)
  {
    OwnersStay(ttl, w, e);
  }

  lemma StepDestroyingOwned(ttl: nat, w: World, e: Event)
    requires Sound(ttl, w) && Possible(w, e)
    ensures SetsOwned(Step(ttl, w, e), Step(ttl, w, e).db.destroying)
  {
    OwnersStay(ttl, w, e);
  }

  lemma StepIndexUnmoved(ttl: nat, w: World, e: Event)
    requires Sound(ttl, w) && Possible(w, e)
    ensures IndexUnmoved(Step(ttl, w, e))
  {
  }

  lemma StepTemporaryMoved(ttl: nat, w: World, e: Event)
    requires Sound(ttl, w) && Possible(w, e)
    ensures TemporaryMoved(Step(ttl, w, e))
  {
  }

  lemma StepListedMoved(ttl: nat, w: World, e: Event)
    requires Sound(ttl, w) && Possible(w, e)
    ensures ListedMoved(Step(ttl, w, e))
  {
    OwnersStay(ttl, w, e);
  }

  lemma StepMovedOnce(ttl: nat, w: World, e: Event)
    requires Sound(ttl, w) && Possible(w, e)
    ensures MovedOnce(Step(ttl, w, e))
  {
    StepIndexUnmoved(ttl, w, e);
    StepTemporaryMoved(ttl, w, e);
    StepListedMoved(ttl, w, e);
  }

  lemma StaysIndexedThroughScripts(ttl: nat, w: World, e: Event, id: string)
    requires Sound(ttl, w) && Possible(w, e) && id in w.log && LiveNow(w, id) && Indexed(w, id)
    requires e.Create? || e.Logout?
    requires LiveNow(Step(ttl, w, e), id)
    ensures Indexed(Step(ttl, w, e), id)
  {
  }

  lemma StaysIndexed(ttl: nat, w: World, e: Event, id: string)
    requires Sound(ttl, w) && Possible(w, e) && id in w.log && LiveNow(w, id) && Indexed(w, id)
    requires LiveNow(Step(ttl, w, e), id) && id !in Step(ttl, w, e).movedBy
    ensures Indexed(Step(ttl, w, e), id)
  {
    if e.Create? || e.Logout? {
      StaysIndexedThroughScripts(ttl, w, e, id);
    }
  }

  lemma StepComplete(ttl: nat, w: World, e: Event)
    requires Sound(ttl, w) && Possible(w, e)
    ensures Complete(Step(ttl, w, e))
  {
    var w' := Step(ttl, w, e);
    forall id | id in w'.log && LiveNow(w', id) && id !in w'.movedBy ensures Indexed(w', id) {
      if id in w.log {
        assert LiveNow(w, id);
        StaysIndexed(ttl, w, e, id);
      }
    }
  }

  lemma StepSound(ttl: nat, w: World, e: Event)
    requires Sound(ttl, w) && Possible(w, e)
    ensures Sound(ttl, Step(ttl, w, e))
  {
    StepLogged(ttl, w, e);
    StepIndexOwned(ttl, w, e);
    StepDestroyingOwned(ttl, w, e);
    StepMovedOnce(ttl, w, e);
    StepComplete(ttl, w, e);
  }

  lemma {:induction false} RunSound(ttl: nat, w: World, events: seq<Event>)
    requires Sound(ttl, w) && Valid(ttl, w, events)
    ensures Sound(ttl, Run(ttl, w, events))
    decreases |events|
  {
    if events == [] {
    } else {
      StepSound(ttl, w, events[0]);
      RunSound(ttl, Step(ttl, w, events[0]), events[1..]);
    }
  }

  lemma {:induction false} RunSplit(ttl: nat, w: World, a: seq<Event>, b: seq<Event>)
    requires Valid(ttl, w, a + b)
    ensures Valid(ttl, w, a) && Valid(ttl, Run(ttl, w, a), b)
    ensures Run(ttl, w, a + b) == Run(ttl, Run(ttl, w, a), b)
    decreases |a|
  {
    if a == [] {
      assert a + b == b;
    } else {
      assert (a + b)[0] == a[0] && (a + b)[1..] == a[1..] + b;
      RunSplit(ttl, Step(ttl, w, a[0]), a[1..], b);
    }
  }

  lemma {:induction false} LogGrows(ttl: nat, w: World, events: seq<Event>)
    requires Valid(ttl, w, events)
    ensures forall id :: id in w.log ==> id in Run(ttl, w, events).log && Run(ttl, w, events).log[id] == w.log[id]
    ensures w.now <= Run(ttl, w, events).now
    decreases |events|
  {
    if events == [] {
    } else {
      LogGrows(ttl, Step(ttl, w, events[0]), events[1..]);
    }
  }

  lemma StepKeepsDead(ttl: nat, w: World, e: Event, id: string)
    requires Sound(ttl, w) && Possible(w, e) && id in w.log && !LiveNow(w, id)
    ensures id in Step(ttl, w, e).log && !LiveNow(Step(ttl, w, e), id)
  {
  }

  lemma {:induction false} DeadStaysDead(ttl: nat, w: World, events: seq<Event>, id: string)
    requires Sound(ttl, w) && Valid(ttl, w, events)
    requires id in w.log && !LiveNow(w, id)
    ensures !LiveNow(Run(ttl, w, events), id)
    decreases |events|
  {
    if events == [] {
    } else {
      StepSound(ttl, w, events[0]);
      StepKeepsDead(ttl, w, events[0], id);
      DeadStaysDead(ttl, Step(ttl, w, events[0]), events[1..], id);
    }
  }

  // ---- one bulk destroy per user at a time ----------------------------------------------------

  predicate Alone(w: World, e: Event) {
    e.Rename? ==> forall j :: j in w.jobs ==> w.jobs[j].uid != e.uid
  }

  ghost predicate AllAlone(ttl: nat, w: World, events: seq<Event>)
    requires Valid(ttl, w, events)
    decreases |events|
  {
    events == [] || (Alone(w, events[0]) && AllAlone(ttl, Step(ttl, w, events[0]), events[1..]))
  }

  /** In the set that job `j` is going to delete. */
  predicate Targeted(w: World, id: string, j: nat)
    requires id in w.log
  {
    && j in w.jobs && w.jobs[j].uid == w.log[id].session.userId
    && if w.jobs[j].phase.Renamed? then InSet(w, w.db.destroying, w.jobs[j].uid, id) else id in w.jobs[j].phase.ids
  }

  ghost predicate OnePerUser(w: World) {
    forall j, k :: j in w.jobs && k in w.jobs && w.jobs[j].uid == w.jobs[k].uid ==> j == k
  }

  // Every live session a job has moved, that job still has in hand.
  ghost predicate InHand(w: World)
    requires w.movedBy.Keys <= w.log.Keys
  {
    forall id :: id in w.movedBy && LiveNow(w, id) ==> Targeted(w, id, w.movedBy[id])
  }

  ghost predicate SoundAlone(ttl: nat, w: World) { Sound(ttl, w) && OnePerUser(w) && InHand(w) }

  lemma StaysTargeted(ttl: nat, w: World, e: Event, id: string)
    requires SoundAlone(ttl, w) && Possible(w, e) && Alone(w, e)
    requires id in w.movedBy && Targeted(w, id, w.movedBy[id]) && LiveNow(Step(ttl, w, e), id)
    requires Step(ttl, w, e).movedBy[id] == w.movedBy[id]
    ensures Targeted(Step(ttl, w, e), id, w.movedBy[id])
  {
  }

  lemma MovedNow(ttl: nat, w: World, e: Event, id: string)
    requires Sound(ttl, w) && Possible(w, e) && id in Step(ttl, w, e).movedBy
    ensures id in w.movedBy ==> Step(ttl, w, e).movedBy[id] == w.movedBy[id]
    ensures id !in w.movedBy ==> e.Rename? && Step(ttl, w, e).movedBy[id] == e.job
    ensures id !in w.movedBy && LiveNow(Step(ttl, w, e), id) ==> Targeted(Step(ttl, w, e), id, e.job)
  {
    if id !in w.movedBy && LiveNow(Step(ttl, w, e), id) {
      assert LiveNow(w, id) && Indexed(w, id);
    }
  }

  lemma StepOnePerUser(ttl: nat, w: World, e: Event)
    requires OnePerUser(w) && Possible(w, e) && Alone(w, e)
    ensures OnePerUser(Step(ttl, w, e))
  {
  }

  lemma StepKeepsInHand(ttl: nat, w: World, e: Event, id: string)
    requires SoundAlone(ttl, w) && Possible(w, e) && Alone(w, e)
    requires id in Step(ttl, w, e).movedBy && LiveNow(Step(ttl, w, e), id)
    ensures id in Step(ttl, w, e).log && Targeted(Step(ttl, w, e), id, Step(ttl, w, e).movedBy[id])
  {
    MovedNow(ttl, w, e, id);
    if id in w.movedBy {
      assert LiveNow(w, id);
      StaysTargeted(ttl, w, e, id);
    }
  }

  lemma StepSoundAlone(ttl: nat, w: World, e: Event)
    requires SoundAlone(ttl, w) && Possible(w, e) && Alone(w, e)
    ensures SoundAlone(ttl, Step(ttl, w, e))
  {
    StepSound(ttl, w, e);
    StepOnePerUser(ttl, w, e);
    var w' := Step(ttl, w, e);
    forall id | id in w'.movedBy && LiveNow(w', id) ensures Targeted(w', id, w'.movedBy[id]) {
      StepKeepsInHand(ttl, w, e, id);
    }
  }

  lemma {:induction false} RunSoundAlone(ttl: nat, w: World, events: seq<Event>)
    requires SoundAlone(ttl, w) && Valid(ttl, w, events) && AllAlone(ttl, w, events)
    ensures SoundAlone(ttl, Run(ttl, w, events))
    decreases |events|
  {
    if events == [] {
    } else {
      StepSoundAlone(ttl, w, events[0]);
      RunSoundAlone(ttl, Step(ttl, w, events[0]), events[1..]);
    }
  }

  lemma StartIsSoundAlone(ttl: nat)
    ensures SoundAlone(ttl, START)
  {
  }

  lemma {:induction false} AloneSplit(ttl: nat, w: World, a: seq<Event>, b: seq<Event>)
    requires Valid(ttl, w, a + b) && AllAlone(ttl, w, a + b)
    ensures Valid(ttl, w, a) && Valid(ttl, Run(ttl, w, a), b)
    ensures AllAlone(ttl, w, a) && AllAlone(ttl, Run(ttl, w, a), b)
    decreases |a|
  {
    if a == [] {
      assert a + b == b;
    } else {
      assert (a + b)[0] == a[0] && (a + b)[1..] == a[1..] + b;
      AloneSplit(ttl, Step(ttl, w, a[0]), a[1..], b);
    }
  }

  /**
    Index completeness. Under any interleaving a live session is what was created under its id and,
    until a bulk destroy moves it, is in its owner's set, which outlives it. With one bulk destroy
    per user at a time, a moved one that is still alive is about to be deleted.
   */
  lemma EveryLiveSessionIsIndexed(ttl: nat, events: seq<Event>, id: string)
    requires Valid(ttl, START, events)
    requires LiveNow(Run(ttl, START, events), id)
    ensures var w := Run(ttl, START, events);
            && id in w.log && w.db.sessions[id].value == w.log[id].session
            && (id in w.movedBy || Indexed(w, id))
            && (AllAlone(ttl, START, events) ==> Indexed(w, id) || Targeted(w, id, w.movedBy[id]))
            && (AllAlone(ttl, START, events) && w.jobs == map[] ==>
                  id in MembersOf(Fetch(w.db.index, w.log[id].session.userId, w.now)))
  {
    StartIsSoundAlone(ttl);
    RunSound(ttl, START, events);
    if AllAlone(ttl, START, events) {
      RunSoundAlone(ttl, START, events);
    }
  }

  // Nothing of `uid` that was born after the log stood at `before` has been moved.
  ghost predicate SparesNewborns(w: World, uid: string, before: set<string>) {
    forall id :: id in w.movedBy && OwnedBy(w, id, uid) ==> id in before
  }

  lemma NewlyMovedIsOthers(ttl: nat, w: World, e: Event, job: nat, id: string)
    requires SoundAlone(ttl, w) && Possible(w, e) && Alone(w, e)
    requires job in w.jobs && id in Step(ttl, w, e).movedBy && OwnedBy(Step(ttl, w, e), id, w.jobs[job].uid)
    ensures id in w.movedBy && OwnedBy(w, id, w.jobs[job].uid)
  {
  }

  lemma {:induction false} RunSparesNewborns(ttl: nat, w: World, events: seq<Event>, job: nat, uid: string,
                                             before: set<string>)
    requires SoundAlone(ttl, w) && Valid(ttl, w, events) && AllAlone(ttl, w, events) && SparesNewborns(w, uid, before)
    requires job in w.jobs && w.jobs[job].uid == uid
    requires forall e :: e in events && e.DeleteKeys? ==> e.job != job
    ensures SparesNewborns(Run(ttl, w, events), uid, before)
    ensures job in Run(ttl, w, events).jobs && Run(ttl, w, events).jobs[job].uid == uid
    decreases |events|
  {
    if events == [] {
    } else {
      var w' := Step(ttl, w, events[0]);
      assert events[0] in events;
      StepSoundAlone(ttl, w, events[0]);
      forall id | id in w'.movedBy && OwnedBy(w', id, uid) ensures id in before {
        NewlyMovedIsOthers(ttl, w, events[0], job, id);
      }
      RunSparesNewborns(ttl, w', events[1..], job, uid, before);
    }
  }

  /**
    A bulk destroy whose RENAME went through, with any other clients between its commands and no
    second bulk destroy of the same user in flight: when it completes, every session the user had
    at the RENAME is dead, and every session the user got since is alive and indexed unless it
    expired or was logged out.
   */
  lemma BulkDestroyIsExact(ttl: nat, w: World, pre: seq<Event>, job: nat, uid: string, now: nat, mid: seq<Event>,
                           end: nat)
    requires Valid(ttl, START, pre) && AllAlone(ttl, START, pre) && w == Run(ttl, START, pre)
    requires RenameIndex(w.db, uid, now).Some?
    requires Valid(ttl, w, [Rename(job, uid, now)] + (mid + [DeleteKeys(job, end)]))
    requires AllAlone(ttl, w, [Rename(job, uid, now)] + (mid + [DeleteKeys(job, end)]))
    requires forall e :: e in mid && e.DeleteKeys? ==> e.job != job
    ensures var done := Run(ttl, w, [Rename(job, uid, now)] + (mid + [DeleteKeys(job, end)]));
            && (forall id :: OwnedBy(w, id, uid) ==> id in done.log && !LiveNow(done, id))
            && (forall id :: OwnedBy(done, id, uid) && id !in w.log && id !in done.loggedOut
                       && done.now < done.log[id].expireAt
                  ==> LiveNow(done, id) && Indexed(done, id))
  {
    var first, last := Rename(job, uid, now), DeleteKeys(job, end);
    assert SoundAlone(ttl, w) by {
      StartIsSoundAlone(ttl);
      RunSoundAlone(ttl, START, pre);
    }
    FirstMidLast(ttl, w, first, mid, last);
    ExactFromRename(ttl, w, first, mid, last);
  }

  lemma FirstMidLast(ttl: nat, w: World, first: Event, mid: seq<Event>, last: Event)
    requires Valid(ttl, w, [first] + (mid + [last])) && AllAlone(ttl, w, [first] + (mid + [last]))
    ensures Possible(w, first) && Alone(w, first)
    ensures Valid(ttl, Step(ttl, w, first), mid) && AllAlone(ttl, Step(ttl, w, first), mid)
    ensures var w1 := Run(ttl, Step(ttl, w, first), mid);
            Possible(w1, last) && Run(ttl, w, [first] + (mid + [last])) == Step(ttl, w1, last)
  {
    var all := [first] + (mid + [last]);
    assert all[0] == first && all[1..] == mid + [last];
    var w0 := Step(ttl, w, first);
    RunSplit(ttl, w0, mid, [last]);
    AloneSplit(ttl, w0, mid, [last]);
    assert [last][0] == last && [last][1..] == [];
  }

  lemma ExactFromRename(ttl: nat, w: World, first: Event, mid: seq<Event>, last: Event)
    requires SoundAlone(ttl, w) && first.Rename? && RenameIndex(w.db, first.uid, first.now).Some?
    requires Possible(w, first) && Alone(w, first)
    requires Valid(ttl, Step(ttl, w, first), mid) && AllAlone(ttl, Step(ttl, w, first), mid)
    requires Possible(Run(ttl, Step(ttl, w, first), mid), last) && last.DeleteKeys? && last.job == first.job
    requires forall e :: e in mid && e.DeleteKeys? ==> e.job != first.job
    ensures var done := Step(ttl, Run(ttl, Step(ttl, w, first), mid), last);
            && (forall id :: OwnedBy(w, id, first.uid) ==> id in done.log && !LiveNow(done, id))
            && (forall id :: OwnedBy(done, id, first.uid) && id !in w.log && id !in done.loggedOut
                       && done.now < done.log[id].expireAt
                  ==> LiveNow(done, id) && Indexed(done, id))
  {
    var w0 := Step(ttl, w, first);
    var w1 := Run(ttl, w0, mid);
    StepSoundAlone(ttl, w, first);
    RunSparesNewborns(ttl, w0, mid, first.job, first.uid, w.log.Keys);
    RunSoundAlone(ttl, w0, mid);
    forall id | OwnedBy(w, id, first.uid)
      ensures OwnedBy(w1, id, first.uid) && (id in w1.movedBy || !LiveNow(w1, id))
    {
      MovedOrDead(ttl, w, first.job, first.uid, first.now, mid, id);
    }
    Completion(ttl, w1, w.log.Keys, first.uid, last);
  }

  lemma MovedOrDead(ttl: nat, w: World, job: nat, uid: string, now: nat, mid: seq<Event>, id: string)
    requires Sound(ttl, w) && OwnedBy(w, id, uid) && RenameIndex(w.db, uid, now).Some?
    requires Possible(w, Rename(job, uid, now)) && Valid(ttl, Step(ttl, w, Rename(job, uid, now)), mid)
    ensures var w1 := Run(ttl, Step(ttl, w, Rename(job, uid, now)), mid);
            OwnedBy(w1, id, uid) && (id in w1.movedBy || !LiveNow(w1, id))
  {
    var w0 := Step(ttl, w, Rename(job, uid, now));
    StepSound(ttl, w, Rename(job, uid, now));
    LogGrows(ttl, w0, mid);
    if LiveNow(w0, id) {
      assert LiveNow(w, id);
      MovedStays(ttl, w0, mid, id);
    } else {
      DeadStaysDead(ttl, w0, mid, id);
    }
  }

  lemma {:induction false} MovedStays(ttl: nat, w: World, events: seq<Event>, id: string)
    requires Sound(ttl, w) && Valid(ttl, w, events) && id in w.movedBy
    ensures id in Run(ttl, w, events).movedBy && Run(ttl, w, events).movedBy[id] == w.movedBy[id]
    decreases |events|
  {
    if events == [] {
    } else {
      MovedNow(ttl, w, events[0], id);
      StepSound(ttl, w, events[0]);
      MovedStays(ttl, Step(ttl, w, events[0]), events[1..], id);
    }
  }

  lemma Completion(ttl: nat, w: World, before: set<string>, uid: string, last: Event)
    requires SoundAlone(ttl, w) && Possible(w, last) && last.DeleteKeys? && w.jobs[last.job].uid == uid
    requires SparesNewborns(w, uid, before)
    ensures var done := Step(ttl, w, last);
            && (forall id :: OwnedBy(w, id, uid) && (id in w.movedBy || !LiveNow(w, id))
                  ==> id in done.log && !LiveNow(done, id))
            && (forall id :: OwnedBy(done, id, uid) && id !in before && id !in done.loggedOut
                       && done.now < done.log[id].expireAt
                  ==> LiveNow(done, id) && Indexed(done, id))
  {
    var done := Step(ttl, w, last);
    StepSoundAlone(ttl, w, last);
    forall id | OwnedBy(w, id, uid) && (id in w.movedBy || !LiveNow(w, id)) ensures !LiveNow(done, id) {
      assert id in w.movedBy && LiveNow(done, id) ==> Targeted(done, id, done.movedBy[id]);
    }
    forall id | OwnedBy(done, id, uid) && id !in before && id !in done.loggedOut && done.now < done.log[id].expireAt
      ensures LiveNow(done, id) && Indexed(done, id)
    {
      assert id !in done.movedBy;
      assert id !in done.purged;
    }
  }
}
