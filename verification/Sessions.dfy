/**
  The Redis session store of backend/cache/src/session.rs: session keys, one index set per user,
  and the in-process cache in front of them. Times are milliseconds.
 */
module Sessions {
  import opened Basics
  import opened RedisKeys

  datatype Session = Session(userId: string, email: string, name: Option<string>, provider: string, createdAt: nat)

  datatype Cached = Cached(expiry: nat, session: Session)

  datatype CacheError = CommandFailed | SessionNotFound

  const MAX_SESSION_CACHE_ENTRIES: nat := 100_000
  const SESSION_CACHE_TTL: nat := 300_000

  // session:<id>, user_sessions:<uid> and user_sessions:<uid>:destroying
  datatype Db = Db(sessions: Keyspace<Session>, index: Keyspace<set<string>>, destroying: Keyspace<set<string>>)

  function MembersOf(slot: Slot<set<string>>): set<string> {
    if slot.Present? then slot.value else {}
  }

  /** The create script: SET EX, SADD, EXPIRE. */
  function CreateScript(db: Db, id: string, s: Session, ttlSecs: nat, now: nat): Db {
    db.(sessions := db.sessions[id := SetEx(s, now, ttlSecs)],
        index := db.index[s.userId := SetEx(MembersOf(Fetch(db.index, s.userId, now)) + {id}, now, ttlSecs)])
  }

  /** SREM on a key; Redis deletes a set that becomes empty. */
  function SRem(keys: Keyspace<set<string>>, key: string, member: string, now: nat): Keyspace<set<string>> {
    var slot := Fetch(keys, key, now);
    if slot.Absent? then keys
    else if slot.value - {member} == {} then keys - {key}
    else keys[key := slot.(value := slot.value - {member})]
  }

  /** The destroy script: GET, SREM from the owner's set, DEL. */
  function DestroyScript(db: Db, id: string, now: nat): Db {
    var slot := Fetch(db.sessions, id, now);
    db.(sessions := db.sessions - {id},
        index := if slot.Present? then SRem(db.index, slot.value.userId, id, now) else db.index)
  }

  /** RENAME of the index to the temporary key, TTL included; an error when there is no index. */
  function RenameIndex(db: Db, uid: string, now: nat): Option<Db> {
    var slot := Fetch(db.index, uid, now);
    if slot.Absent? then None
    else Some(db.(index := db.index - {uid}, destroying := db.destroying[uid := slot]))
  }

  function ListDestroying(db: Db, uid: string, now: nat): set<string> {
    MembersOf(Fetch(db.destroying, uid, now))
  }

  function DropDestroying(db: Db, uid: string): Db {
    db.(destroying := db.destroying - {uid})
  }

  function DeleteSessions(db: Db, ids: set<string>): Db {
    db.(sessions := db.sessions - ids)
  }

  // Which commands of a bulk destroy fail.
  datatype Faults = Faults(rename: bool, smembers: bool, delTemp: bool, delSessions: bool)

  const NO_FAULTS := Faults(false, false, false, false)

  /** One bulk destroy run without interruption; second component: whether RENAME went through. */
  function DestroyAll(db: Db, uid: string, now: nat, faults: Faults): (Db, bool) {
    var renamed := if faults.rename then None else RenameIndex(db, uid, now);
    if renamed.None? then (db, false)
    else
      var ids := if faults.smembers then {} else ListDestroying(renamed.value, uid, now);
      var dropped := if faults.delTemp then renamed.value else DropDestroying(renamed.value, uid);
      (if faults.delSessions then dropped else DeleteSessions(dropped, ids), true)
  }

  function CacheLookup(cache: map<string, Cached>, id: string, now: nat): Option<Session> {
    if id in cache && now < cache[id].expiry then Some(cache[id].session) else None
  }

  function CachePut(cache: map<string, Cached>, id: string, s: Session, now: nat): map<string, Cached> {
    (if MAX_SESSION_CACHE_ENTRIES <= |cache| then map[] else cache)[id := Cached(now + SESSION_CACHE_TTL, s)]
  }

  function CacheWithoutUser(cache: map<string, Cached>, uid: string): map<string, Cached> {
    map id | id in cache && cache[id].session.userId != uid :: cache[id]
  }

  /** A get: reply and the cache afterwards. */
  function GetSession(db: Db, cache: map<string, Cached>, id: string, now: nat, redisUp: bool)
    : (Result<Session, CacheError>, map<string, Cached>)
  {
    var hit := CacheLookup(cache, id, now);
    var swept := if hit.None? then cache - {id} else cache;
    if hit.Some? then (Ok(hit.value), swept)
    else if !redisUp then (Err(CommandFailed), swept)
    else
      var slot := Fetch(db.sessions, id, now);
      if slot.Present? then (Ok(slot.value), CachePut(swept, id, slot.value, now))
      else (Err(SessionNotFound), swept)
  }

  /** One process's client: its share of Redis and its own cache. */
  class SessionClient {
    var sessions: Keyspace<Session>
    var index: Keyspace<set<string>>
    var destroying: Keyspace<set<string>>
    var cache: map<string, Cached>

    function Store(): Db
      reads this
    {
      Db(sessions, index, destroying)
    }

    constructor ()
      ensures Store() == Db(map[], map[], map[]) && cache == map[]
    {
      sessions, index, destroying, cache := map[], map[], map[], map[];
    }

    method SessionCacheGet(id: string, now: nat) returns (hit: Option<Session>)
      modifies this`cache
      ensures hit == CacheLookup(old(cache), id, now)
      ensures cache == if hit.None? then old(cache) - {id} else old(cache)
    {
      if id in cache {
        if now < cache[id].expiry {
          return Some(cache[id].session);
        }
        cache := cache - {id};
        return None;
      }
      assert cache - {id} == cache;
      return None;
    }

    method SessionCachePut(id: string, s: Session, now: nat)
      modifies this`cache
      ensures cache == CachePut(old(cache), id, s, now)
      ensures |old(cache)| <= MAX_SESSION_CACHE_ENTRIES ==> |cache| <= MAX_SESSION_CACHE_ENTRIES
    {
      if MAX_SESSION_CACHE_ENTRIES <= |cache| {
        cache := map[];
      }
      CacheGrowsByOne(cache, id, Cached(now + SESSION_CACHE_TTL, s));
      cache := cache[id := Cached(now + SESSION_CACHE_TTL, s)];
    }

    method SessionCreate(newId: string, s: Session, ttlSecs: nat, now: nat, redisUp: bool)
      returns (r: Result<string, CacheError>)
      modifies this`sessions, this`index
      ensures r == if redisUp && 0 < ttlSecs then Ok(newId) else Err(CommandFailed)
      ensures Store() == if r.Ok? then CreateScript(old(Store()), newId, s, ttlSecs, now) else old(Store())
    {
      // SET with EX 0 is an error, and nothing of the script has run by then
      if !redisUp || ttlSecs == 0 {
        return Err(CommandFailed);
      }
      sessions := sessions[newId := SetEx(s, now, ttlSecs)];
      var slot := Fetch(index, s.userId, now);
      slot := if slot.Present? then slot.(value := slot.value + {newId}) else Present({newId}, None);
      slot := Expire(slot, now, ttlSecs);
      assert MembersOf(Fetch(index, s.userId, now)) + {newId} == slot.value;
      index := index[s.userId := slot];
      return Ok(newId);
    }

    method SessionGet(id: string, now: nat, redisUp: bool) returns (r: Result<Session, CacheError>)
      modifies this`cache
      ensures (r, cache) == GetSession(old(Store()), old(cache), id, now, redisUp)
    {
      var hit := SessionCacheGet(id, now);
      if hit.Some? {
        return Ok(hit.value);
      }
      if !redisUp {
        return Err(CommandFailed);
      }
      var slot := Fetch(sessions, id, now);
      if slot.Present? {
        SessionCachePut(id, slot.value, now);
        return Ok(slot.value);
      }
      return Err(SessionNotFound);
    }

    method SessionDestroy(id: string, now: nat, redisUp: bool) returns (r: Result<(), CacheError>)
      modifies this`sessions, this`index, this`cache
      ensures r == if redisUp then Ok(()) else Err(CommandFailed)
      ensures Store() == if redisUp then DestroyScript(old(Store()), id, now) else old(Store())
      ensures cache == if redisUp then old(cache) - {id} else old(cache)
    {
      if !redisUp {
        return Err(CommandFailed);
      }
      var slot := Fetch(sessions, id, now);
      if slot.Present? {
        index := SRem(index, slot.value.userId, id, now);
      }
      sessions := sessions - {id};
      cache := cache - {id};
      return Ok(());
    }

    method SessionDestroyAllForUser(uid: string, now: nat, faults: Faults)
      modifies this
      ensures Store() == DestroyAll(old(Store()), uid, now, faults).0
      ensures cache == if DestroyAll(old(Store()), uid, now, faults).1 then CacheWithoutUser(old(cache), uid)
                else old(cache)
    {
      var slot := Fetch(index, uid, now);
      if faults.rename || slot.Absent? {
        return;
      }
      index := index - {uid};
      destroying := destroying[uid := slot];
      var ids := {};
      if !faults.smembers {
        ids := MembersOf(Fetch(destroying, uid, now));
      }
      if !faults.delTemp {
        destroying := destroying - {uid};
      }
      if !faults.delSessions {
        sessions := sessions - ids;
      }
      cache := map id | id in cache && cache[id].session.userId != uid :: cache[id];
    }
  }

  lemma CacheGrowsByOne(cache: map<string, Cached>, id: string, entry: Cached)
    ensures |cache[id := entry]| <= |cache| + 1
  {
    assert cache[id := entry].Keys == cache.Keys + {id};
    SubsetCardinality(cache[id := entry].Keys, cache.Keys + {id});
  }

  /** Whatever is looked up, the in-process cache never exceeds its cap. */
  lemma CacheStaysBounded(db: Db, cache: map<string, Cached>, id: string, now: nat, redisUp: bool)
    requires |cache| <= MAX_SESSION_CACHE_ENTRIES
    ensures |GetSession(db, cache, id, now, redisUp).1| <= MAX_SESSION_CACHE_ENTRIES
  {
    var swept := if CacheLookup(cache, id, now).None? then cache - {id} else cache;
    assert swept.Keys <= cache.Keys;
    SubsetCardinality(swept.Keys, cache.Keys);
    var base := if MAX_SESSION_CACHE_ENTRIES <= |swept| then map[] else swept;
    forall s: Session ensures |CachePut(swept, id, s, now)| <= MAX_SESSION_CACHE_ENTRIES {
      CacheGrowsByOne(base, id, Cached(now + SESSION_CACHE_TTL, s));
    }
  }

  /**
    A get in full: memory first, even with Redis down; then Redis, whose answer is kept for 300 s; an
    expired entry goes in any case, and every other entry stays unless the cache was full.
   */
  lemma GetExactly(db: Db, cache: map<string, Cached>, id: string, now: nat, redisUp: bool)
    ensures var (r, after) := GetSession(db, cache, id, now, redisUp);
            var hit := id in cache && now < cache[id].expiry;
            var stored := id in db.sessions && Alive(db.sessions[id], now);
            && (hit ==> r == Ok(cache[id].session) && after == cache)
            && (!hit && !redisUp ==> r == Err(CommandFailed) && after == cache - {id})
            && (!hit && redisUp && !stored ==> r == Err(SessionNotFound) && after == cache - {id})
            && (!hit && redisUp && stored ==>
                  && r == Ok(db.sessions[id].value)
                  && id in after && after[id] == Cached(now + 300_000, db.sessions[id].value)
                  && after - {id} == if |cache - {id}| < 100_000 then cache - {id} else map[])
  {
  }

  predicate Live(db: Db, id: string, now: nat) { Fetch(db.sessions, id, now).Present? }

  /** A user's index: what SMEMBERS would answer. */
  function IndexOf(db: Db, uid: string, now: nat): set<string> { MembersOf(Fetch(db.index, uid, now)) }

  /** Create makes one session live for exactly its lifetime and adds it to its owner's index, and to no other. */
  lemma CreateExactly(db: Db, id: string, s: Session, ttlSecs: nat, now: nat, later: nat)
    requires now <= later
    ensures var after := CreateScript(db, id, s, ttlSecs, now);
            && (Live(after, id, later) <==> later < now + 1000 * ttlSecs)
            && (Live(after, id, later) ==> Fetch(after.sessions, id, later).value == s)
            && (forall other :: other != id ==> Fetch(after.sessions, other, later) == Fetch(db.sessions, other, later))
            && IndexOf(after, s.userId, later) ==
                 (if later < now + 1000 * ttlSecs then IndexOf(db, s.userId, now) + {id} else {})
            && (forall uid :: uid != s.userId ==> IndexOf(after, uid, later) == IndexOf(db, uid, later))
            && after.destroying == db.destroying
  {
  }

  /** A logout ends one session, takes it out of its owner's index if it was alive, and touches nothing else. */
  lemma DestroyExactly(db: Db, id: string, now: nat, later: nat)
    requires now <= later
    ensures var after := DestroyScript(db, id, now);
            && id !in after.sessions
            && (forall other :: other != id ==> Fetch(after.sessions, other, later) == Fetch(db.sessions, other, later))
            && (forall uid :: IndexOf(after, uid, later) ==
                  if Live(db, id, now) && Fetch(db.sessions, id, now).value.userId == uid
                  then IndexOf(db, uid, later) - {id}
                  else IndexOf(db, uid, later))
            && (forall uid :: uid in after.index ==> uid in db.index)
            && after.destroying == db.destroying
  {
  }

  /**
    The keys a bulk destroy leaves: nothing happens unless RENAME goes through; then the user's index
    is gone, the temporary key is left exactly when its DEL failed, and other users' keys are untouched.
   */
  lemma BulkDestroyKeys(db: Db, uid: string, now: nat, faults: Faults)
    ensures var (after, renamed) := DestroyAll(db, uid, now, faults);
            && (renamed <==> !faults.rename && uid in db.index && Alive(db.index[uid], now))
            && (!renamed ==> after == db)
            && (renamed ==>
                  && after.index == db.index - {uid}
                  && after.destroying - {uid} == db.destroying - {uid}
                  && Fetch(after.destroying, uid, now) == (if faults.delTemp then db.index[uid] else Absent))
  {
  }

  /** What a bulk destroy leaves in the process's own cache: every entry of every other user, unchanged. */
  lemma CacheWithoutUserExactly(cache: map<string, Cached>, uid: string, id: string)
    ensures var after := CacheWithoutUser(cache, uid);
            && (id in after <==> id in cache && cache[id].session.userId != uid)
            && (id in after ==> after[id] == cache[id])
  {
  }

  /**
    After RENAME went through, the bulk destroy empties the indexed sessions exactly when both the
    listing and the final DEL succeed, or nothing indexed was alive anyway.
   */
  lemma BulkDestroyUnderFaults(db: Db, uid: string, now: nat, faults: Faults)
    requires DestroyAll(db, uid, now, faults).1
    ensures var after := DestroyAll(db, uid, now, faults).0;
            var indexed := MembersOf(Fetch(db.index, uid, now));
            && ((forall id :: id in indexed ==> !Live(after, id, now))
                <==> (!faults.smembers && !faults.delSessions) || forall id :: id in indexed ==> !Live(db, id, now))
            && (forall id :: id !in indexed ==> (Live(after, id, now) <==> Live(db, id, now)))
  {
    var after := DestroyAll(db, uid, now, faults).0;
    var renamed := RenameIndex(db, uid, now).value;
    assert ListDestroying(renamed, uid, now) == MembersOf(Fetch(db.index, uid, now));
    if faults.smembers || faults.delSessions {
      assert after.sessions == db.sessions;
    }
  }

  /**
    The temporary key is shared by all bulk destroys of a user: here a second one renames before
    the first has listed, and the first one's sessions survive both, in no index at all. Which
    orders lose sessions, and which do not, is the subject of `BulkDestroyOrder`.
   */
  lemma OverlappingBulkDestroysOrphan(s: Session, ttlSecs: nat)
    requires 0 < ttlSecs
    ensures var db1 := CreateScript(Db(map[], map[], map[]), "old", s, ttlSecs, 0);
            var first := RenameIndex(db1, s.userId, 0);
            first.Some? &&
            var db2 := CreateScript(first.value, "new", s, ttlSecs, 0);
            var second := RenameIndex(db2, s.userId, 0);
            second.Some? &&
            var ids1 := ListDestroying(second.value, s.userId, 0);
            var db3 := DeleteSessions(DropDestroying(second.value, s.userId), ids1);
            var ids2 := ListDestroying(db3, s.userId, 0);
            var done := DeleteSessions(DropDestroying(db3, s.userId), ids2);
            Live(done, "old", 0) && done.index == map[] && done.destroying == map[]
  {
    var db1 := CreateScript(Db(map[], map[], map[]), "old", s, ttlSecs, 0);
    assert db1.index[s.userId].value == {"old"};
    var db2 := CreateScript(RenameIndex(db1, s.userId, 0).value, "new", s, ttlSecs, 0);
    assert db2.index[s.userId].value == {"new"};
    assert "old" != "new";
  }
}
