/**
  Progressive brute-force backoff: the failure counter of backend/cache/src/rate_limit.rs under the
  login handlers of backend/auth/src/routes.rs. Times are server milliseconds.
 */
module LoginBackoff {
  import opened Basics
  import opened RedisKeys

  const BLOCK_FROM := 5

  /** Cooldown (seconds) and label documented for a failure count. */
  function BackoffParams(count: nat): (nat, string) {
    if 20 <= count then (1800, "30min")
    else if 10 <= count then (300, "5min")
    else if 5 <= count then (60, "60s")
    else (60, "tracking")
  }

  /** Seconds the increment script arms once the counter shows `count`. */
  function ArmedTtl(count: nat): nat {
    if count == 1 then BackoffParams(1).0
    else if count < 5 then BackoffParams(5).0
    else if count < 10 then BackoffParams(10).0
    else BackoffParams(20).0
  }

  /** The documented tiers and the armed cooldowns, threshold by threshold. */
  lemma Tiers(count: nat)
    ensures count < 5 ==> BackoffParams(count) == (60, "tracking")
    ensures 5 <= count < 10 ==> BackoffParams(count) == (60, "60s")
    ensures 10 <= count < 20 ==> BackoffParams(count) == (300, "5min")
    ensures 20 <= count ==> BackoffParams(count) == (1800, "30min")
    ensures 1 <= count < 5 ==> ArmedTtl(count) == 60
    ensures 5 <= count < 10 ==> ArmedTtl(count) == 300
    ensures 10 <= count ==> ArmedTtl(count) == 1800
  {
  }

  // Milliseconds the server adds before it cuts a TTL down to seconds: 999 rounds up, 500 to the
  // nearest second, which is what Redis does.
  type Rounding = r: nat | r < 1000

  /** TTL of a live key in seconds. */
  function TtlReply(expireAt: nat, now: nat, rounding: Rounding): nat
    requires now < expireAt
  {
    (expireAt - now + rounding) / 1000
  }

  datatype Verdict = Pass | BackoffBlocked(remainingSecs: nat, count: nat, tier: string)

  function CheckVerdict(slot: Slot<nat>, now: nat, rounding: Rounding): Verdict {
    if Alive(slot, now) && slot.expireAt.Some? && BLOCK_FROM <= slot.value
       && 0 < TtlReply(slot.expireAt.value, now, rounding)
    then BackoffBlocked(TtlReply(slot.expireAt.value, now, rounding), slot.value, BackoffParams(slot.value).1)
    else Pass
  }

  /** The block ends as soon as the TTL reply is 0: by 1000 - rounding ms before the key does. */
  lemma BlockedExactly(slot: Slot<nat>, now: nat, rounding: Rounding)
    ensures CheckVerdict(slot, now, rounding).BackoffBlocked? <==>
              && slot.Present? && slot.expireAt.Some? && 5 <= slot.value
              && now + 1000 - rounding <= slot.expireAt.value
    ensures var v := CheckVerdict(slot, now, rounding);
            v.BackoffBlocked? ==>
              && v.count == slot.value
              && v.remainingSecs * 1000 <= slot.expireAt.value - now + rounding < (v.remainingSecs + 1) * 1000
              && v.tier == (if v.count < 10 then "60s" else if v.count < 20 then "5min" else "30min")
  {
  }

  /** A check leaves a counter with a TTL alone and deletes one without. */
  function AfterCheck(slot: Slot<nat>, now: nat): Slot<nat> {
    var live := View(slot, now);
    if live.Present? && live.expireAt.None? then Absent else live
  }

  function AfterIncrement(slot: Slot<nat>, now: nat): Slot<nat> {
    var live := View(slot, now);
    var count := if live.Present? then live.value + 1 else 1;
    SetEx(count, now, ArmedTtl(count))
  }

  /** A check never touches a living counter with a TTL; a counter without one is dropped. */
  lemma CheckKeepsCounter(slot: Slot<nat>, now: nat, later: nat)
    requires now <= later
    ensures slot.Present? && slot.expireAt.Some? ==> View(AfterCheck(slot, now), later) == View(slot, later)
    ensures slot.Present? && slot.expireAt.None? ==> AfterCheck(slot, now).Absent?
  {
  }

  /** A failure counts as one more, from one again once the counter has expired, for 60, 300 or 1800 s. */
  lemma IncrementCountsOne(slot: Slot<nat>, now: nat)
    ensures var live := slot.Present? && (slot.expireAt.None? || now < slot.expireAt.value);
            var count := if live then slot.value + 1 else 1;
            var secs := if count < 5 then 60 else if count < 10 then 300 else 1800;
            AfterIncrement(slot, now) == Present(count, Some(now + secs * 1000))
  {
  }

  class BackoffClient {
    const rounding: Rounding
    var counters: Keyspace<nat>

    constructor (rounding: Rounding)
      ensures this.rounding == rounding && counters == map[]
    {
      this.rounding := rounding;
      counters := map[];
    }

    method BackoffCheck(ip: string, endpoint: string, now: nat) returns (verdict: Verdict)
      modifies this`counters
      ensures var key := ip + ":" + endpoint;
              && verdict == CheckVerdict(Fetch(old(counters), key, now), now, rounding)
              && counters == old(counters)[key := AfterCheck(Fetch(old(counters), key, now), now)]
    {
      var key := ip + ":" + endpoint;
      var slot := Fetch(counters, key, now);
      // the script replies with count and TTL, or -1 and -1
      var count: int, remainingTtl: int := -1, -1;
      if slot.Present? {
        if slot.expireAt.None? {
          slot := Absent;
        } else {
          count, remainingTtl := slot.value, TtlReply(slot.expireAt.value, now, rounding);
        }
      }
      counters := counters[key := slot];
      if count < 0 {
        return Pass;
      }
      var (_, tier) := BackoffParams(count);
      if count < BLOCK_FROM {
        return Pass;
      }
      if 0 < remainingTtl {
        return BackoffBlocked(remainingTtl, count, tier);
      }
      return Pass;
    }

    method BackoffIncrement(ip: string, endpoint: string, now: nat)
      modifies this`counters
      ensures var key := ip + ":" + endpoint;
              counters == old(counters)[key := AfterIncrement(Fetch(old(counters), key, now), now)]
    {
      var key := ip + ":" + endpoint;
      var slot := Fetch(counters, key, now);
      // INCR keeps the TTL of an existing key and creates a missing one without a TTL
      slot := if slot.Present? then slot.(value := slot.value + 1) else Present(1, None);
      var (t1, _) := BackoffParams(1);
      var (t2, _) := BackoffParams(5);
      var (t3, _) := BackoffParams(10);
      var (t4, _) := BackoffParams(20);
      var ttl := t4;
      if slot.value == 1 {
        ttl := t1;
      } else if slot.value < 5 {
        ttl := t2;
      } else if slot.value < 10 {
        ttl := t3;
      }
      slot := Expire(slot, now, ttl);
      counters := counters[key := slot];
    }
  }

  /** Documented and armed cooldown agree on 1-4 and from 20 on; on 5-19 the armed one is a tier higher. */
  lemma ArmedTierIsNeverLower(count: nat)
    requires 1 <= count
    ensures BackoffParams(count).0 <= ArmedTtl(count)
    ensures BackoffParams(count).0 == ArmedTtl(count) <==> count < 5 || 20 <= count
    ensures ArmedTtl(count) <= ArmedTtl(count + 1)
  {
  }

  // ---------------------------------------------------------------------------------------------
  // Concurrent logins from one address. A login is in flight between its check and its outcome.

  datatype Event =
    | Begin(id: nat, now: nat, limited: bool)  // check; `limited` when a rate limit rejects it as well
    | Fail(id: nat, now: nat, stored: bool)    // bad credentials; the increment may be lost to a Redis error
    | Leave(id: nat, now: nat)                 // success or an internal error: no increment

  datatype World = World(slot: Slot<nat>, inFlight: set<nat>, now: nat)

  const START := World(Absent, {}, 0)

  predicate Possible(capacity: nat, w: World, e: Event) {
    && w.now <= e.now
    && match e
       case Begin(id, _, _) => id !in w.inFlight && |w.inFlight| < capacity
       case Fail(id, _, _) => id in w.inFlight
       case Leave(id, _) => id in w.inFlight
  }

  function Step(rounding: Rounding, w: World, e: Event): World {
    match e
    case Begin(id, now, limited) =>
      World(AfterCheck(w.slot, now),
            if CheckVerdict(w.slot, now, rounding).Pass? && !limited then w.inFlight + {id} else w.inFlight,
            now)
    case Fail(id, now, stored) =>
      World(if stored then AfterIncrement(w.slot, now) else w.slot, w.inFlight - {id}, now)
    case Leave(id, now) =>
      World(w.slot, w.inFlight - {id}, now)
  }

  /** Who goes on to the password check: neither rate-limited nor, by `BlockedExactly`, blocked. */
  lemma BeginsExactly(w: World, id: nat, now: nat, limited: bool, rounding: Rounding)
    requires id !in w.inFlight
    ensures var blocked := && w.slot.Present? && w.slot.expireAt.Some? && 5 <= w.slot.value
                           && now + 1000 - rounding <= w.slot.expireAt.value;
            Step(rounding, w, Begin(id, now, limited)).inFlight
            == if limited || blocked then w.inFlight else w.inFlight + {id}
  {
    BlockedExactly(w.slot, now, rounding);
  }

  predicate Valid(capacity: nat, rounding: Rounding, w: World, events: seq<Event>)
    decreases |events|
  {
    events == [] ||
    (Possible(capacity, w, events[0]) && Valid(capacity, rounding, Step(rounding, w, events[0]), events[1..]))
  }

  function Run(rounding: Rounding, w: World, events: seq<Event>): World
    decreases |events|
  {
    if events == [] then w else Run(rounding, Step(rounding, w, events[0]), events[1..])
  }

  /** Failures on record at the world's time. */
  function Count(w: World): nat {
    if Alive(w.slot, w.now) then w.slot.value else 0
  }

  // Every stored counter has a TTL no longer than the one its value arms.
  predicate Armed(w: World) {
    w.slot.Present? ==>
      && w.slot.expireAt.Some?
      && 1 <= w.slot.value
      && w.slot.expireAt.value <= w.now + ArmedTtl(w.slot.value) * 1000
  }

  lemma StepArmed(capacity: nat, rounding: Rounding, w: World, e: Event)
    requires Possible(capacity, w, e) && Armed(w)
    ensures Armed(Step(rounding, w, e))
  {
  }

  /** Whatever the rounding, the counter is never stored without a TTL. */
  lemma {:induction false} AlwaysArmed(capacity: nat, rounding: Rounding, w: World, events: seq<Event>)
    requires Armed(w) && Valid(capacity, rounding, w, events)
    ensures Armed(Run(rounding, w, events))
    ensures Run(rounding, w, events).slot.Present? ==> Run(rounding, w, events).slot.expireAt.Some?
    decreases |events|
  {
    if events == [] {
    } else {
      StepArmed(capacity, rounding, w, events[0]);
      AlwaysArmed(capacity, rounding, Step(rounding, w, events[0]), events[1..]);
    }
  }

  /** Failures whose increment reached the server. */
  function Failures(events: seq<Event>): nat {
    if events == [] then 0 else (if events[0].Fail? && events[0].stored then 1 else 0) + Failures(events[1..])
  }

  // The counter, if there is one, outlives `end`.
  predicate LivesPast(w: World, end: nat) {
    w.slot.Present? ==> w.slot.expireAt.Some? && end <= w.slot.expireAt.value
  }

  lemma {:induction false} CountsFailuresUntil(capacity: nat, rounding: Rounding, w: World, events: seq<Event>,
                                               end: nat)
    requires Armed(w) && LivesPast(w, end) && end <= w.now + 60_000 && w.now < end
    requires Valid(capacity, rounding, w, events) && forall e :: e in events ==> e.now < end
    ensures Count(Run(rounding, w, events)) == Count(w) + Failures(events)
    decreases |events|
  {
    if events == [] {
    } else {
      var e, next := events[0], Step(rounding, w, events[0]);
      assert e in events && forall f :: f in events[1..] ==> f in events;
      StepArmed(capacity, rounding, w, e);
      CountsFailuresUntil(capacity, rounding, next, events[1..], end);
    }
  }

  lemma {:induction false} CountsNoMore(capacity: nat, rounding: Rounding, w: World, events: seq<Event>)
    requires Armed(w) && Valid(capacity, rounding, w, events)
    ensures Count(Run(rounding, w, events)) <= Count(w) + Failures(events)
    decreases |events|
  {
    if events == [] {
    } else {
      StepArmed(capacity, rounding, w, events[0]);
      CountsNoMore(capacity, rounding, Step(rounding, w, events[0]), events[1..]);
    }
  }

  /**
    The counter counts recorded failures and nothing else, whatever checks and successes come in
    between: never more of them than there were, and all of them for the first minute.
   */
  lemma CountsExactlyFailures(capacity: nat, rounding: Rounding, w: World, events: seq<Event>)
    requires w.slot.Absent? && Valid(capacity, rounding, w, events)
    ensures Count(Run(rounding, w, events)) <= Failures(events)
    ensures (forall e :: e in events ==> e.now < w.now + 60_000) ==>
              Count(Run(rounding, w, events)) == Failures(events)
  {
    CountsNoMore(capacity, rounding, w, events);
    if forall e :: e in events ==> e.now < w.now + 60_000 {
      CountsFailuresUntil(capacity, rounding, w, events, w.now + 60_000);
    }
  }

  predicate Sound(capacity: nat, w: World) {
    && Armed(w)
    && |w.inFlight| <= capacity
    && Count(w) + |w.inFlight| <= BLOCK_FROM - 1 + capacity
  }

  // A reply of 0 is never seen while the key lives, or nobody ever logs in.
  predicate NoEarlyPass(capacity: nat, rounding: Rounding) { capacity == 0 || rounding == 999 }

  lemma StepSound(capacity: nat, rounding: Rounding, w: World, e: Event)
    requires NoEarlyPass(capacity, rounding) && Possible(capacity, w, e) && Sound(capacity, w)
    ensures Sound(capacity, Step(rounding, w, e))
  {
    BlockedExactly(w.slot, e.now, rounding);
    if e.Begin? {
      assert |w.inFlight + {e.id}| == |w.inFlight| + 1;
    } else {
      assert |w.inFlight - {e.id}| == |w.inFlight| - 1;
    }
  }

  lemma {:induction false} RunSound(capacity: nat, rounding: Rounding, w: World, events: seq<Event>)
    requires NoEarlyPass(capacity, rounding) && Sound(capacity, w) && Valid(capacity, rounding, w, events)
    ensures Sound(capacity, Run(rounding, w, events))
    decreases |events|
  {
    if events == [] {
    } else {
      StepSound(capacity, rounding, w, events[0]);
      RunSound(capacity, rounding, Step(rounding, w, events[0]), events[1..]);
    }
  }

  /** Recorded failures plus logins still to report never exceed 4 + capacity, in any run. */
  ghost predicate FailuresBounded(capacity: nat, rounding: Rounding) {
    forall events :: Valid(capacity, rounding, START, events) ==>
      Count(Run(rounding, START, events)) + |Run(rounding, START, events).inFlight| <= 4 + capacity
  }

  // A live counter at time 0 that has not reached the block threshold, or none at all.
  predicate Tracking(w: World, count: nat) {
    && w.now == 0
    && if count == 0 then w.slot.Absent? else Alive(w.slot, 0) && w.slot.expireAt.Some? && w.slot.value == count
  }

  lemma {:induction false} Extend(capacity: nat, rounding: Rounding, w: World, events: seq<Event>, e: Event)
    requires Valid(capacity, rounding, w, events) && Possible(capacity, Run(rounding, w, events), e)
    ensures Valid(capacity, rounding, w, events + [e])
    ensures Run(rounding, w, events + [e]) == Step(rounding, Run(rounding, w, events), e)
    decreases |events|
  {
    if events == [] {
      assert events + [e] == [e];
    } else {
      assert (events + [e])[0] == events[0] && (events + [e])[1..] == events[1..] + [e];
      Extend(capacity, rounding, Step(rounding, w, events[0]), events[1..], e);
    }
  }

  ghost predicate Reaches(capacity: nat, rounding: Rounding, events: seq<Event>, count: nat, inFlight: nat,
                          nextId: nat)
  {
    var w := Run(rounding, START, events);
    && Valid(capacity, rounding, START, events)
    && Tracking(w, count)
    && |w.inFlight| == inFlight
    && forall id :: id in w.inFlight ==> id < nextId
  }

  lemma OneBegins(capacity: nat, rounding: Rounding, events: seq<Event>, count: nat, inFlight: nat, nextId: nat)
    returns (more: seq<Event>)
    requires Reaches(capacity, rounding, events, count, inFlight, nextId) && count < BLOCK_FROM && inFlight < capacity
    ensures Reaches(capacity, rounding, more, count, inFlight + 1, nextId + 1)
  {
    Extend(capacity, rounding, START, events, Begin(nextId, 0, false));
    more := events + [Begin(nextId, 0, false)];
  }

  lemma OneFails(capacity: nat, rounding: Rounding, events: seq<Event>, count: nat, inFlight: nat, nextId: nat)
    returns (more: seq<Event>)
    requires Reaches(capacity, rounding, events, count, inFlight, nextId) && 0 < inFlight
    ensures Reaches(capacity, rounding, more, count + 1, inFlight - 1, nextId)
  {
    var id :| id in Run(rounding, START, events).inFlight;
    Extend(capacity, rounding, START, events, Fail(id, 0, true));
    more := events + [Fail(id, 0, true)];
  }

  /** Four failures one at a time, then `capacity` of them in parallel. */
  lemma FillUp(capacity: nat, rounding: Rounding) returns (events: seq<Event>)
    requires 1 <= capacity
    ensures Reaches(capacity, rounding, events, 4 + capacity, 0, 4 + capacity)
  {
    events := [];
    for i := 0 to 4
      invariant Reaches(capacity, rounding, events, i, 0, i)
    {
      events := OneBegins(capacity, rounding, events, i, 0, i);
      events := OneFails(capacity, rounding, events, i, 1, i + 1);
    }
    for i := 0 to capacity
      invariant Reaches(capacity, rounding, events, 4, i, 4 + i)
    {
      events := OneBegins(capacity, rounding, events, 4, i, 4 + i);
    }
    for i := 0 to capacity
      invariant Reaches(capacity, rounding, events, 4 + i, capacity - i, 4 + capacity)
    {
      events := OneFails(capacity, rounding, events, 4 + i, capacity - i, 4 + capacity);
    }
  }

  /** The bound is reached, whatever the rounding. */
  lemma BoundIsReached(capacity: nat, rounding: Rounding)
    requires 1 <= capacity
    ensures exists events ::
              Valid(capacity, rounding, START, events) && Count(Run(rounding, START, events)) == 4 + capacity
  {
    var events := FillUp(capacity, rounding);
  }

  /** In the key's last millisecond a reply of 0 lets one more login in, and it can fail. */
  lemma LastMomentPasses(capacity: nat, rounding: Rounding) returns (events: seq<Event>)
    requires !NoEarlyPass(capacity, rounding)
    ensures Valid(capacity, rounding, START, events) && Count(Run(rounding, START, events)) == 5 + capacity
  {
    var filling := FillUp(capacity, rounding);
    var full := Run(rounding, START, filling);
    AlwaysArmed(capacity, rounding, START, filling);
    var late := full.slot.expireAt.value - 1;
    var begin, fail := Begin(4 + capacity, late, false), Fail(4 + capacity, late, true);
    BlockedExactly(full.slot, late, rounding);
    assert full.inFlight == {};
    Extend(capacity, rounding, START, filling, begin);
    assert Run(rounding, START, filling + [begin]).inFlight == {4 + capacity};
    Extend(capacity, rounding, START, filling + [begin], fail);
    events := filling + [begin] + [fail];
  }

  /**
    With at most `capacity` logins of an address in flight at a time, recorded failures plus logins
    still to report never exceed 4 + capacity, so never more than 5 one at a time, exactly when the server
    rounds a TTL up: any other rounding shows a living key as spent in its last moments.
   */
  lemma BoundedExactlyWhenRoundedUp(capacity: nat, rounding: Rounding)
    ensures FailuresBounded(capacity, rounding) <==> capacity == 0 || rounding == 999
  {
    if NoEarlyPass(capacity, rounding) {
      forall events | Valid(capacity, rounding, START, events)
        ensures Count(Run(rounding, START, events)) + |Run(rounding, START, events).inFlight| <= 4 + capacity
      {
        RunSound(capacity, rounding, START, events);
      }
    } else {
      var events := LastMomentPasses(capacity, rounding);
    }
  }

  predicate Blocking(w: World, until: nat) {
    && Armed(w)
    && w.slot.Present? && BLOCK_FROM <= w.slot.value
    && until <= w.slot.expireAt.value
  }

  // Early enough before `until` for the reply not to be 0.
  predicate InBlock(now: nat, until: nat, rounding: Rounding) { now + 1000 - rounding <= until }

  lemma StepKeepsBlocking(capacity: nat, rounding: Rounding, w: World, e: Event, until: nat)
    requires Possible(capacity, w, e) && Blocking(w, until) && InBlock(e.now, until, rounding)
    ensures Blocking(Step(rounding, w, e), until)
    ensures e.Begin? ==> CheckVerdict(w.slot, e.now, rounding).BackoffBlocked?
    ensures e.Begin? ==> Step(rounding, w, e).inFlight == w.inFlight
  {
  }

  lemma {:induction false} StillBlocked(capacity: nat, rounding: Rounding, w: World, events: seq<Event>, until: nat)
    requires Blocking(w, until) && Valid(capacity, rounding, w, events)
    requires forall e :: e in events ==> InBlock(e.now, until, rounding)
    ensures Blocking(Run(rounding, w, events), until) && Run(rounding, w, events).inFlight <= w.inFlight
    decreases |events|
  {
    if events == [] {
    } else {
      StepKeepsBlocking(capacity, rounding, w, events[0], until);
      StillBlocked(capacity, rounding, Step(rounding, w, events[0]), events[1..], until);
    }
  }

  /**
    Once five failures are on record no login gets past the check before the armed TTL ends, less
    what the rounding takes: nothing when rounding up, half a second when rounding to the nearest
    second. Failures still in flight can only push the deadline out. Left alone, the first check
    that late passes.
   */
  lemma BlockedUntilDeadline(capacity: nat, rounding: Rounding, w: World, events: seq<Event>, until: nat)
    requires Armed(w) && w.slot.Present? && BLOCK_FROM <= w.slot.value && until == w.slot.expireAt.value
    requires Valid(capacity, rounding, w, events)
    requires forall e :: e in events ==> InBlock(e.now, until, rounding)
    ensures Run(rounding, w, events).inFlight <= w.inFlight
    ensures forall now :: InBlock(now, until, rounding) ==>
              CheckVerdict(Run(rounding, w, events).slot, now, rounding).BackoffBlocked?
    ensures forall now :: !InBlock(now, until, rounding) ==> CheckVerdict(w.slot, now, rounding).Pass?
  {
    StillBlocked(capacity, rounding, w, events, until);
    forall now
      ensures InBlock(now, until, rounding) ==>
                CheckVerdict(Run(rounding, w, events).slot, now, rounding).BackoffBlocked?
    {
      BlockedExactly(Run(rounding, w, events).slot, now, rounding);
    }
    forall now ensures !InBlock(now, until, rounding) ==> CheckVerdict(w.slot, now, rounding).Pass? {
      BlockedExactly(w.slot, now, rounding);
    }
  }
}
