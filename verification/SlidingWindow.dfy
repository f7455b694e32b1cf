/**
  The sliding-window rate limiter of backend/cache/src/rate_limit.rs: a sorted set per key,
  pruned on every check and expired by the server, against a limiter that never forgets.
  `clock` is the client's clock (ms), `now` the Redis server's clock (ms).
 */
module SlidingWindow {
  import opened Basics
  import opened RedisKeys

  // member id -> score
  type ZSet = map<string, int>

  datatype RateLimitResult = RateLimitResult(allowed: bool, remaining: int, resetAt: int)
  datatype CacheError = CommandFailed

  type Reply = Result<RateLimitResult, CacheError>

  /** ZREMRANGEBYSCORE key -inf max */
  function ZRemRangeByScore(z: ZSet, max: int): ZSet {
    map id | id in z && max < z[id] :: z[id]
  }

  lemma OldestExists(z: ZSet)
    requires 0 < |z|
    ensures exists id :: id in z && forall other :: other in z ==> z[id] <= z[other]
  {
    var first :| first in z;
    var rest := map id | id in z && id != first :: z[id];
    assert z.Keys == rest.Keys + {first};
    if |rest| == 0 {
      assert forall other :: other in z ==> other == first || other in rest;
    } else {
      OldestExists(rest);
      var low :| low in rest && forall other :: other in rest ==> rest[low] <= rest[other];
      var best := if z[first] <= z[low] then first else low;
      assert best in z && forall other :: other in z ==> other == first || other in rest;
      assert forall other :: other in z ==> z[best] <= z[other];
    }
  }

  /** The score ZRANGE key 0 0 WITHSCORES reports. */
  ghost function Oldest(z: ZSet): (score: int)
    requires 0 < |z|
    ensures exists id :: id in z && z[id] == score
    ensures forall id :: id in z ==> score <= z[id]
  {
    OldestExists(z);
    var id :| id in z && forall other :: other in z ==> z[id] <= z[other];
    z[id]
  }

  function TtlSecs(windowMs: nat): nat { windowMs / 1000 + 60 }

  function Members(slot: Slot<ZSet>): ZSet {
    if slot.Present? then slot.value else map[]
  }

  /** Decision, reply and resulting key of one check, as one atomic script. */
  ghost function CheckScript(slot: Slot<ZSet>, windowMs: nat, max: nat, clock: nat, now: nat, id: string)
    : (Slot<ZSet>, Reply)
  {
    var live := View(slot, now);
    var kept := ZRemRangeByScore(Members(live), clock - windowMs);
    if |kept| < max then
      (SetEx(kept[id := clock], now, TtlSecs(windowMs)), Ok(RateLimitResult(true, max - |kept| - 1, 0)))
    else if |kept| == 0 then
      (Absent, Err(CommandFailed))
    else
      (live.(value := kept), Ok(RateLimitResult(false, 0, Oldest(kept) + TtlSecs(windowMs) * 1000)))
  }

  /** Key after the ZREMRANGEBYSCORE of a count; Redis deletes a sorted set that becomes empty. */
  function PruneKey(slot: Slot<ZSet>, windowMs: nat, clock: nat, now: nat): Slot<ZSet> {
    var live := View(slot, now);
    var kept := ZRemRangeByScore(Members(live), clock - windowMs);
    if kept == map[] then Absent else live.(value := kept)
  }

  /** The client, on the "ratelimit" part of the Redis key space. */
  class RateLimiter {
    var zsets: Keyspace<ZSet>

    constructor ()
      ensures zsets == map[]
    {
      zsets := map[];
    }

    // The member id is a fresh UUID and the clock is past the epoch by at least one window:
    // the source subtracts the window from an unsigned clock.
    method RateLimitCheck(key: string, windowMs: nat, max: nat, clock: nat, now: nat, memberId: string)
      returns (r: Reply)
      requires windowMs <= clock
      modifies this
      ensures r == CheckScript(Fetch(old(zsets), key, now), windowMs, max, clock, now, memberId).1
      ensures zsets
           == old(zsets)[key := CheckScript(Fetch(old(zsets), key, now), windowMs, max, clock, now, memberId).0]
    {
      var windowStart := clock - windowMs;
      var ttl := TtlSecs(windowMs);
      var slot := Fetch(zsets, key, now);
      // ZREMRANGEBYSCORE
      var z := ZRemRangeByScore(Members(slot), windowStart);
      slot := if z == map[] then Absent else slot.(value := z);
      // ZCARD
      var count := |z|;
      if count < max {
        // ZADD, EXPIRE
        slot := if slot.Present? then slot.(value := z[memberId := clock]) else Present(z[memberId := clock], None);
        slot := Expire(slot, now, ttl);
        r := Ok(RateLimitResult(true, max - count - 1, 0));
      } else if count == 0 {
        // ZRANGE is empty: the script fails on arithmetic with nil
        r := Err(CommandFailed);
      } else {
        OldestExists(z);
        var first :| first in z && forall other :: other in z ==> z[first] <= z[other];
        r := Ok(RateLimitResult(false, 0, z[first] + ttl * 1000));
      }
      zsets := zsets[key := slot];
    }

    /** The first command of a count: ZREMRANGEBYSCORE. */
    method CountPrune(key: string, windowMs: nat, clock: nat, now: nat)
      requires windowMs <= clock
      modifies this
      ensures zsets == old(zsets)[key := PruneKey(Fetch(old(zsets), key, now), windowMs, clock, now)]
    {
      var slot := Fetch(zsets, key, now);
      var z := ZRemRangeByScore(Members(slot), clock - windowMs);
      slot := if z == map[] then Absent else slot.(value := z);
      zsets := zsets[key := slot];
    }

    /** The second: ZCARD, on whatever other clients have left by then. */
    method CountCard(key: string, now: nat) returns (count: nat)
      ensures count == |Members(Fetch(zsets, key, now))|
    {
      count := |Members(Fetch(zsets, key, now))|;
    }

    /** Both commands with nobody in between, at server times `now` and `cardAt`. */
    method RateLimitCount(key: string, windowMs: nat, clock: nat, now: nat, cardAt: nat) returns (count: nat)
      requires windowMs <= clock && now <= cardAt
      modifies this
      ensures zsets == old(zsets)[key := PruneKey(Fetch(old(zsets), key, now), windowMs, clock, now)]
      ensures count == |Members(View(PruneKey(Fetch(old(zsets), key, now), windowMs, clock, now), cardAt))|
    {
      CountPrune(key, windowMs, clock, now);
      count := CountCard(key, cardAt);
    }
  }

  // ---------------------------------------------------------------------------------------------
  // Runs of one key. `admitted` is the full history: every admitted member with its score.

  // A client clock is at most `lag` behind the server's and at most `lead` ahead of it.
  datatype Config = Config(windowMs: nat, max: nat, lag: nat, lead: nat)

  /** What the clocks leave of the window. */
  function Span(cfg: Config): int { cfg.windowMs - cfg.lag - cfg.lead }

  datatype Call =
    | Check(clock: nat, now: nat, id: string)
    | Prune(clock: nat, now: nat)  // the first command of a count; the second only reads

  datatype World = World(slot: Slot<ZSet>, admitted: ZSet, clock: nat, now: nat)

  const START := World(Absent, map[], 0, 0)

  /** Server time never goes back, client clocks are within their bounds, member ids are fresh. */
  predicate Possible(cfg: Config, w: World, c: Call) {
    && w.now <= c.now
    && c.now <= c.clock + cfg.lag && c.clock <= c.now + cfg.lead
    && cfg.windowMs <= c.clock
    && (c.Check? ==> c.id !in w.admitted)
  }

  ghost function Answer(cfg: Config, w: World, c: Call): Reply
    requires c.Check?
  {
    CheckScript(w.slot, cfg.windowMs, cfg.max, c.clock, c.now, c.id).1
  }

  predicate Admits(r: Reply) { r.Ok? && r.value.allowed }

  ghost function Step(cfg: Config, w: World, c: Call): World {
    match c
    case Check(clock, now, id) =>
      World(CheckScript(w.slot, cfg.windowMs, cfg.max, clock, now, id).0,
            if Admits(Answer(cfg, w, c)) then w.admitted[id := clock] else w.admitted,
            clock, now)
    case Prune(clock, now) =>
      World(PruneKey(w.slot, cfg.windowMs, clock, now), w.admitted, clock, now)
  }

  ghost predicate Valid(cfg: Config, w: World, calls: seq<Call>)
    decreases |calls|
  {
    calls == [] || (Possible(cfg, w, calls[0]) && Valid(cfg, Step(cfg, w, calls[0]), calls[1..]))
  }

  ghost function Run(cfg: Config, w: World, calls: seq<Call>): World
    decreases |calls|
  {
    if calls == [] then w else Run(cfg, Step(cfg, w, calls[0]), calls[1..])
  }

  /** Admitted timestamps in [from, to). */
  function Within(admitted: ZSet, from: int, to: int): set<string> {
    set id | id in admitted && from <= admitted[id] < to
  }

  // An admitted member is either still stored or a full window old; a stored one is stored with
  // its own score, and the key cannot expire before its members are a window old.
  ghost predicate Retained(cfg: Config, w: World) {
    && (forall id :: id in w.admitted ==> w.admitted[id] <= w.now + cfg.lead)
    && (forall id :: id in Members(w.slot) ==> id in w.admitted && w.admitted[id] == w.slot.value[id])
    && (forall id :: id in w.admitted && id !in Members(w.slot) ==> w.admitted[id] + cfg.windowMs <= w.now + cfg.lead)
    && (w.slot.Present? ==> w.slot.expireAt.Some?)
    && (forall id :: id in Members(w.slot) ==>
          w.slot.value[id] + TtlSecs(cfg.windowMs) * 1000 <= w.slot.expireAt.value + cfg.lead)
  }

  /** How many admitted timestamps the interval of length `Span` from `from` holds. */
  function WindowCount(cfg: Config, admitted: ZSet, from: int): nat {
    |Within(admitted, from, from + Span(cfg))|
  }

  ghost predicate Bounded(cfg: Config, w: World) {
    forall from :: WindowCount(cfg, w.admitted, from) <= cfg.max
  }

  lemma CheckRetains(cfg: Config, w: World, c: Call)
    requires Possible(cfg, w, c) && Retained(cfg, w) && c.Check?
    ensures Retained(cfg, Step(cfg, w, c))
  {
  }

  lemma PruneRetains(cfg: Config, w: World, c: Call)
    requires Possible(cfg, w, c) && Retained(cfg, w) && c.Prune?
    ensures Retained(cfg, Step(cfg, w, c))
  {
  }

  lemma StepRetains(cfg: Config, w: World, c: Call)
    requires Possible(cfg, w, c) && Retained(cfg, w)
    ensures Retained(cfg, Step(cfg, w, c))
  {
    match c
    case Check(_, _, _) => CheckRetains(cfg, w, c);
    case Prune(_, _) => PruneRetains(cfg, w, c);
  }

  /** What is admitted within a window length of a check is still stored when it runs. */
  lemma RecentIsKept(cfg: Config, w: World, c: Call, from: int)
    requires Possible(cfg, w, c) && Retained(cfg, w)
    requires from <= c.clock < from + Span(cfg)
    ensures Within(w.admitted, from, from + Span(cfg))
         <= ZRemRangeByScore(Members(View(w.slot, c.now)), c.clock - cfg.windowMs).Keys
  {
    var recent := Within(w.admitted, from, from + Span(cfg));
    var kept := ZRemRangeByScore(Members(View(w.slot, c.now)), c.clock - cfg.windowMs).Keys;
    forall id | id in recent ensures id in kept {
      assert c.now + cfg.lead < w.admitted[id] + cfg.windowMs;
      assert id in Members(w.slot);
      assert Alive(w.slot, c.now);
    }
  }

  lemma CountAfterAdmission(cfg: Config, admitted: ZSet, id: string, clock: int, from: int)
    requires id !in admitted
    ensures WindowCount(cfg, admitted[id := clock], from)
         == WindowCount(cfg, admitted, from) + if from <= clock < from + Span(cfg) then 1 else 0
  {
    var to := from + Span(cfg);
    var before, after := Within(admitted, from, to), Within(admitted[id := clock], from, to);
    if from <= clock < to {
      assert after == before + {id};
    } else {
      assert after == before;
    }
  }

  lemma AdmissionBounded(cfg: Config, w: World, c: Call, from: int)
    requires Possible(cfg, w, c) && Retained(cfg, w) && Bounded(cfg, w)
    requires c.Check? && |ZRemRangeByScore(Members(View(w.slot, c.now)), c.clock - cfg.windowMs)| < cfg.max
    ensures WindowCount(cfg, w.admitted[c.id := c.clock], from) <= cfg.max
  {
    var kept := ZRemRangeByScore(Members(View(w.slot, c.now)), c.clock - cfg.windowMs);
    CountAfterAdmission(cfg, w.admitted, c.id, c.clock, from);
    if from <= c.clock < from + Span(cfg) {
      RecentIsKept(cfg, w, c, from);
      SubsetCardinality(Within(w.admitted, from, from + Span(cfg)), kept.Keys);
    }
  }

  lemma StepBounds(cfg: Config, w: World, c: Call)
    requires Possible(cfg, w, c) && Retained(cfg, w) && Bounded(cfg, w)
    ensures Bounded(cfg, Step(cfg, w, c))
  {
    if c.Check? && Admits(Answer(cfg, w, c)) {
      var after := w.admitted[c.id := c.clock];
      forall from ensures WindowCount(cfg, after, from) <= cfg.max {
        AdmissionBounded(cfg, w, c, from);
      }
    }
  }

  lemma {:induction false} RunKeepsBound(cfg: Config, w: World, calls: seq<Call>)
    requires Retained(cfg, w) && Bounded(cfg, w) && Valid(cfg, w, calls)
    ensures Bounded(cfg, Run(cfg, w, calls))
    decreases |calls|
  {
    if calls == [] {
    } else {
      StepRetains(cfg, w, calls[0]);
      StepBounds(cfg, w, calls[0]);
      RunKeepsBound(cfg, Step(cfg, w, calls[0]), calls[1..]);
    }
  }

  lemma StartIsSound(cfg: Config)
    ensures Retained(cfg, START) && Bounded(cfg, START) && Faithful(cfg, START)
  {
    forall from ensures WindowCount(cfg, START.admitted, from) <= cfg.max {
      assert Within(START.admitted, from, from + Span(cfg)) == {};
    }
    assert ZRemRangeByScore(map[], 0 - cfg.windowMs) == map[];
  }

  /**
    Main bound. Whatever the interleaving of checks and counts, whatever the clocks show between
    `lag` behind and `lead` ahead of the server, and however often the key expired: an interval of
    length window - (lag + lead) never holds more than `max` admitted timestamps.
   */
  lemma WindowNeverOverfull(cfg: Config, calls: seq<Call>, from: int)
    requires Valid(cfg, START, calls)
    ensures |Within(Run(cfg, START, calls).admitted, from, from + Span(cfg))| <= cfg.max
  {
    StartIsSound(cfg);
    RunKeepsBound(cfg, START, calls);
    assert WindowCount(cfg, Run(cfg, START, calls).admitted, from) <= cfg.max;
  }

  lemma {:induction false} Extend(cfg: Config, w: World, calls: seq<Call>, c: Call)
    requires Valid(cfg, w, calls) && Possible(cfg, Run(cfg, w, calls), c)
    ensures Valid(cfg, w, calls + [c]) && Run(cfg, w, calls + [c]) == Step(cfg, Run(cfg, w, calls), c)
    decreases |calls|
  {
    if calls == [] {
      assert calls + [c] == [c] && [c][1..] == [];
    } else {
      assert (calls + [c])[0] == calls[0] && (calls + [c])[1..] == calls[1..] + [c];
      Extend(cfg, Step(cfg, w, calls[0]), calls[1..], c);
    }
  }

  /** As `WindowCount`, for an interval one millisecond longer. */
  function LongerCount(cfg: Config, admitted: ZSet, from: int): nat { |Within(admitted, from, from + Span(cfg) + 1)| }

  // The first score of the run that fills the window: one window past the epoch, on the fastest clock.
  function FirstScore(cfg: Config): nat { cfg.windowMs + cfg.lead }

  // `k` requests admitted with that score, all of them stored.
  predicate Filled(cfg: Config, w: World, k: nat) {
    && w.now <= cfg.windowMs && |w.admitted| == k
    && (forall id :: id in w.admitted ==> w.admitted[id] == FirstScore(cfg) && |id| < k)
    && Members(View(w.slot, cfg.windowMs)) == w.admitted
  }

  lemma FillOneMore(cfg: Config, w: World, k: nat) returns (c: Call)
    requires Filled(cfg, w, k) && k < cfg.max && 0 < cfg.windowMs
    ensures Possible(cfg, w, c) && Filled(cfg, Step(cfg, w, c), k + 1)
  {
    var id := seq(k, _ => 'x');
    c := Check(FirstScore(cfg), cfg.windowMs, id);
    assert id !in w.admitted;
    assert ZRemRangeByScore(w.admitted, cfg.lead) == w.admitted;
    assert w.admitted[id := FirstScore(cfg)].Keys == w.admitted.Keys + {id};
    assert Step(cfg, w, c).admitted == w.admitted[id := FirstScore(cfg)];
  }

  lemma OneMoreWithin(admitted: ZSet, score: int, id: string, clock: int)
    requires id !in admitted && (forall other :: other in admitted ==> admitted[other] == score) && score <= clock
    ensures |Within(admitted[id := clock], score, clock + 1)| == |admitted| + 1
  {
    assert Within(admitted[id := clock], score, clock + 1) == admitted.Keys + {id};
  }

  /** A count on the fastest clock forgets the full window, and a check on the slowest starts a new one. */
  lemma OneTooMany(cfg: Config, w: World) returns (prune: Call, second: Call)
    requires Filled(cfg, w, cfg.max) && 0 < cfg.max && 0 < cfg.windowMs && 0 <= Span(cfg)
    ensures Possible(cfg, w, prune) && Possible(cfg, Step(cfg, w, prune), second)
    ensures LongerCount(cfg, Step(cfg, Step(cfg, w, prune), second).admitted, FirstScore(cfg)) == cfg.max + 1
  {
    var W, score, last := cfg.windowMs, FirstScore(cfg), 2 * cfg.windowMs - cfg.lag;
    prune, second := Prune(2 * W + cfg.lead, 2 * W), Check(last, 2 * W, seq(cfg.max, _ => 'x'));
    assert ZRemRangeByScore(Members(View(w.slot, 2 * W)), score) == map[];
    assert ZRemRangeByScore(map[], last - W) == map[];
    assert PruneKey(w.slot, W, 2 * W + cfg.lead, 2 * W) == Absent;
    assert Step(cfg, Step(cfg, w, prune), second).admitted == w.admitted[second.id := last];
    OneMoreWithin(w.admitted, score, second.id, last);
  }

  lemma FillWindow(cfg: Config, k: nat) returns (calls: seq<Call>)
    requires 0 < cfg.windowMs && k <= cfg.max
    ensures Valid(cfg, START, calls) && Filled(cfg, Run(cfg, START, calls), k)
  {
    if k == 0 {
      calls := [];
    } else {
      calls := FillWindow(cfg, k - 1);
      var c := FillOneMore(cfg, Run(cfg, START, calls), k - 1);
      Extend(cfg, START, calls, c);
      calls := calls + [c];
    }
  }

  lemma ExtendByTwo(cfg: Config, calls: seq<Call>, w: World, b: Call, c: Call)
    requires Valid(cfg, START, calls) && w == Run(cfg, START, calls)
    requires Possible(cfg, w, b) && Possible(cfg, Step(cfg, w, b), c)
    ensures Valid(cfg, START, calls + [b] + [c])
    ensures Run(cfg, START, calls + [b] + [c]) == Step(cfg, Step(cfg, w, b), c)
  {
    Extend(cfg, START, calls, b);
    Extend(cfg, START, calls + [b], c);
  }

  /**
    The interval cannot be a millisecond longer: for every limit some run has max + 1 admitted
    timestamps within window - (lag + lead) + 1. The window is filled at one instant on the fastest
    clock, pruned by a count on that clock a window later, and one request is admitted right then on
    the slowest clock.
   */
  lemma WindowBoundIsSharp(cfg: Config) returns (calls: seq<Call>, from: int)
    requires 0 < cfg.max && 0 < cfg.windowMs && 0 <= Span(cfg)
    ensures Valid(cfg, START, calls)
    ensures LongerCount(cfg, Run(cfg, START, calls).admitted, from) == cfg.max + 1
  {
    var filling := FillWindow(cfg, cfg.max);
    calls := Overfilled(cfg, filling, Run(cfg, START, filling));
    from := FirstScore(cfg);
  }

  lemma Overfilled(cfg: Config, filling: seq<Call>, full: World) returns (calls: seq<Call>)
    requires 0 < cfg.max && 0 < cfg.windowMs && 0 <= Span(cfg)
    requires Valid(cfg, START, filling) && full == Run(cfg, START, filling) && Filled(cfg, full, cfg.max)
    ensures Valid(cfg, START, calls)
    ensures LongerCount(cfg, Run(cfg, START, calls).admitted, FirstScore(cfg)) == cfg.max + 1
  {
    var prune, second := OneTooMany(cfg, full);
    ExtendByTwo(cfg, filling, full, prune, second);
    calls := filling + [prune] + [second];
  }

  // ---------------------------------------------------------------------------------------------
  // Refinement: the pruned, expiring key decides as a limiter that keeps the whole history.

  /** Reply of a limiter that looks only at the history of admitted requests. */
  ghost function FullHistoryReply(cfg: Config, history: ZSet, clock: nat): Reply {
    var inWindow := ZRemRangeByScore(history, clock - cfg.windowMs);
    if |inWindow| < cfg.max then Ok(RateLimitResult(true, cfg.max - |inWindow| - 1, 0))
    else if |inWindow| == 0 then Err(CommandFailed)
    else Ok(RateLimitResult(false, 0, Oldest(inWindow) + TtlSecs(cfg.windowMs) * 1000))
  }

  ghost predicate Monotone(cfg: Config, w: World, calls: seq<Call>)
    decreases |calls|
  {
    calls == [] ||
    (w.clock <= calls[0].clock && Possible(cfg, w, calls[0]) && Monotone(cfg, Step(cfg, w, calls[0]), calls[1..]))
  }

  /** The replies the code gives along a run. */
  ghost function Replies(cfg: Config, w: World, calls: seq<Call>): seq<Reply>
    decreases |calls|
  {
    if calls == [] then []
    else (if calls[0].Check? then [Answer(cfg, w, calls[0])] else []) + Replies(cfg, Step(cfg, w, calls[0]), calls[1..])
  }

  /** The replies of the limiter that never forgets, run on its own history. */
  ghost function FullHistoryReplies(cfg: Config, history: ZSet, calls: seq<Call>): seq<Reply>
    decreases |calls|
  {
    if calls == [] then []
    else match calls[0]
      case Prune(_, _) => FullHistoryReplies(cfg, history, calls[1..])
      case Check(clock, _, id) =>
        var r := FullHistoryReply(cfg, history, clock);
        [r] + FullHistoryReplies(cfg, if Admits(r) then history[id := clock] else history, calls[1..])
  }

  // As Retained, with the age of a forgotten member measured on the clients' clock.
  ghost predicate Faithful(cfg: Config, w: World) {
    && Retained(cfg, w)
    && ForgetsOnlyOld(cfg, w)
    && WithinMax(cfg, w.admitted, w.clock)
  }

  ghost predicate ForgetsOnlyOld(cfg: Config, w: World) {
    && (forall id :: id in w.admitted ==> w.admitted[id] <= w.clock)
    && (forall id :: id in w.admitted && id !in Members(w.slot) ==> w.admitted[id] + cfg.windowMs <= w.clock)
  }

  predicate WithinMax(cfg: Config, admitted: ZSet, clock: nat) {
    |ZRemRangeByScore(admitted, clock - cfg.windowMs)| <= cfg.max
  }

  // The key outlives its members on every clock; the TTL leaves 59 s or more for their spread.
  predicate KeyOutlivesWindow(cfg: Config) {
    cfg.windowMs == 0 || cfg.windowMs + cfg.lag + cfg.lead <= TtlSecs(cfg.windowMs) * 1000
  }

  /** Expiry and earlier pruning removed only what this check would have pruned. */
  lemma SameWindow(cfg: Config, w: World, c: Call)
    requires KeyOutlivesWindow(cfg) && Faithful(cfg, w) && Possible(cfg, w, c) && w.clock <= c.clock
    ensures ZRemRangeByScore(Members(View(w.slot, c.now)), c.clock - cfg.windowMs)
         == ZRemRangeByScore(w.admitted, c.clock - cfg.windowMs)
  {
    var stored, full := Members(View(w.slot, c.now)), w.admitted;
    var bound := c.clock - cfg.windowMs;
    forall id ensures id in full && bound < full[id] <==> id in stored && bound < stored[id] {
      if id in full && bound < full[id] {
        assert id in Members(w.slot);
      }
    }
    assert ZRemRangeByScore(stored, bound).Keys == ZRemRangeByScore(full, bound).Keys;
  }

  lemma WindowShrinks(history: ZSet, earlier: int, later: int)
    requires earlier <= later
    ensures |ZRemRangeByScore(history, later)| <= |ZRemRangeByScore(history, earlier)|
    ensures ZRemRangeByScore(history, later).Keys <= ZRemRangeByScore(history, earlier).Keys
  {
    SubsetCardinality(ZRemRangeByScore(history, later).Keys, ZRemRangeByScore(history, earlier).Keys);
  }

  lemma StepAnswers(cfg: Config, w: World, c: Call)
    requires KeyOutlivesWindow(cfg) && Faithful(cfg, w) && Possible(cfg, w, c) && w.clock <= c.clock
    requires c.Check?
    ensures Answer(cfg, w, c) == FullHistoryReply(cfg, w.admitted, c.clock)
  {
    SameWindow(cfg, w, c);
  }

  /** After a step exactly the window of the history is stored, and a request just admitted. */
  lemma StepStoresWindow(cfg: Config, w: World, c: Call)
    requires KeyOutlivesWindow(cfg) && Faithful(cfg, w) && Possible(cfg, w, c) && w.clock <= c.clock
    ensures var w', kept := Step(cfg, w, c), ZRemRangeByScore(w.admitted, c.clock - cfg.windowMs);
            if c.Check? && Admits(Answer(cfg, w, c)) then
              w'.admitted == w.admitted[c.id := c.clock] && Members(w'.slot) == kept[c.id := c.clock]
            else w'.admitted == w.admitted && Members(w'.slot) == kept
  {
    if c.Check? {
      CheckStoresWindow(cfg, w, c);
    } else {
      SameWindow(cfg, w, c);
    }
  }

  lemma CheckStoresWindow(cfg: Config, w: World, c: Call)
    requires KeyOutlivesWindow(cfg) && Faithful(cfg, w) && Possible(cfg, w, c) && w.clock <= c.clock && c.Check?
    ensures var slot, kept := Step(cfg, w, c).slot, ZRemRangeByScore(w.admitted, c.clock - cfg.windowMs);
            Members(slot) == if Admits(Answer(cfg, w, c)) then kept[c.id := c.clock] else kept
  {
    SameWindow(cfg, w, c);
  }

  lemma StepForgetsOnlyOld(cfg: Config, w: World, c: Call)
    requires KeyOutlivesWindow(cfg) && Faithful(cfg, w) && Possible(cfg, w, c) && w.clock <= c.clock
    ensures ForgetsOnlyOld(cfg, Step(cfg, w, c))
  {
    StepStoresWindow(cfg, w, c);
  }

  lemma AdmissionStaysWithinMax(history: ZSet, id: string, clock: int, bound: int, max: nat)
    requires |ZRemRangeByScore(history, bound)| < max
    ensures |ZRemRangeByScore(history[id := clock], bound)| <= max
  {
    var kept, window := ZRemRangeByScore(history, bound).Keys, ZRemRangeByScore(history[id := clock], bound).Keys;
    assert window <= kept + {id};
    SubsetCardinality(window, kept + {id});
  }

  lemma AdmittedWithinMax(cfg: Config, w: World, c: Call)
    requires KeyOutlivesWindow(cfg) && Faithful(cfg, w) && Possible(cfg, w, c) && w.clock <= c.clock
    requires c.Check? && Admits(Answer(cfg, w, c))
    ensures WithinMax(cfg, w.admitted[c.id := c.clock], c.clock)
  {
    StepAnswers(cfg, w, c);
    AdmissionStaysWithinMax(w.admitted, c.id, c.clock, c.clock - cfg.windowMs, cfg.max);
  }

  lemma StaysWithinMaxLater(cfg: Config, admitted: ZSet, clock: nat, later: nat)
    requires WithinMax(cfg, admitted, clock) && clock <= later
    ensures WithinMax(cfg, admitted, later)
  {
    WindowShrinks(admitted, clock - cfg.windowMs, later - cfg.windowMs);
  }

  lemma StepStaysWithinMax(cfg: Config, w: World, c: Call)
    requires KeyOutlivesWindow(cfg) && Faithful(cfg, w) && Possible(cfg, w, c) && w.clock <= c.clock
    ensures WithinMax(cfg, Step(cfg, w, c).admitted, Step(cfg, w, c).clock)
  {
    StaysWithinMaxLater(cfg, w.admitted, w.clock, c.clock);
    if c.Check? && Admits(Answer(cfg, w, c)) {
      AdmittedWithinMax(cfg, w, c);
    }
  }

  lemma StepFaithful(cfg: Config, w: World, c: Call)
    requires KeyOutlivesWindow(cfg) && Faithful(cfg, w) && Possible(cfg, w, c) && w.clock <= c.clock
    ensures Faithful(cfg, Step(cfg, w, c))
  {
    StepForgetsOnlyOld(cfg, w, c);
    StepRetains(cfg, w, c);
    StepStaysWithinMax(cfg, w, c);
  }

  /** Refinement: same admissions, same `remaining`, same `reset_at`; a count never matters. */
  lemma {:induction false} RefinesFullHistory(cfg: Config, w: World, calls: seq<Call>)
    requires KeyOutlivesWindow(cfg) && Faithful(cfg, w) && Monotone(cfg, w, calls)
    ensures Replies(cfg, w, calls) == FullHistoryReplies(cfg, w.admitted, calls)
    ensures Faithful(cfg, Run(cfg, w, calls))
    decreases |calls|
  {
    if calls == [] {
    } else {
      StepFaithful(cfg, w, calls[0]);
      if calls[0].Check? {
        StepAnswers(cfg, w, calls[0]);
      }
      RefinesFullHistory(cfg, Step(cfg, w, calls[0]), calls[1..]);
    }
  }

  lemma PrunedLimiterRefinesFullHistory(cfg: Config, calls: seq<Call>)
    requires KeyOutlivesWindow(cfg) && Monotone(cfg, START, calls)
    ensures Replies(cfg, START, calls) == FullHistoryReplies(cfg, map[], calls)
  {
    StartIsSound(cfg);
    RefinesFullHistory(cfg, START, calls);
  }

  lemma {:induction false} OnlyDenials(cfg: Config, w: World, calls: seq<Call>)
    requires forall r :: r in Replies(cfg, w, calls) ==> !Admits(r)
    ensures Run(cfg, w, calls).admitted == w.admitted
    decreases |calls|
  {
    if calls == [] {
    } else {
      var w' := Step(cfg, w, calls[0]);
      if calls[0].Check? {
        assert Replies(cfg, w, calls)[0] == Answer(cfg, w, calls[0]);
      }
      forall r | r in Replies(cfg, w', calls[1..]) ensures !Admits(r) {
        assert r in Replies(cfg, w, calls);
      }
      OnlyDenials(cfg, w', calls[1..]);
    }
  }

  lemma {:induction false} ClockAdvances(cfg: Config, w: World, calls: seq<Call>)
    requires Monotone(cfg, w, calls)
    ensures w.clock <= Run(cfg, w, calls).clock
    decreases |calls|
  {
    if calls == [] {
    } else {
      ClockAdvances(cfg, Step(cfg, w, calls[0]), calls[1..]);
    }
  }

  /** When the history alone denies at `clock`, it admits exactly from the oldest member's exit on. */
  lemma AdmitsAgainWhenOldestLeaves(cfg: Config, history: ZSet, clock: nat, later: nat)
    requires 0 < cfg.max && clock <= later
    requires |ZRemRangeByScore(history, clock - cfg.windowMs)| == cfg.max
    ensures var inWindow := ZRemRangeByScore(history, clock - cfg.windowMs);
            && 0 < |inWindow|
            && (Admits(FullHistoryReply(cfg, history, later)) <==> Oldest(inWindow) + cfg.windowMs <= later)
  {
    var full := ZRemRangeByScore(history, clock - cfg.windowMs);
    var rest := ZRemRangeByScore(history, later - cfg.windowMs);
    WindowShrinks(history, clock - cfg.windowMs, later - cfg.windowMs);
    var first :| first in full && full[first] == Oldest(full);
    if Oldest(full) + cfg.windowMs <= later {
      assert first !in rest;
      SubsetCardinality(rest.Keys, full.Keys);
    } else {
      assert rest.Keys == full.Keys;
    }
  }

  ghost predicate NothingAdmitted(cfg: Config, w: World, calls: seq<Call>) {
    forall r :: r in Replies(cfg, w, calls) ==> !Admits(r)
  }

  lemma {:induction false} QuietPeriod(cfg: Config, w: World, calls: seq<Call>, retry: Call)
    requires KeyOutlivesWindow(cfg) && Faithful(cfg, w) && retry.Check?
    requires Monotone(cfg, w, calls + [retry]) && NothingAdmitted(cfg, w, calls)
    ensures w.clock <= retry.clock
    ensures Answer(cfg, Run(cfg, w, calls), retry) == FullHistoryReply(cfg, w.admitted, retry.clock)
  {
    MonotoneSplits(cfg, w, calls, [retry]);
    RefinesFullHistory(cfg, w, calls);
    OnlyDenials(cfg, w, calls);
    ClockAdvances(cfg, w, calls);
    assert [retry][0] == retry;
    StepAnswers(cfg, Run(cfg, w, calls), retry);
  }

  lemma TtlOvershoot(windowMs: nat)
    ensures TtlSecs(windowMs) * 1000 == windowMs + 60_000 - windowMs % 1000
  {
  }

  lemma DenialMeansFullWindow(cfg: Config, w: World, denied: Call)
    requires KeyOutlivesWindow(cfg) && denied.Check? && 0 < cfg.max
    requires Faithful(cfg, w) && w.clock <= denied.clock && Possible(cfg, w, denied)
    requires !Admits(Answer(cfg, w, denied))
    ensures var inWindow := ZRemRangeByScore(w.admitted, denied.clock - cfg.windowMs);
            && |inWindow| == cfg.max
            && Answer(cfg, w, denied)
               == Ok(RateLimitResult(false, 0, Oldest(inWindow) + cfg.windowMs + 60_000 - cfg.windowMs % 1000))
  {
    TtlOvershoot(cfg.windowMs);
    StepAnswers(cfg, w, denied);
    WindowShrinks(w.admitted, w.clock - cfg.windowMs, denied.clock - cfg.windowMs);
  }

  lemma DenialBoundary(cfg: Config, w: World, denied: Call, later: nat)
    requires KeyOutlivesWindow(cfg) && denied.Check? && 0 < cfg.max
    requires Faithful(cfg, w) && w.clock <= denied.clock && Possible(cfg, w, denied)
    requires !Admits(Answer(cfg, w, denied)) && denied.clock <= later
    ensures var inWindow := ZRemRangeByScore(w.admitted, denied.clock - cfg.windowMs);
            && |inWindow| == cfg.max
            && (Admits(FullHistoryReply(cfg, w.admitted, later)) <==> Oldest(inWindow) + cfg.windowMs <= later)
  {
    assert |ZRemRangeByScore(w.admitted, denied.clock - cfg.windowMs)| == cfg.max by {
      DenialMeansFullWindow(cfg, w, denied);
    }
    AdmitsAgainWhenOldestLeaves(cfg, w.admitted, denied.clock, later);
  }

  /** After a denial and a quiet period the code answers from the history as it was at the denial. */
  lemma AnswerAfterQuiet(cfg: Config, w: World, denied: Call, between: seq<Call>, retry: Call)
    requires KeyOutlivesWindow(cfg) && denied.Check? && retry.Check?
    requires Faithful(cfg, w) && w.clock <= denied.clock && Possible(cfg, w, denied) && !Admits(Answer(cfg, w, denied))
    requires var w' := Step(cfg, w, denied);
             Monotone(cfg, w', between + [retry]) && NothingAdmitted(cfg, w', between)
    ensures denied.clock <= retry.clock
    ensures Answer(cfg, Run(cfg, Step(cfg, w, denied), between), retry)
         == FullHistoryReply(cfg, w.admitted, retry.clock)
  {
    StepFaithful(cfg, w, denied);
    QuietPeriod(cfg, Step(cfg, w, denied), between, retry);
  }

  /**
    After a denial, however many further denials and counts follow, the next check is admitted
    exactly from `oldest + window` on; the advertised `reset_at` is later than that by 60 s less
    the window's sub-second part.
   */
  lemma RetryAfterDenial(cfg: Config, before: seq<Call>, w: World, denied: Call, between: seq<Call>, retry: Call)
    requires KeyOutlivesWindow(cfg) && 0 < cfg.max && denied.Check? && retry.Check?
    requires Monotone(cfg, START, before + ([denied] + (between + [retry])))
    requires w == Run(cfg, START, before) && !Admits(Answer(cfg, w, denied))
    requires NothingAdmitted(cfg, Step(cfg, w, denied), between)
    ensures var inWindow := ZRemRangeByScore(w.admitted, denied.clock - cfg.windowMs);
            && |inWindow| == cfg.max
            && (Admits(Answer(cfg, Run(cfg, Step(cfg, w, denied), between), retry))
                <==> Oldest(inWindow) + cfg.windowMs <= retry.clock)
            && Answer(cfg, w, denied) == Ok(RateLimitResult(false, 0,
                 Oldest(inWindow) + cfg.windowMs + 60_000 - cfg.windowMs % 1000))
  {
    assert Faithful(cfg, w) && Monotone(cfg, w, [denied] + (between + [retry])) by {
      MonotoneSplits(cfg, START, before, [denied] + (between + [retry]));
      StartIsSound(cfg);
      RefinesFullHistory(cfg, START, before);
    }
    assert Monotone(cfg, Step(cfg, w, denied), between + [retry]) && w.clock <= denied.clock &&
        Possible(cfg, w, denied) by {
      var rest := [denied] + (between + [retry]);
      assert rest[0] == denied && rest[1..] == between + [retry];
    }
    DenialMeansFullWindow(cfg, w, denied);
    AnswerAfterQuiet(cfg, w, denied, between, retry);
    DenialBoundary(cfg, w, denied, retry.clock);
  }

  lemma {:induction false} MonotoneSplits(cfg: Config, w: World, a: seq<Call>, b: seq<Call>)
    requires Monotone(cfg, w, a + b)
    ensures Monotone(cfg, w, a) && Monotone(cfg, Run(cfg, w, a), b)
    decreases |a|
  {
    if a == [] {
      assert a + b == b;
    } else {
      assert (a + b)[0] == a[0] && (a + b)[1..] == a[1..] + b;
      MonotoneSplits(cfg, Step(cfg, w, a[0]), a[1..], b);
    }
  }

  /** A limit of zero is not "deny all": an error is the reply of every check then, and of none otherwise. */
  lemma {:induction false} ErrorExactlyAtZeroLimit(cfg: Config, calls: seq<Call>, w: World)
    requires cfg.max == 0 ==> w.slot.Absent?
    ensures forall r :: r in Replies(cfg, w, calls) ==> (r == Err(CommandFailed) <==> cfg.max == 0)
    ensures forall r :: r in Replies(cfg, w, calls) ==> (r.Err? <==> cfg.max == 0)
    decreases |calls|
  {
    if calls == [] {
    } else {
      var w' := Step(cfg, w, calls[0]);
      assert ZRemRangeByScore(map[], calls[0].clock - cfg.windowMs) == map[];
      ErrorExactlyAtZeroLimit(cfg, calls[1..], w');
    }
  }

  // ---- when the refinement holds --------------------------------------------------------------

  /** The code answers like the limiter that never forgets, in every run on non-decreasing clocks. */
  ghost predicate NeverForgets(cfg: Config) {
    forall calls :: Monotone(cfg, START, calls) ==> Replies(cfg, START, calls) == FullHistoryReplies(cfg, map[], calls)
  }

  lemma {:induction false} ZeroLimitReplies(cfg: Config, w: World, calls: seq<Call>)
    requires cfg.max == 0 && w.slot.Absent?
    ensures Replies(cfg, w, calls) == FullHistoryReplies(cfg, map[], calls)
    decreases |calls|
  {
    if calls == [] {
    } else {
      assert ZRemRangeByScore(map[], calls[0].clock - cfg.windowMs) == map[];
      ZeroLimitReplies(cfg, Step(cfg, w, calls[0]), calls[1..]);
    }
  }

  // Admitted on the fastest clock, and seen again when the key has just expired, on the slowest
  // clock that does not run backwards.
  function FirstCheck(cfg: Config): Call { Check(FirstScore(cfg), cfg.windowMs, "a") }

  function AfterExpiry(cfg: Config): Call {
    var expiry := cfg.windowMs + TtlSecs(cfg.windowMs) * 1000;
    Check(if expiry - cfg.lag < FirstScore(cfg) then FirstScore(cfg) else expiry - cfg.lag, expiry, "b")
  }

  lemma TwoReplies(cfg: Config, a: Call, b: Call)
    requires a.Check? && b.Check? && Admits(FullHistoryReply(cfg, map[], a.clock))
    requires Possible(cfg, START, a) && a.clock <= b.clock && Possible(cfg, Step(cfg, START, a), b)
    ensures Monotone(cfg, START, [a, b])
    ensures Replies(cfg, START, [a, b]) == [Answer(cfg, START, a), Answer(cfg, Step(cfg, START, a), b)]
    ensures FullHistoryReplies(cfg, map[], [a, b])
         == [FullHistoryReply(cfg, map[], a.clock), FullHistoryReply(cfg, map[a.id := a.clock], b.clock)]
  {
    assert [a, b][1..] == [b] && [b][1..] == [];
    var w1 := Step(cfg, START, a);
    assert w1.clock == a.clock;
    assert Monotone(cfg, Step(cfg, w1, b), []) && Monotone(cfg, w1, [b]);
    assert Replies(cfg, w1, [b]) == [Answer(cfg, w1, b)];
    assert FullHistoryReplies(cfg, map[a.id := a.clock], [b]) == [FullHistoryReply(cfg, map[a.id := a.clock], b.clock)];
  }

  lemma AfterFirstCheck(cfg: Config)
    requires 0 < cfg.max && 0 < cfg.windowMs
    ensures var history := map["a" := FirstScore(cfg)];
            var w1 := Step(cfg, START, FirstCheck(cfg));
            && w1.slot == SetEx(history, cfg.windowMs, TtlSecs(cfg.windowMs)) && w1.admitted == history
            && w1.now == cfg.windowMs && w1.clock == FirstScore(cfg)
            && Possible(cfg, START, FirstCheck(cfg)) && Admits(FullHistoryReply(cfg, map[], FirstScore(cfg)))
  {
    assert ZRemRangeByScore(map[], cfg.lead) == map[];
  }

  /** The expired key admits with an empty window where the history still holds one request. */
  lemma ExpiredKeyDiffers(cfg: Config, slot: Slot<ZSet>, history: ZSet)
    requires 0 < cfg.max && !KeyOutlivesWindow(cfg)
    requires history == map["a" := FirstScore(cfg)] && slot == SetEx(history, cfg.windowMs, TtlSecs(cfg.windowMs))
    ensures var b := AfterExpiry(cfg);
            CheckScript(slot, cfg.windowMs, cfg.max, b.clock, b.now, b.id).1 != FullHistoryReply(cfg, history, b.clock)
  {
    var b := AfterExpiry(cfg);
    assert View(slot, b.now) == Absent;
    assert ZRemRangeByScore(map[], b.clock - cfg.windowMs) == map[];
    assert ZRemRangeByScore(history, b.clock - cfg.windowMs) == history;
  }

  lemma ForgottenTooEarly(cfg: Config)
    requires 0 < cfg.max && !KeyOutlivesWindow(cfg)
    ensures !NeverForgets(cfg)
  {
    var a, b, history := FirstCheck(cfg), AfterExpiry(cfg), map["a" := FirstScore(cfg)];
    AfterFirstCheck(cfg);
    ExpiredKeyDiffers(cfg, Step(cfg, START, a).slot, history);
    TwoReplies(cfg, a, b);
    assert Replies(cfg, START, [a, b])[1] != FullHistoryReplies(cfg, map[], [a, b])[1];
  }

  /**
    Exact condition: expiry and pruning are invisible on non-decreasing clocks exactly when the key
    outlives the window on the slowest of them, or the limit is zero.
   */
  lemma RefinesExactlyWhen(cfg: Config)
    ensures NeverForgets(cfg) <==> cfg.max == 0 || KeyOutlivesWindow(cfg)
  {
    if cfg.max == 0 {
      forall calls | Monotone(cfg, START, calls)
        ensures Replies(cfg, START, calls) == FullHistoryReplies(cfg, map[], calls)
      {
        ZeroLimitReplies(cfg, START, calls);
      }
    } else if KeyOutlivesWindow(cfg) {
      forall calls | Monotone(cfg, START, calls)
        ensures Replies(cfg, START, calls) == FullHistoryReplies(cfg, map[], calls)
      {
        PrunedLimiterRefinesFullHistory(cfg, calls);
      }
    } else {
      ForgottenTooEarly(cfg);
    }
  }

  // ---- what a count reads ---------------------------------------------------------------------

  lemma PruningShrinks(z: ZSet, bound: int)
    ensures |ZRemRangeByScore(z, bound)| <= |z|
  {
    SubsetCardinality(ZRemRangeByScore(z, bound).Keys, z.Keys);
  }

  lemma AddingGrowsByOne(z: ZSet, id: string, score: int)
    ensures |z[id := score]| <= |z| + 1
  {
    SubsetCardinality(z[id := score].Keys, z.Keys + {id});
  }

  lemma StepStoresWithinMax(cfg: Config, w: World, c: Call)
    requires |Members(w.slot)| <= cfg.max
    ensures |Members(Step(cfg, w, c).slot)| <= cfg.max
  {
    var stored := Members(View(w.slot, c.now));
    PruningShrinks(stored, c.clock - cfg.windowMs);
    if c.Check? {
      AddingGrowsByOne(ZRemRangeByScore(stored, c.clock - cfg.windowMs), c.id, c.clock);
    }
  }

  lemma {:induction false} StoredWithinMax(cfg: Config, w: World, calls: seq<Call>)
    requires |Members(w.slot)| <= cfg.max
    ensures |Members(Run(cfg, w, calls).slot)| <= cfg.max
    decreases |calls|
  {
    if calls == [] {
    } else {
      StepStoresWithinMax(cfg, w, calls[0]);
      StoredWithinMax(cfg, Step(cfg, w, calls[0]), calls[1..]);
    }
  }

  /** Whatever runs between a count's two commands, and whenever the second reads, it never reports more than max. */
  lemma CountsNeverExceedMax(cfg: Config, calls: seq<Call>, cardAt: nat)
    ensures |Members(View(Run(cfg, START, calls).slot, cardAt))| <= cfg.max
  {
    StoredWithinMax(cfg, START, calls);
  }

  /** Requests of the history that fall into the window ending at `clock`. */
  function InWindow(admitted: ZSet, windowMs: nat, clock: nat): set<string> {
    set id | id in admitted && clock < admitted[id] + windowMs
  }

  lemma PrunedIsWindow(admitted: ZSet, windowMs: nat, clock: nat)
    ensures |ZRemRangeByScore(admitted, clock - windowMs)| == |InWindow(admitted, windowMs, clock)|
  {
    assert ZRemRangeByScore(admitted, clock - windowMs).Keys == InWindow(admitted, windowMs, clock);
  }

  lemma CountStored(slot: Slot<ZSet>, windowMs: nat, clock: nat, now: nat)
    ensures |Members(View(PruneKey(slot, windowMs, clock, now), now))|
         == |ZRemRangeByScore(Members(View(slot, now)), clock - windowMs)|
  {
  }

  lemma CountFromFaithful(cfg: Config, w: World, c: Call)
    requires KeyOutlivesWindow(cfg) && Faithful(cfg, w) && Possible(cfg, w, c) && w.clock <= c.clock
    ensures |Members(View(PruneKey(w.slot, cfg.windowMs, c.clock, c.now), c.now))|
         == |InWindow(w.admitted, cfg.windowMs, c.clock)|
  {
    CountStored(w.slot, cfg.windowMs, c.clock, c.now);
    SameWindow(cfg, w, c);
    PrunedIsWindow(w.admitted, cfg.windowMs, c.clock);
  }

  lemma AdmitsBelowMax(cfg: Config, w: World, c: Call)
    requires KeyOutlivesWindow(cfg) && Faithful(cfg, w) && Possible(cfg, w, c) && w.clock <= c.clock && c.Check?
    ensures Admits(Answer(cfg, w, c)) <==> |InWindow(w.admitted, cfg.windowMs, c.clock)| < cfg.max
  {
    StepAnswers(cfg, w, c);
    PrunedIsWindow(w.admitted, cfg.windowMs, c.clock);
  }

  lemma ReachedIsFaithful(cfg: Config, calls: seq<Call>)
    requires KeyOutlivesWindow(cfg) && Monotone(cfg, START, calls)
    ensures Faithful(cfg, Run(cfg, START, calls))
  {
    StartIsSound(cfg);
    RefinesFullHistory(cfg, START, calls);
  }

  /**
    A count read at once is the number of requests admitted in the last window, however much the
    key has forgotten, and a check in its place would be admitted exactly if it is below max.
   */
  lemma CountReportsWindow(cfg: Config, calls: seq<Call>, w: World, clock: nat, now: nat, id: string)
    requires KeyOutlivesWindow(cfg) && Monotone(cfg, START, calls) && w == Run(cfg, START, calls)
    requires Possible(cfg, w, Check(clock, now, id)) && w.clock <= clock
    ensures var count := |Members(View(PruneKey(w.slot, cfg.windowMs, clock, now), now))|;
            && count == |InWindow(w.admitted, cfg.windowMs, clock)|
            && (Admits(Answer(cfg, w, Check(clock, now, id))) <==> count < cfg.max)
  {
    ReachedIsFaithful(cfg, calls);
    CountFromFaithful(cfg, w, Check(clock, now, id));
    AdmitsBelowMax(cfg, w, Check(clock, now, id));
  }
}
