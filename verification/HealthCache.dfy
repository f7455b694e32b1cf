/**
  The single-flight health caches of backend/api/src/health.rs: one cached value behind a
  reader-writer lock, a read-locked fast path and a write-locked probe that checks again first.
  Times are milliseconds of the process's monotonic clock.
 */
module HealthCache {
  import opened Basics

  const HEALTH_CACHE_TTL := 1000
  const HEALTH_ERROR_CACHE_TTL := 2000

  datatype Health = Health(status: string, service: Option<string>)

  datatype Entry = Entry(cachedAt: nat, value: Health)

  function Ttl(v: Health): nat { if v.status == "ok" then HEALTH_CACHE_TTL else HEALTH_ERROR_CACHE_TTL }

  predicate Fresh(entry: Option<Entry>, now: nat) {
    entry.Some? && now < entry.value.cachedAt + Ttl(entry.value.value)
  }

  /** A result is served for 1 s if it is "ok" and for 2 s otherwise. */
  lemma FreshExactly(entry: Option<Entry>, now: nat)
    ensures Fresh(entry, now) <==>
              entry.Some? && now < entry.value.cachedAt + (if entry.value.value.status == "ok" then 1000 else 2000)
  {
  }

  // ---- interleavings of any number of callers -------------------------------------------------

  // A caller that missed on the fast path waits for the write lock; only its holder is probing.
  datatype Phase = Waiting | Probing(startedAt: nat)

  datatype Probe = Probe(caller: nat, startedAt: nat, completedAt: nat, value: Health)

  // `own` tells a value probed by the caller from a cached one.
  datatype Answer = Answer(caller: nat, at: nat, value: Health, own: bool)

  // `probes` and `answers` record the run: completed probes and returned values, oldest first.
  datatype World = World(clock: nat, entry: Option<Entry>, writer: Option<nat>, callers: map<nat, Phase>,
                         probes: seq<Probe>, answers: seq<Answer>)

  datatype Event =
    | Read(caller: nat, at: nat)
    | Lock(caller: nat, at: nat)
    | Finish(caller: nat, at: nat, value: Health)

  predicate Possible(w: World, e: Event) {
    && w.clock <= e.at
    && match e
       case Read(c, _) => c !in w.callers && w.writer.None?
       case Lock(c, _) => c in w.callers && w.callers[c].Waiting? && w.writer.None?
       case Finish(c, _, _) => c in w.callers && w.callers[c].Probing?
  }

  function Step(w: World, e: Event): World
    requires Possible(w, e)
  {
    match e
    case Read(c, at) =>
      if Fresh(w.entry, at) then w.(clock := at, answers := w.answers + [Answer(c, at, w.entry.value.value, false)])
      else w.(clock := at, callers := w.callers[c := Waiting])
    case Lock(c, at) =>
      if Fresh(w.entry, at) then
        w.(clock := at, callers := w.callers - {c}, answers := w.answers + [Answer(c, at, w.entry.value.value, false)])
      else w.(clock := at, writer := Some(c), callers := w.callers[c := Probing(at)])
    case Finish(c, at, v) =>
      w.(clock := at, entry := Some(Entry(at, v)), writer := None, callers := w.callers - {c},
         probes := w.probes + [Probe(c, w.callers[c].startedAt, at, v)],
         answers := w.answers + [Answer(c, at, v, true)])
  }

  ghost predicate Valid(w: World, events: seq<Event>)
    decreases |events|
  {
    events == [] || (Possible(w, events[0]) && Valid(Step(w, events[0]), events[1..]))
  }

  ghost function Run(w: World, events: seq<Event>): World
    requires Valid(w, events)
    decreases |events|
  {
    if events == [] then w else Run(Step(w, events[0]), events[1..])
  }

  function Start(clock: nat): World { World(clock, None, None, map[], [], []) }

  // ---- what every step keeps ------------------------------------------------------------------

  ghost predicate WriterExclusive(w: World) {
    forall c :: c in w.callers && w.callers[c].Probing? <==> w.writer == Some(c)
  }

  /** A start time that respects everything the completed probes have cached. */
  predicate After(probes: seq<Probe>, start: nat) {
    probes != [] ==> var last := probes[|probes| - 1]; last.completedAt + Ttl(last.value) <= start
  }

  predicate Spaced(probes: seq<Probe>) {
    && (forall i :: 0 <= i < |probes| ==> probes[i].startedAt <= probes[i].completedAt)
    && (forall i :: 0 < i < |probes| ==> After(probes[..i], probes[i].startedAt))
  }

  predicate EntryIsLastProbe(w: World) {
    w.entry == if w.probes == [] then None
               else var last := w.probes[|w.probes| - 1]; Some(Entry(last.completedAt, last.value))
  }

  predicate Serves(p: Probe, a: Answer) {
    && p.value == a.value
    && if a.own then p.caller == a.caller && p.completedAt == a.at
       else p.completedAt <= a.at < p.completedAt + Ttl(p.value)
  }

  predicate Backed(probes: seq<Probe>, a: Answer) {
    exists k :: 0 <= k < |probes| && Serves(probes[k], a)
  }

  ghost predicate Inv(w: World) {
    && WriterExclusive(w)
    && EntryIsLastProbe(w)
    && Spaced(w.probes)
    && (w.probes != [] ==> w.probes[|w.probes| - 1].completedAt <= w.clock)
    && (forall c :: c in w.callers && w.callers[c].Probing? ==>
          w.callers[c].startedAt <= w.clock && After(w.probes, w.callers[c].startedAt))
    && (forall i :: 0 <= i < |w.answers| ==> Backed(w.probes, w.answers[i]))
  }

  lemma BackedStays(probes: seq<Probe>, p: Probe, a: Answer)
    requires Backed(probes, a)
    ensures Backed(probes + [p], a)
  {
    var k :| 0 <= k < |probes| && Serves(probes[k], a);
    assert (probes + [p])[k] == probes[k];
  }

  lemma SpacedExtends(probes: seq<Probe>, p: Probe)
    requires Spaced(probes) && After(probes, p.startedAt) && p.startedAt <= p.completedAt
    ensures Spaced(probes + [p])
  {
    var longer := probes + [p];
    forall i | 0 < i < |longer| ensures After(longer[..i], longer[i].startedAt) {
      assert longer[..i] == probes[..i];
      assert probes[..|probes|] == probes;
    }
  }

  lemma CachedAnswerBacked(w: World, c: nat, at: nat)
    requires EntryIsLastProbe(w) && Fresh(w.entry, at) && w.clock <= at
    requires w.probes != [] ==> w.probes[|w.probes| - 1].completedAt <= w.clock
    ensures Backed(w.probes, Answer(c, at, w.entry.value.value, false))
  {
    assert Serves(w.probes[|w.probes| - 1], Answer(c, at, w.entry.value.value, false));
  }

  lemma FinishBacksAnswers(probes: seq<Probe>, answers: seq<Answer>, p: Probe)
    requires forall i :: 0 <= i < |answers| ==> Backed(probes, answers[i])
    ensures forall i :: 0 <= i < |answers| + 1 ==>
              Backed(probes + [p], (answers + [Answer(p.caller, p.completedAt, p.value, true)])[i])
  {
    var own := Answer(p.caller, p.completedAt, p.value, true);
    forall i | 0 <= i < |answers| + 1 ensures Backed(probes + [p], (answers + [own])[i]) {
      if i < |answers| {
        BackedStays(probes, p, answers[i]);
      } else {
        assert Serves((probes + [p])[|probes|], own);
      }
    }
  }

  lemma FinishKeepsInv(w: World, e: Event)
    requires Inv(w) && Possible(w, e) && e.Finish?
    ensures Inv(Step(w, e))
  {
    var p := Probe(e.caller, w.callers[e.caller].startedAt, e.at, e.value);
    SpacedExtends(w.probes, p);
    FinishBacksAnswers(w.probes, w.answers, p);
    assert Step(w, e).probes[|w.probes|] == p;
  }

  lemma HitKeepsInv(w: World, e: Event)
    requires Inv(w) && Possible(w, e) && !e.Finish? && Fresh(w.entry, e.at)
    ensures Inv(Step(w, e))
  {
    CachedAnswerBacked(w, e.caller, e.at);
    var w' := Step(w, e);
    forall i | 0 <= i < |w'.answers| ensures Backed(w'.probes, w'.answers[i]) {
      assert i < |w.answers| ==> w'.answers[i] == w.answers[i];
    }
  }

  lemma MissKeepsInv(w: World, e: Event)
    requires Inv(w) && Possible(w, e) && !e.Finish? && !Fresh(w.entry, e.at)
    ensures Inv(Step(w, e))
  {
    assert After(w.probes, e.at);
  }

  lemma StepKeepsInv(w: World, e: Event)
    requires Inv(w) && Possible(w, e)
    ensures Inv(Step(w, e))
  {
    if e.Finish? {
      FinishKeepsInv(w, e);
    } else if Fresh(w.entry, e.at) {
      HitKeepsInv(w, e);
    } else {
      MissKeepsInv(w, e);
    }
  }

  lemma {:induction false} RunKeepsInv(w: World, events: seq<Event>)
    requires Inv(w) && Valid(w, events)
    ensures Inv(Run(w, events))
    decreases |events|
  {
    if events == [] {
    } else {
      StepKeepsInv(w, events[0]);
      RunKeepsInv(Step(w, events[0]), events[1..]);
    }
  }

  // ---- main results ---------------------------------------------------------------------------

  /** However many callers there are, at most one probe is in flight. */
  lemma SingleFlight(clock: nat, events: seq<Event>, w: World, a: nat, b: nat)
    requires Valid(Start(clock), events) && w == Run(Start(clock), events)
    requires a in w.callers && w.callers[a].Probing?
    requires b in w.callers && w.callers[b].Probing?
    ensures a == b
  {
    RunKeepsInv(Start(clock), events);
  }

  /** Every value returned was probed by its caller, or completed less than its lifetime before. */
  lemma AnswersAreRecent(clock: nat, events: seq<Event>, w: World, i: nat)
    requires Valid(Start(clock), events) && w == Run(Start(clock), events)
    requires i < |w.answers|
    ensures var a := w.answers[i];
            exists k ::
              && 0 <= k < |w.probes| && w.probes[k].value == a.value
              && w.probes[k].startedAt <= w.probes[k].completedAt <= a.at
              && if a.own then w.probes[k].caller == a.caller && w.probes[k].completedAt == a.at
                 else a.at - w.probes[k].completedAt < (if a.value.status == "ok" then 1000 else 2000)
  {
    RunKeepsInv(Start(clock), events);
    var k :| 0 <= k < |w.probes| && Serves(w.probes[k], w.answers[i]);
    assert w.probes[k].value == w.answers[i].value;
  }

  /** A probe starts no earlier than any previous completion plus the lifetime of that result. */
  lemma {:induction false} SpacedPairs(probes: seq<Probe>, i: nat, j: nat)
    requires Spaced(probes) && i < j < |probes|
    ensures probes[i].completedAt + Ttl(probes[i].value) + (j - 1 - i) * 1000 <= probes[j].startedAt
    decreases j
  {
    assert After(probes[..j], probes[j].startedAt);
    if i < j - 1 {
      SpacedPairs(probes, i, j - 1);
    }
  }

  /** The start times of a run's probes: the completed ones and the one in flight. */
  function Starts(w: World): seq<nat>
    requires w.writer.Some? ==> w.writer.value in w.callers && w.callers[w.writer.value].Probing?
  {
    seq(|w.probes|, i requires 0 <= i < |w.probes| => w.probes[i].startedAt)
      + if w.writer.Some? then [w.callers[w.writer.value].startedAt] else []
  }

  lemma StartsSpaced(w: World, i: nat, j: nat)
    requires Inv(w) && i < j < |Starts(w)|
    ensures i < |w.probes|
    ensures w.probes[i].completedAt + Ttl(w.probes[i].value) <= Starts(w)[j]
    ensures Starts(w)[i] + (j - i) * 1000 <= Starts(w)[j]
  {
    if j < |w.probes| {
      SpacedPairs(w.probes, i, j);
    } else {
      var last := |w.probes| - 1;
      assert After(w.probes, Starts(w)[j]);
      if i < last {
        SpacedPairs(w.probes, i, last);
      }
    }
  }

  ghost predicate StartedFrom(w: World, clock: nat) {
    && clock <= w.clock
    && (forall i :: 0 <= i < |w.probes| ==> clock <= w.probes[i].startedAt)
    && (forall c :: c in w.callers && w.callers[c].Probing? ==> clock <= w.callers[c].startedAt)
  }

  lemma {:induction false} RunStartedFrom(w: World, events: seq<Event>, clock: nat)
    requires StartedFrom(w, clock) && Valid(w, events)
    ensures StartedFrom(Run(w, events), clock)
    decreases |events|
  {
    if events == [] {
    } else {
      assert StartedFrom(Step(w, events[0]), clock);
      RunStartedFrom(Step(w, events[0]), events[1..], clock);
    }
  }

  /**
    Probe rate: among the probes of a run, those from the i-th to the j-th starting within T
    milliseconds number at most 1 + ⌊T / 1 s⌋, and each waits out the previous result's lifetime.
   */
  lemma ProbesAreRateLimited(clock: nat, events: seq<Event>, w: World, i: nat, j: nat, T: nat)
    requires Valid(Start(clock), events) && w == Run(Start(clock), events)
    ensures WriterExclusive(w)
    ensures i <= j < |Starts(w)| && Starts(w)[j] <= Starts(w)[i] + T ==> j - i + 1 <= 1 + T / 1000
    ensures i < j < |Starts(w)| ==>
              && i < |w.probes|
              && w.probes[i].completedAt + (if w.probes[i].value.status == "ok" then 1000 else 2000) <= Starts(w)[j]
  {
    RunKeepsInv(Start(clock), events);
    if i < j < |Starts(w)| {
      StartsSpaced(w, i, j);
    }
  }

  /** A run of length T starts at most 1 + ⌊T / 1 s⌋ probes. */
  lemma ProbesPerRun(clock: nat, events: seq<Event>, w: World)
    requires Valid(Start(clock), events) && w == Run(Start(clock), events)
    ensures WriterExclusive(w) && clock <= w.clock
    ensures |Starts(w)| <= 1 + (w.clock - clock) / 1000
  {
    RunKeepsInv(Start(clock), events);
    RunStartedFrom(Start(clock), events, clock);
    if Starts(w) != [] {
      var last := |Starts(w)| - 1;
      assert clock <= Starts(w)[0] && Starts(w)[last] <= w.clock;
      ProbesAreRateLimited(clock, events, w, 0, last, w.clock - clock);
    }
  }

  /** Polling once a second against a healthy, instant dependency. */
  function Polls(from: nat, n: nat): seq<Event>
    decreases n
  {
    if n == 0 then []
    else [Read(0, from), Lock(0, from), Finish(0, from, Health("ok", None))] + Polls(from + 1000, n - 1)
  }

  predicate Rested(w: World, from: nat) {
    w.writer.None? && w.callers == map[] && w.clock <= from && !Fresh(w.entry, from)
  }

  lemma {:induction false} PollsProbe(w: World, from: nat, n: nat)
    requires Rested(w, from)
    ensures Valid(w, Polls(from, n))
    ensures |Run(w, Polls(from, n)).probes| == |w.probes| + n
    ensures 0 < n ==> Run(w, Polls(from, n)).clock == from + (n - 1) * 1000
    ensures n == 0 ==> Run(w, Polls(from, n)).clock == w.clock
    decreases n
  {
    if n == 0 {
    } else {
      var events := Polls(from, n);
      var rest := Polls(from + 1000, n - 1);
      var w1 := Step(w, Read(0, from));
      var w2 := Step(w1, Lock(0, from));
      var w3 := Step(w2, Finish(0, from, Health("ok", None)));
      assert events[1..] == [Lock(0, from), Finish(0, from, Health("ok", None))] + rest;
      assert events[1..][1..] == [Finish(0, from, Health("ok", None))] + rest;
      assert events[1..][1..][1..] == rest;
      assert w3.callers == map[];
      PollsProbe(w3, from + 1000, n - 1);
      assert Valid(w2, events[1..][1..]);
      assert Valid(w1, events[1..]);
      assert Run(w2, events[1..][1..]) == Run(w3, rest);
      assert Run(w1, events[1..]) == Run(w2, events[1..][1..]);
      assert Run(w, events) == Run(w1, events[1..]);
    }
  }

  /** The rate bound is reached: n seconds of a run can hold n + 1 probes. */
  lemma RateBoundIsReached(clock: nat, n: nat)
    ensures Valid(Start(clock), Polls(clock, n + 1))
    ensures var w := Run(Start(clock), Polls(clock, n + 1));
            |w.probes| == n + 1 && w.clock == clock + n * 1000
  {
    PollsProbe(Start(clock), clock, n + 1);
  }

  // ---- the cache object -----------------------------------------------------------------------

  /** One dependency's cache; a probe's outcome and the clock readings are given. */
  class DependencyCache {
    var entry: Option<Entry>

    constructor ()
      ensures entry == None
    {
      entry := None;
    }

    /** Under the read lock. */
    method FastPath(readAt: nat) returns (hit: Option<Health>)
      ensures Fresh(entry, readAt) ==> hit == Some(entry.value.value)
      ensures !Fresh(entry, readAt) ==> hit == None
    {
      if entry.Some? && readAt < entry.value.cachedAt + Ttl(entry.value.value) {
        return Some(entry.value.value);
      }
      return None;
    }

    /** Under the write lock, held from the second check to the end of the probe. */
    method CheckedProbe(lockAt: nat, doneAt: nat, outcome: Health) returns (v: Health, probed: bool)
      modifies this
      ensures probed <==> !Fresh(old(entry), lockAt)
      ensures probed ==> v == outcome && entry == Some(Entry(doneAt, outcome))
      ensures !probed ==> old(entry).Some? && v == old(entry).value.value && entry == old(entry)
    {
      if entry.Some? && lockAt < entry.value.cachedAt + Ttl(entry.value.value) {
        return entry.value.value, false;
      }
      v, probed := outcome, true;
      entry := Some(Entry(doneAt, v));
    }

    /** With nobody else around, the second check never hits. */
    method HealthValue(readAt: nat, lockAt: nat, doneAt: nat, outcome: Health) returns (v: Health)
      requires readAt <= lockAt <= doneAt
      modifies this
      ensures Fresh(old(entry), readAt) ==> v == old(entry).value.value && entry == old(entry)
      ensures !Fresh(old(entry), readAt) ==> v == outcome && entry == Some(Entry(doneAt, outcome))
    {
      var hit := FastPath(readAt);
      if hit.Some? {
        return hit.value;
      }
      var probed;
      v, probed := CheckedProbe(lockAt, doneAt, outcome);
    }
  }

  /** Alone, a call is a read that answers, or a read, a lock and a finish that cache the probe's outcome. */
  lemma CallAsSteps(w: World, c: nat, readAt: nat, lockAt: nat, doneAt: nat, outcome: Health)
    requires c !in w.callers && w.writer.None? && w.clock <= readAt <= lockAt <= doneAt
    ensures Possible(w, Read(c, readAt))
    ensures Fresh(w.entry, readAt) ==>
              var after := Step(w, Read(c, readAt));
              after.entry == w.entry && after.answers == w.answers + [Answer(c, readAt, w.entry.value.value, false)]
    ensures !Fresh(w.entry, readAt) ==>
              var events := [Read(c, readAt), Lock(c, lockAt), Finish(c, doneAt, outcome)];
              && Valid(w, events)
              && var after := Run(w, events);
                 && after.entry == Some(Entry(doneAt, outcome)) && after.writer.None? && after.callers == w.callers
                 && after.answers == w.answers + [Answer(c, doneAt, outcome, true)]
  {
    if !Fresh(w.entry, readAt) {
      var events := [Read(c, readAt), Lock(c, lockAt), Finish(c, doneAt, outcome)];
      var w1 := Step(w, events[0]);
      var w2 := Step(w1, Lock(c, lockAt));
      var w3 := Step(w2, Finish(c, doneAt, outcome));
      assert events[1..] == [Lock(c, lockAt), Finish(c, doneAt, outcome)];
      assert events[1..][1..] == [Finish(c, doneAt, outcome)];
      assert events[1..][1..][1..] == [];
      assert Valid(w3, []) && Valid(w2, events[1..][1..]) && Valid(w1, events[1..]);
      assert Run(w2, events[1..][1..]) == w3;
      assert Run(w1, events[1..]) == w3;
      assert w3.callers == w.callers;
    }
  }
}
