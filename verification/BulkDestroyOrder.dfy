/**
  Overlapping bulk destroys of one user in backend/cache/src/session.rs. All of them share one
  temporary key, so whether the sessions that a RENAME moved are deleted depends on the order of the
  commands alone; this module says for which orders they are.
 */
module BulkDestroyOrder {
  import opened Basics
  import opened RedisKeys
  import opened Sessions
  import opened SessionRuns

  // ---- the order of one user's bulk-destroy commands ------------------------------------------

  datatype Cmd = RenameBy(job: nat) | ListBy(job: nat) | DropBy(job: nat) | DeleteBy(job: nat)

  /** The command an event is for `uid`, if any; a RENAME that finds no index does nothing. */
  function CmdOf(w: World, e: Event, uid: string): seq<Cmd>
    requires Possible(w, e)
  {
    match e
    case Rename(j, u, now) => if u == uid && RenameIndex(w.db, uid, now).Some? then [RenameBy(j)] else []
    case List(j, _) => if w.jobs[j].uid == uid then [ListBy(j)] else []
    case DropTemp(j, _) => if w.jobs[j].uid == uid then [DropBy(j)] else []
    case DeleteKeys(j, _) => if w.jobs[j].uid == uid then [DeleteBy(j)] else []
    case _ => []
  }

  ghost function Order(ttl: nat, w: World, events: seq<Event>, uid: string): seq<Cmd>
    requires Valid(ttl, w, events)
    decreases |events|
  {
    if events == [] then [] else CmdOf(w, events[0], uid) + Order(ttl, Step(ttl, w, events[0]), events[1..], uid)
  }

  lemma {:induction false} OrderJoin(ttl: nat, w: World, a: seq<Event>, b: seq<Event>, uid: string)
    requires Valid(ttl, w, a) && Valid(ttl, Run(ttl, w, a), b)
    ensures Valid(ttl, w, a + b) && Run(ttl, w, a + b) == Run(ttl, Run(ttl, w, a), b)
    ensures Order(ttl, w, a + b, uid) == Order(ttl, w, a, uid) + Order(ttl, Run(ttl, w, a), b, uid)
    decreases |a|
  {
    if a == [] {
      assert a + b == b;
    } else {
      assert (a + b)[0] == a[0] && (a + b)[1..] == a[1..] + b;
      var w' := Step(ttl, w, a[0]);
      OrderJoin(ttl, w', a[1..], b, uid);
      ConcatAssociates(CmdOf(w, a[0], uid), Order(ttl, w', a[1..], uid), Order(ttl, Run(ttl, w, a), b, uid));
    }
  }

  // ---- the condition --------------------------------------------------------------------------

  /** No RENAME and no DEL of the temporary key: what was moved there still is. */
  predicate Untouched(order: seq<Cmd>) {
    forall i :: 0 <= i < |order| ==> !order[i].RenameBy? && !order[i].DropBy?
  }

  /** Job `j` lists the temporary key at `p` before anything touched it. */
  predicate Reads(order: seq<Cmd>, p: nat, j: nat) {
    p < |order| && order[p] == ListBy(j) && Untouched(order[..p])
  }

  ghost predicate ReadBy(order: seq<Cmd>, j: nat) { exists p: nat :: Reads(order, p, j) }

  /**
    Some job, the mover or another, lists the moved sessions before the next RENAME or DEL of the
    temporary key, and deletes what it listed.
   */
  ghost predicate Caught(order: seq<Cmd>) {
    exists p: nat, q: nat, j :: Reads(order, p, j) && p < q < |order| && order[q] == DeleteBy(j)
  }

  lemma UntouchedSnoc(order: seq<Cmd>, c: Cmd)
    ensures Untouched(order + [c]) <==> Untouched(order) && !c.RenameBy? && !c.DropBy?
  {
    if Untouched(order + [c]) {
      forall i | 0 <= i < |order| ensures !order[i].RenameBy? && !order[i].DropBy? {
        assert (order + [c])[i] == order[i];
      }
      assert (order + [c])[|order|] == c;
    }
  }

  lemma ReadsSnoc(order: seq<Cmd>, c: Cmd, p: nat, j: nat)
    ensures Reads(order + [c], p, j) <==> Reads(order, p, j) || (p == |order| && c == ListBy(j) && Untouched(order))
  {
    if p < |order| {
      assert (order + [c])[..p] == order[..p];
    } else if p == |order| {
      assert (order + [c])[..p] == order;
    }
  }

  lemma ReadBySnoc(order: seq<Cmd>, c: Cmd, j: nat)
    ensures ReadBy(order + [c], j) <==> ReadBy(order, j) || (c == ListBy(j) && Untouched(order))
  {
    if ReadBy(order + [c], j) {
      var p :| Reads(order + [c], p, j);
      ReadsSnoc(order, c, p, j);
    }
    if ReadBy(order, j) {
      var p :| Reads(order, p, j);
      ReadsSnoc(order, c, p, j);
    }
    ReadsSnoc(order, c, |order|, j);
  }

  lemma CaughtSnoc(order: seq<Cmd>, c: Cmd)
    ensures Caught(order + [c]) <==> Caught(order) || (c.DeleteBy? && ReadBy(order, c.job))
  {
    var longer := order + [c];
    if Caught(longer) {
      var p: nat, q: nat, j :| Reads(longer, p, j) && p < q < |longer| && longer[q] == DeleteBy(j);
      ReadsSnoc(order, c, p, j);
      assert Reads(order, p, j);
    }
    if Caught(order) {
      var p: nat, q: nat, j :| Reads(order, p, j) && p < q < |order| && order[q] == DeleteBy(j);
      ReadsSnoc(order, c, p, j);
      assert longer[q] == DeleteBy(j);
    }
    if c.DeleteBy? && ReadBy(order, c.job) {
      var p :| Reads(order, p, c.job);
      ReadsSnoc(order, c, p, c.job);
      assert longer[|order|] == DeleteBy(c.job);
    }
  }

  // ---- following one moved session ------------------------------------------------------------

  /** In the temporary key as long as that is untouched, and no longer. */
  predicate InPlace(w: World, uid: string, id: string, order: seq<Cmd>)
    requires id in w.log
  {
    if Untouched(order) then InSet(w, w.db.destroying, uid, id)
    else uid in w.db.destroying ==> id !in MembersOf(w.db.destroying[uid])
  }

  /** Where the session `id` is, after its RENAME was followed by `order`. */
  ghost predicate Tracked(w: World, uid: string, id: string, order: seq<Cmd>) {
    && OwnedBy(w, id, uid) && id in w.movedBy
    && InPlace(w, uid, id, order)
    && (forall j :: j in w.jobs ==> (ReadBy(order, j) <==> !w.jobs[j].phase.Renamed? && id in w.jobs[j].phase.ids))
    && (forall j :: ReadBy(order, j) ==> j in w.jobs || j in w.ended)
    && (id in w.purged <==> Caught(order))
  }

  lemma RenameMoves(ttl: nat, w: World, job: nat, uid: string, now: nat, id: string)
    requires Sound(ttl, w) && Possible(w, Rename(job, uid, now)) && id in MembersOf(Fetch(w.db.index, uid, now))
    requires Live(w.db, id, now)
    ensures OwnedBy(w, id, uid) && id !in w.movedBy && id !in w.purged && Indexed(w, id)
  {
    assert OwnedBy(w, id, uid) && id !in w.movedBy;
    assert LiveNow(w, id);
  }

  lemma RenameTracks(ttl: nat, w: World, job: nat, uid: string, now: nat, id: string)
    requires Sound(ttl, w) && Possible(w, Rename(job, uid, now)) && id in MembersOf(Fetch(w.db.index, uid, now))
    requires Live(w.db, id, now)
    ensures Tracked(Step(ttl, w, Rename(job, uid, now)), uid, id, [])
  {
    RenameMoves(ttl, w, job, uid, now, id);
    var w0 := Step(ttl, w, Rename(job, uid, now));
    assert InPlace(w0, uid, id, []);
    assert !Caught([]) && forall j :: !ReadBy([], j);
    assert forall j :: j in w.jobs && !w.jobs[j].phase.Renamed? ==> id !in w.jobs[j].phase.ids;
  }

  lemma StepTracks(ttl: nat, w: World, e: Event, uid: string, id: string, order: seq<Cmd>)
    requires Sound(ttl, w) && Possible(w, e) && Tracked(w, uid, id, order)
    requires Step(ttl, w, e).now < w.log[id].expireAt
    ensures Tracked(Step(ttl, w, e), uid, id, order + CmdOf(w, e, uid))
  {
    if CmdOf(w, e, uid) == [] {
      assert order + [] == order;
      QuietStepTracks(ttl, w, e, uid, id, order);
    } else {
      CommandTracks(ttl, w, e, uid, id, order);
    }
  }

  lemma QuietStepTracks(ttl: nat, w: World, e: Event, uid: string, id: string, order: seq<Cmd>)
    requires Sound(ttl, w) && Possible(w, e) && Tracked(w, uid, id, order) && CmdOf(w, e, uid) == []
    requires Step(ttl, w, e).now < w.log[id].expireAt
    ensures Tracked(Step(ttl, w, e), uid, id, order)
  {
    QuietStepInPlace(ttl, w, e, uid, id, order);
  }

  lemma QuietStepInPlace(ttl: nat, w: World, e: Event, uid: string, id: string, order: seq<Cmd>)
    requires Sound(ttl, w) && Possible(w, e) && Tracked(w, uid, id, order) && CmdOf(w, e, uid) == []
    ensures InPlace(Step(ttl, w, e), uid, id, order)
  {
  }

  lemma CommandTracks(ttl: nat, w: World, e: Event, uid: string, id: string, order: seq<Cmd>)
    requires Sound(ttl, w) && Possible(w, e) && Tracked(w, uid, id, order) && CmdOf(w, e, uid) != []
    requires Step(ttl, w, e).now < w.log[id].expireAt
    ensures Tracked(Step(ttl, w, e), uid, id, order + CmdOf(w, e, uid))
  {
    var c := CmdOf(w, e, uid)[0];
    assert CmdOf(w, e, uid) == [c];
    UntouchedSnoc(order, c);
    CaughtSnoc(order, c);
    forall j ensures ReadBy(order + [c], j) <==> ReadBy(order, j) || (c == ListBy(j) && Untouched(order)) {
      ReadBySnoc(order, c, j);
    }
  }

  lemma {:induction false} RunTracks(ttl: nat, w: World, events: seq<Event>, uid: string, id: string, order: seq<Cmd>)
    requires Sound(ttl, w) && Valid(ttl, w, events) && Tracked(w, uid, id, order)
    requires Run(ttl, w, events).now < w.log[id].expireAt
    ensures Tracked(Run(ttl, w, events), uid, id, order + Order(ttl, w, events, uid))
    decreases |events|
  {
    if events == [] {
      assert order + [] == order;
    } else {
      var e, w', later := events[0], Step(ttl, w, events[0]), events[1..];
      var c, rest := CmdOf(w, e, uid), Order(ttl, w', later, uid);
      assert w'.log[id] == w.log[id] && w'.now <= Run(ttl, w', later).now by { LogGrows(ttl, w', later); }
      assert Sound(ttl, w') by { StepSound(ttl, w, e); }
      assert Tracked(w', uid, id, order + c) by { StepTracks(ttl, w, e, uid, id, order); }
      RunTracks(ttl, w', later, uid, id, order + c);
      ConcatAssociates(order, c, rest);
    }
  }

  lemma MovedIsTracked(ttl: nat, w: World, job: nat, uid: string, now: nat, id: string, w0: World, events: seq<Event>)
    requires Sound(ttl, w) && id in MembersOf(Fetch(w.db.index, uid, now)) && Live(w.db, id, now)
    requires Possible(w, Rename(job, uid, now)) && w0 == Step(ttl, w, Rename(job, uid, now)) && Valid(ttl, w0, events)
    requires Run(ttl, w0, events).now < w0.log[id].expireAt
    ensures Tracked(Run(ttl, w0, events), uid, id, Order(ttl, w0, events, uid))
  {
    RenameTracks(ttl, w, job, uid, now, id);
    assert Sound(ttl, w0) by { StepSound(ttl, w, Rename(job, uid, now)); }
    RunTracks(ttl, w0, events, uid, id, []);
    EmptyPrefix(Order(ttl, w0, events, uid));
  }

  lemma EmptyPrefix(order: seq<Cmd>)
    ensures [] + order == order
  {
  }

  // The session as `Sound` and `Tracked` know it: only expiry, a logout or the purge ends it.
  lemma TrackedFate(ttl: nat, w: World, uid: string, id: string, order: seq<Cmd>)
    requires Sound(ttl, w) && Tracked(w, uid, id, order) && id !in w.loggedOut && w.now < w.log[id].expireAt
    ensures LiveNow(w, id) <==> !Caught(order)
    ensures !Indexed(w, id)
  {
  }

  /**
    What becomes of a session that a bulk destroy moved, in any continuation with any number of
    other bulk destroys: it leaves every index for good, and until it expires or is logged out it
    is alive exactly as long as nobody who read the moved set in time has deleted it.
   */
  lemma FateOfMovedSession(ttl: nat, pre: seq<Event>, w: World, job: nat, uid: string, now: nat, id: string,
                           w0: World, events: seq<Event>, later: World)
    requires Valid(ttl, START, pre) && w == Run(ttl, START, pre)
    requires Possible(w, Rename(job, uid, now)) && w0 == Step(ttl, w, Rename(job, uid, now))
    requires id in MembersOf(Fetch(w.db.index, uid, now)) && Live(w.db, id, now)
    requires Valid(ttl, w0, events) && later == Run(ttl, w0, events)
    requires id in later.log && id !in later.loggedOut && later.now < later.log[id].expireAt
    ensures LiveNow(later, id) <==> !Caught(Order(ttl, w0, events, uid))
    ensures !Indexed(later, id)
  {
    assert Sound(ttl, w) by {
      StartIsSoundAlone(ttl);
      RunSound(ttl, START, pre);
    }
    assert Sound(ttl, w0) by { StepSound(ttl, w, Rename(job, uid, now)); }
    assert OwnedBy(w, id, uid);
    assert later.log[id] == w0.log[id] by { LogGrows(ttl, w0, events); }
    MovedIsTracked(ttl, w, job, uid, now, id, w0, events);
    assert Sound(ttl, later) by { RunSound(ttl, w0, events); }
    TrackedFate(ttl, later, uid, id, Order(ttl, w0, events, uid));
  }

  // ---- orders, over all the runs that have them -----------------------------------------------

  // How many of its four commands each job has run.
  type Progress = map<nat, nat>

  /** RENAME, SMEMBERS, DEL, DEL: every job runs its commands in turn, and once. */
  predicate InTurn(p: Progress, c: Cmd) {
    match c
    case RenameBy(j) => j !in p
    case ListBy(j) => j in p && p[j] == 1
    case DropBy(j) => j in p && p[j] == 2
    case DeleteBy(j) => j in p && p[j] == 3
  }

  function Advance(p: Progress, c: Cmd): Progress {
    match c
    case RenameBy(j) => p[j := 1]
    case ListBy(j) => p[j := 2]
    case DropBy(j) => p[j := 3]
    case DeleteBy(j) => p[j := 4]
  }

  predicate Orderly(p: Progress, order: seq<Cmd>)
    decreases |order|
  {
    order == [] || (InTurn(p, order[0]) && Orderly(Advance(p, order[0]), order[1..]))
  }

  function Advanced(p: Progress, order: seq<Cmd>): Progress
    decreases |order|
  {
    if order == [] then p else Advanced(Advance(p, order[0]), order[1..])
  }

  lemma {:induction false} OrderlySplit(p: Progress, a: seq<Cmd>, b: seq<Cmd>)
    requires Orderly(p, a + b)
    ensures Orderly(p, a) && Orderly(Advanced(p, a), b)
    ensures Advanced(p, a + b) == Advanced(Advanced(p, a), b)
    decreases |a|
  {
    if a == [] {
      assert a + b == b;
    } else {
      assert (a + b)[0] == a[0] && (a + b)[1..] == a[1..] + b;
      OrderlySplit(Advance(p, a[0]), a[1..], b);
    }
  }

  // How far the jobs of `uid` in a world have come, in any run.
  ghost predicate Progressed(w: World, uid: string, p: Progress) {
    && (forall j :: j in w.jobs && w.jobs[j].uid == uid ==> j in p && p[j] == Stage(w.jobs[j].phase))
    && (forall j :: j in p ==> (j in w.jobs && w.jobs[j].uid == uid) || (j in w.ended && p[j] == 4))
  }

  lemma QuietStepProgress(ttl: nat, w: World, e: Event, uid: string, p: Progress)
    requires Possible(w, e) && w.jobs.Keys !! w.ended && Progressed(w, uid, p) && CmdOf(w, e, uid) == []
    ensures Progressed(Step(ttl, w, e), uid, p)
  {
  }

  lemma CommandInTurn(ttl: nat, w: World, e: Event, uid: string, p: Progress, c: Cmd)
    requires Possible(w, e) && w.jobs.Keys !! w.ended && Progressed(w, uid, p) && CmdOf(w, e, uid) == [c]
    ensures InTurn(p, c) && Progressed(Step(ttl, w, e), uid, Advance(p, c))
  {
  }

  lemma JobsEndOnce(ttl: nat, w: World, e: Event)
    requires Possible(w, e) && w.jobs.Keys !! w.ended
    ensures Step(ttl, w, e).jobs.Keys !! Step(ttl, w, e).ended
  {
  }

  lemma {:induction false} RunIsOrderly(ttl: nat, w: World, events: seq<Event>, uid: string, p: Progress)
    requires Valid(ttl, w, events) && w.jobs.Keys !! w.ended && Progressed(w, uid, p)
    ensures Orderly(p, Order(ttl, w, events, uid))
    decreases |events|
  {
    if events == [] {
    } else {
      var e, w' := events[0], Step(ttl, w, events[0]);
      var rest := Order(ttl, w', events[1..], uid);
      JobsEndOnce(ttl, w, e);
      if CmdOf(w, e, uid) == [] {
        QuietStepProgress(ttl, w, e, uid, p);
        RunIsOrderly(ttl, w', events[1..], uid, p);
        EmptyPrefix(rest);
      } else {
        var c := CmdOf(w, e, uid)[0];
        CommandInTurn(ttl, w, e, uid, p, c);
        RunIsOrderly(ttl, w', events[1..], uid, Advance(p, c));
        OrderlyPrepend(p, c, rest);
      }
    }
  }

  lemma OrderlyPrepend(p: Progress, c: Cmd, rest: seq<Cmd>)
    requires InTurn(p, c) && Orderly(Advance(p, c), rest)
    ensures Orderly(p, [c] + rest)
  {
    assert ([c] + rest)[1..] == rest;
  }

  /** The commands of a user in a run are always orderly; so `Orderly` excludes no run. */
  lemma OrdersAreOrderly(ttl: nat, events: seq<Event>, uid: string)
    requires Valid(ttl, START, events)
    ensures Orderly(map[], Order(ttl, START, events, uid))
  {
    RunIsOrderly(ttl, START, events, uid, map[]);
  }

  function Stage(phase: Phase): nat {
    match phase case Renamed => 1 case Listed(_) => 2 case Dropped(_) => 3
  }

  // A world at time 0 in which nobody logged out and the jobs, all of `uid`, stand as `p` says.
  ghost predicate Stands(w: World, uid: string, p: Progress) {
    && w.now == 0 && w.loggedOut == {}
    && (forall j :: j in w.jobs ==> w.jobs[j].uid == uid && j in p && p[j] == Stage(w.jobs[j].phase))
    && (forall j :: j in w.ended ==> j in p && p[j] == 4)
    && (forall j :: j in p ==> j in w.jobs || j in w.ended)
  }

  function SomeSession(uid: string): Session { Session(uid, "", None, "local", 0) }

  /** A new session, so that the next RENAME has something to move. */
  lemma CreateOne(w: World, uid: string, p: Progress) returns (e: Event)
    requires Stands(w, uid, p)
    ensures e.Create? && Possible(w, e) && CmdOf(w, e, uid) == [] && Stands(Step(1, w, e), uid, p)
    ensures var w' := Step(1, w, e);
            && RenameIndex(w'.db, uid, 0).Some? && Live(w'.db, e.id, 0)
            && e.id in MembersOf(Fetch(w'.db.index, uid, 0)) && w'.log[e.id].expireAt == 1000
  {
    var id := FreshString(w.log.Keys);
    e := Create(id, SomeSession(uid), 0);
  }

  function EventOf(c: Cmd, uid: string): Event {
    match c
    case RenameBy(j) => Rename(j, uid, 0)
    case ListBy(j) => List(j, 0)
    case DropBy(j) => DropTemp(j, 0)
    case DeleteBy(j) => DeleteKeys(j, 0)
  }

  lemma CommandStands(w: World, uid: string, p: Progress, c: Cmd)
    requires Stands(w, uid, p) && InTurn(p, c)
    requires c.RenameBy? ==> RenameIndex(w.db, uid, 0).Some?
    ensures var e := EventOf(c, uid);
            Possible(w, e) && CmdOf(w, e, uid) == [c] && Stands(Step(1, w, e), uid, Advance(p, c))
  {
  }

  lemma OneEvent(ttl: nat, w: World, e: Event, uid: string)
    requires Possible(w, e)
    ensures Valid(ttl, w, [e]) && Run(ttl, w, [e]) == Step(ttl, w, e) && Order(ttl, w, [e], uid) == CmdOf(w, e, uid)
  {
    assert [e][1..] == [];
    assert Valid(ttl, Step(ttl, w, e), []);
    assert CmdOf(w, e, uid) + [] == CmdOf(w, e, uid);
  }

  lemma RunCommand(w: World, uid: string, p: Progress, c: Cmd) returns (events: seq<Event>)
    requires Stands(w, uid, p) && InTurn(p, c)
    ensures Valid(1, w, events) && Order(1, w, events, uid) == [c] && Stands(Run(1, w, events), uid, Advance(p, c))
  {
    var e := EventOf(c, uid);
    if c.RenameBy? {
      var first := CreateOne(w, uid, p);
      OneEvent(1, w, first, uid);
      var w' := Step(1, w, first);
      CommandStands(w', uid, p, c);
      OneEvent(1, w', e, uid);
      OrderJoin(1, w, [first], [e], uid);
      assert [] + [c] == [c];
      events := [first] + [e];
    } else {
      CommandStands(w, uid, p, c);
      OneEvent(1, w, e, uid);
      events := [e];
    }
  }

  /** Every orderly sequence of commands is the order of some run. */
  lemma {:induction false} RunOrder(w: World, uid: string, p: Progress, order: seq<Cmd>) returns (events: seq<Event>)
    requires Stands(w, uid, p) && Orderly(p, order)
    ensures Valid(1, w, events) && Order(1, w, events, uid) == order
    ensures Stands(Run(1, w, events), uid, Advanced(p, order))
    decreases |order|
  {
    if order == [] {
      events := [];
    } else {
      var first := RunCommand(w, uid, p, order[0]);
      var rest := RunOrder(Run(1, w, first), uid, Advance(p, order[0]), order[1..]);
      OrderJoin(1, w, first, rest, uid);
      assert [order[0]] + order[1..] == order;
      events := first + rest;
    }
  }

  // A run in which `job` renames after `before` and the user's commands from then on are `after`.
  ghost predicate RunsAs(uid: string, before: seq<Cmd>, job: nat, after: seq<Cmd>,
                         ttl: nat, pre: seq<Event>, now: nat, post: seq<Event>)
  {
    && Valid(ttl, START, pre) && Order(ttl, START, pre, uid) == before
    && Possible(Run(ttl, START, pre), Rename(job, uid, now))
    && RenameIndex(Run(ttl, START, pre).db, uid, now).Some?
    && var w0 := Step(ttl, Run(ttl, START, pre), Rename(job, uid, now));
       Valid(ttl, w0, post) && Order(ttl, w0, post, uid) == after
  }

  /** Every session that was in the index at the job's RENAME is dead at the end. */
  ghost predicate Clears(uid: string, job: nat, ttl: nat, pre: seq<Event>, now: nat, post: seq<Event>)
    requires Valid(ttl, START, pre) && Possible(Run(ttl, START, pre), Rename(job, uid, now))
    requires Valid(ttl, Step(ttl, Run(ttl, START, pre), Rename(job, uid, now)), post)
  {
    var w := Run(ttl, START, pre);
    var done := Run(ttl, Step(ttl, w, Rename(job, uid, now)), post);
    forall id :: id in MembersOf(Fetch(w.db.index, uid, now)) ==> !LiveNow(done, id)
  }

  ghost predicate AlwaysClears(uid: string, before: seq<Cmd>, job: nat, after: seq<Cmd>) {
    forall ttl, pre, now, post ::
      RunsAs(uid, before, job, after, ttl, pre, now, post) ==> Clears(uid, job, ttl, pre, now, post)
  }

  lemma CaughtIsDead(ttl: nat, w: World, job: nat, uid: string, now: nat, id: string, w0: World, post: seq<Event>)
    requires Sound(ttl, w) && id in MembersOf(Fetch(w.db.index, uid, now))
    requires Possible(w, Rename(job, uid, now)) && w0 == Step(ttl, w, Rename(job, uid, now)) && Valid(ttl, w0, post)
    requires Caught(Order(ttl, w0, post, uid))
    ensures !LiveNow(Run(ttl, w0, post), id)
  {
    var done := Run(ttl, w0, post);
    assert OwnedBy(w, id, uid);
    assert Sound(ttl, w0) by { StepSound(ttl, w, Rename(job, uid, now)); }
    if !LiveNow(w0, id) {
      DeadStaysDead(ttl, w0, post, id);
    } else {
      assert Sound(ttl, done) by { RunSound(ttl, w0, post); }
      assert id in done.log && done.log[id] == w0.log[id] by { LogGrows(ttl, w0, post); }
      if id !in done.loggedOut && done.now < done.log[id].expireAt {
        MovedIsTracked(ttl, w, job, uid, now, id, w0, post);
        TrackedFate(ttl, done, uid, id, Order(ttl, w0, post, uid));
      }
    }
  }

  lemma CaughtClears(uid: string, before: seq<Cmd>, job: nat, after: seq<Cmd>)
    requires Caught(after)
    ensures AlwaysClears(uid, before, job, after)
  {
    forall ttl, pre, now, post | RunsAs(uid, before, job, after, ttl, pre, now, post)
      ensures Clears(uid, job, ttl, pre, now, post)
    {
      var w := Run(ttl, START, pre);
      var w0 := Step(ttl, w, Rename(job, uid, now));
      forall id | id in MembersOf(Fetch(w.db.index, uid, now)) ensures !LiveNow(Run(ttl, w0, post), id) {
        StartIsSoundAlone(ttl);
        RunSound(ttl, START, pre);
        CaughtIsDead(ttl, w, job, uid, now, id, w0, post);
      }
    }
  }

  /** Otherwise some run with that order leaves a session of the moved set alive, in no index. */
  lemma SurvivingRun(uid: string, before: seq<Cmd>, job: nat, after: seq<Cmd>)
    returns (pre: seq<Event>, post: seq<Event>, id: string)
    requires Orderly(map[], before + ([RenameBy(job)] + after)) && !Caught(after)
    ensures RunsAs(uid, before, job, after, 1, pre, 0, post) && !Clears(uid, job, 1, pre, 0, post)
    ensures var done := Run(1, Step(1, Run(1, START, pre), Rename(job, uid, 0)), post);
            && id in MembersOf(Fetch(Run(1, START, pre).db.index, uid, 0))
            && LiveNow(done, id) && id in done.log && !Indexed(done, id)
            && Stands(done, uid, Advanced(map[], before + ([RenameBy(job)] + after)))
  {
    var all := [RenameBy(job)] + after;
    OrderlySplit(map[], before, all);
    assert all[0] == RenameBy(job) && all[1..] == after;
    var p := Advanced(map[], before);
    var filling := RunOrder(START, uid, map[], before);
    var create := CreateOne(Run(1, START, filling), uid, p);
    OneEvent(1, Run(1, START, filling), create, uid);
    OrderJoin(1, START, filling, [create], uid);
    assert before + [] == before;
    pre, id := filling + [create], create.id;
    var w := Run(1, START, pre);
    CommandStands(w, uid, p, RenameBy(job));
    var w0 := Step(1, w, Rename(job, uid, 0));
    post := RunOrder(w0, uid, Advance(p, RenameBy(job)), after);
    LogGrows(1, w0, post);
    FateOfMovedSession(1, pre, w, job, uid, 0, id, w0, post, Run(1, w0, post));
  }

  lemma RunsAreOrderly(uid: string, before: seq<Cmd>, job: nat, after: seq<Cmd>,
                       ttl: nat, pre: seq<Event>, now: nat, post: seq<Event>)
    requires RunsAs(uid, before, job, after, ttl, pre, now, post)
    ensures Orderly(map[], before + ([RenameBy(job)] + after))
  {
    var w, e := Run(ttl, START, pre), Rename(job, uid, now);
    OneEvent(ttl, w, e, uid);
    OrderJoin(ttl, w, [e], post, uid);
    OrderJoin(ttl, START, pre, [e] + post, uid);
    OrdersAreOrderly(ttl, pre + ([e] + post), uid);
  }

  /**
    The exact condition. For an order of one user's commands, in every run that has it, whatever
    other clients do in between and whoever else logs out, each session in the index at `job`'s
    RENAME is dead at the end if and only if some job lists the moved set before the next RENAME or
    DEL of the temporary key and has deleted what it listed. Orders that are not orderly have no runs.
   */
  lemma ClearsExactlyWhenCaught(uid: string, before: seq<Cmd>, job: nat, after: seq<Cmd>)
    ensures AlwaysClears(uid, before, job, after) <==>
              Caught(after) || !Orderly(map[], before + ([RenameBy(job)] + after))
  {
    if Caught(after) {
      CaughtClears(uid, before, job, after);
    } else if Orderly(map[], before + ([RenameBy(job)] + after)) {
      var pre, post, id := SurvivingRun(uid, before, job, after);
    } else {
      forall ttl, pre, now, post ensures !RunsAs(uid, before, job, after, ttl, pre, now, post) {
        if RunsAs(uid, before, job, after, ttl, pre, now, post) {
          RunsAreOrderly(uid, before, job, after, ttl, pre, now, post);
        }
      }
    }
  }

  /** Enough for a job's own completion: nothing touches the temporary key between its RENAME and its SMEMBERS. */
  lemma UndisturbedClears(uid: string, before: seq<Cmd>, job: nat, between: seq<Cmd>, rest: seq<Cmd>)
    requires Untouched(between) && DeleteBy(job) in rest
    requires Orderly(map[], before + ([RenameBy(job)] + (between + ([ListBy(job)] + rest))))
    ensures AlwaysClears(uid, before, job, between + ([ListBy(job)] + rest))
  {
    var after := between + ([ListBy(job)] + rest);
    var q :| 0 <= q < |rest| && rest[q] == DeleteBy(job);
    assert after[..|between|] == between;
    assert Reads(after, |between|, job);
    assert after[|between| + 1 + q] == DeleteBy(job);
    ClearsExactlyWhenCaught(uid, before, job, after);
  }

  // ---- overlaps, by example -------------------------------------------------------------------

  /** What the next command overwrites or drops, nobody can read any more. */
  lemma TouchedAtOnce(after: seq<Cmd>)
    requires after != [] && (after[0].RenameBy? || after[0].DropBy?)
    ensures !Caught(after)
  {
    forall p: nat, j ensures !Reads(after, p, j) {
      if 0 < p < |after| {
        assert after[..p][0] == after[0];
      }
    }
  }

  lemma OrderlyBy(order: seq<Cmd>, progress: seq<Progress>)
    requires |progress| == |order| + 1
    requires forall k :: 0 <= k < |order| ==>
               InTurn(progress[k], order[k]) && progress[k + 1] == Advance(progress[k], order[k])
    ensures Orderly(progress[0], order) && Advanced(progress[0], order) == progress[|order|]
    decreases |order|
  {
    if order == [] {
    } else {
      OrderlyBy(order[1..], progress[1..]);
    }
  }

  // Both jobs finished.
  const ALL_DONE: Progress := map[1 := 4, 2 := 4]

  lemma NoJobsLeft(w: World, uid: string)
    requires Stands(w, uid, ALL_DONE)
    ensures w.jobs == map[]
  {
    assert forall j :: j in w.jobs ==> Stage(w.jobs[j].phase) < 4;
  }

  /** An order that loses the moved set loses it in a run that leaves no job behind to find it. */
  lemma LostForGood(uid: string, before: seq<Cmd>, job: nat, after: seq<Cmd>)
    returns (pre: seq<Event>, post: seq<Event>, id: string)
    requires Orderly(map[], before + ([RenameBy(job)] + after)) && !Caught(after)
    requires Advanced(map[], before + ([RenameBy(job)] + after)) == ALL_DONE
    ensures RunsAs(uid, before, job, after, 1, pre, 0, post) && !AlwaysClears(uid, before, job, after)
    ensures var done := Run(1, Step(1, Run(1, START, pre), Rename(job, uid, 0)), post);
            done.jobs == map[] && LiveNow(done, id) && id in done.log && !Indexed(done, id)
  {
    pre, post, id := SurvivingRun(uid, before, job, after);
    NoJobsLeft(Run(1, Step(1, Run(1, START, pre), Rename(job, uid, 0)), post), uid);
  }

  lemma ReplacedOrder(after: seq<Cmd>)
    requires after == [RenameBy(2), ListBy(1), DropBy(1), ListBy(2), DropBy(2), DeleteBy(1), DeleteBy(2)]
    ensures !Caught(after)
    ensures Orderly(map[], [] + ([RenameBy(1)] + after)) && Advanced(map[], [] + ([RenameBy(1)] + after)) == ALL_DONE
  {
    TouchedAtOnce(after);
    OrderlyBy([RenameBy(1)] + after,
              [map[], map[1 := 1], map[1 := 1, 2 := 1], map[1 := 2, 2 := 1], map[1 := 3, 2 := 1],
               map[1 := 3, 2 := 2], map[1 := 3, 2 := 3], map[1 := 4, 2 := 3], ALL_DONE]);
    assert [] + ([RenameBy(1)] + after) == [RenameBy(1)] + after;
  }

  lemma DroppedOrder(before: seq<Cmd>, after: seq<Cmd>)
    requires before == [RenameBy(1), ListBy(1)]
    requires after == [DropBy(1), ListBy(2), DropBy(2), DeleteBy(1), DeleteBy(2)]
    ensures !Caught(after)
    ensures Orderly(map[], before + ([RenameBy(2)] + after))
    ensures Advanced(map[], before + ([RenameBy(2)] + after)) == ALL_DONE
  {
    TouchedAtOnce(after);
    OrderlyBy(before + ([RenameBy(2)] + after),
              [map[], map[1 := 1], map[1 := 2], map[1 := 2, 2 := 1], map[1 := 3, 2 := 1],
               map[1 := 3, 2 := 2], map[1 := 3, 2 := 3], map[1 := 4, 2 := 3], ALL_DONE]);
  }

  /** Job 1 renames, job 2 renames over it: what job 1 has moved and not yet listed survives both. */
  lemma SecondRenameLosesFirst(uid: string) returns (pre: seq<Event>, post: seq<Event>, id: string)
    ensures var after := [RenameBy(2), ListBy(1), DropBy(1), ListBy(2), DropBy(2), DeleteBy(1), DeleteBy(2)];
            RunsAs(uid, [], 1, after, 1, pre, 0, post) && !AlwaysClears(uid, [], 1, after)
    ensures var done := Run(1, Step(1, Run(1, START, pre), Rename(1, uid, 0)), post);
            done.jobs == map[] && LiveNow(done, id) && id in done.log && !Indexed(done, id)
  {
    var after := [RenameBy(2), ListBy(1), DropBy(1), ListBy(2), DropBy(2), DeleteBy(1), DeleteBy(2)];
    ReplacedOrder(after);
    pre, post, id := LostForGood(uid, [], 1, after);
  }

  /** Job 1 has listed, job 2 renames, and job 1 drops what job 2 has moved and not yet listed. */
  lemma FirstDropLosesSecond(uid: string) returns (pre: seq<Event>, post: seq<Event>, id: string)
    ensures var before, after := [RenameBy(1), ListBy(1)], [DropBy(1), ListBy(2), DropBy(2), DeleteBy(1), DeleteBy(2)];
            RunsAs(uid, before, 2, after, 1, pre, 0, post) && !AlwaysClears(uid, before, 2, after)
    ensures var done := Run(1, Step(1, Run(1, START, pre), Rename(2, uid, 0)), post);
            done.jobs == map[] && LiveNow(done, id) && id in done.log && !Indexed(done, id)
  {
    var before, after := [RenameBy(1), ListBy(1)], [DropBy(1), ListBy(2), DropBy(2), DeleteBy(1), DeleteBy(2)];
    DroppedOrder(before, after);
    pre, post, id := LostForGood(uid, before, 2, after);
  }

  /**
    Overlap alone does no harm: job 2 may start once job 1 has dropped the key, and both sets are
    deleted. Nor does a foreign DEL of the key before the own SMEMBERS, when the other job has
    listed the set by then and deletes it in time.
   */
  lemma HarmlessOverlaps(uid: string)
    ensures var order := [RenameBy(1), ListBy(1), DropBy(1), RenameBy(2), ListBy(2), DropBy(2), DeleteBy(1),
                          DeleteBy(2)];
            && Orderly(map[], order)
            && AlwaysClears(uid, [], 1, order[1..]) && AlwaysClears(uid, order[..3], 2, order[4..])
    ensures var order := [RenameBy(2), RenameBy(1), ListBy(2), DropBy(2), ListBy(1), DropBy(1), DeleteBy(2),
                          DeleteBy(1)];
            && Orderly(map[], order) && AlwaysClears(uid, [RenameBy(2)], 1, order[2..])
  {
    Staggered(uid);
    Rescued(uid);
  }

  lemma Staggered(uid: string)
    ensures var order := [RenameBy(1), ListBy(1), DropBy(1), RenameBy(2), ListBy(2), DropBy(2), DeleteBy(1),
                          DeleteBy(2)];
            && Orderly(map[], order)
            && AlwaysClears(uid, [], 1, order[1..]) && AlwaysClears(uid, order[..3], 2, order[4..])
  {
    var order := [RenameBy(1), ListBy(1), DropBy(1), RenameBy(2), ListBy(2), DropBy(2), DeleteBy(1), DeleteBy(2)];
    StaggeredOrder(order);
    CaughtClears(uid, [], 1, order[1..]);
    CaughtClears(uid, order[..3], 2, order[4..]);
  }

  lemma StaggeredOrder(order: seq<Cmd>)
    requires order == [RenameBy(1), ListBy(1), DropBy(1), RenameBy(2), ListBy(2), DropBy(2), DeleteBy(1), DeleteBy(2)]
    ensures Orderly(map[], order) && Caught(order[1..]) && Caught(order[4..])
  {
    OrderlyBy(order,
              [map[], map[1 := 1], map[1 := 2], map[1 := 3], map[1 := 3, 2 := 1], map[1 := 3, 2 := 2],
               map[1 := 3, 2 := 3], map[1 := 4, 2 := 3], ALL_DONE]);
    assert Reads(order[1..], 0, 1) && order[1..][5] == DeleteBy(1);
    assert Reads(order[4..], 0, 2) && order[4..][3] == DeleteBy(2);
  }

  lemma Rescued(uid: string)
    ensures var order := [RenameBy(2), RenameBy(1), ListBy(2), DropBy(2), ListBy(1), DropBy(1), DeleteBy(2),
                          DeleteBy(1)];
            && Orderly(map[], order) && AlwaysClears(uid, [RenameBy(2)], 1, order[2..])
  {
    var order := [RenameBy(2), RenameBy(1), ListBy(2), DropBy(2), ListBy(1), DropBy(1), DeleteBy(2), DeleteBy(1)];
    OrderlyBy(order,
              [map[], map[2 := 1], map[1 := 1, 2 := 1], map[1 := 1, 2 := 2], map[1 := 1, 2 := 3], map[1 := 2, 2 := 3],
               map[1 := 3, 2 := 3], map[1 := 3, 2 := 4], ALL_DONE]);
    assert Reads(order[2..], 0, 2) && order[2..][4] == DeleteBy(2);
    CaughtClears(uid, [RenameBy(2)], 1, order[2..]);
  }
}
