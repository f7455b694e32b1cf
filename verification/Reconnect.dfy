/**
  The reconnecting live stream of frontend/src/lib/live.ts: one WebSocket, one retry timer, and
  listeners that may call `close` from inside any notification.
 */
module Reconnect {
  import opened Basics

  const MAX_RETRIES := 10
  const INITIAL_BACKOFF_MS := 500.0
  const MAX_BACKOFF_MS := 30000.0

  // ---- backoff with full jitter ---------------------------------------------------------------

  function PowerOfTwo(n: nat): (r: real)
    ensures 1.0 <= r
  {
    if n == 0 then 1.0 else 2.0 * PowerOfTwo(n - 1)
  }

  function Cap(attempt: nat): real
    requires 1 <= attempt
  {
    var doubled := INITIAL_BACKOFF_MS * PowerOfTwo(attempt - 1);
    if doubled <= MAX_BACKOFF_MS then doubled else MAX_BACKOFF_MS
  }

  // `jitter` is the value of Math.random().
  type Jitter = x: real | 0.0 <= x < 1.0

  function BackoffForAttempt(attempt: nat, jitter: Jitter): (delay: real)
    requires 1 <= attempt
    ensures 0.0 <= delay < Cap(attempt) <= MAX_BACKOFF_MS
  {
    CapPositive(attempt);
    Scaled(jitter, Cap(attempt));
    jitter * Cap(attempt)
  }

  lemma Scaled(x: real, c: real)
    requires 0.0 <= x < 1.0 && 0.0 < c
    ensures 0.0 <= x * c < c
  {
    assert 0.0 < (1.0 - x) * c == c - x * c;
  }

  lemma CapPositive(attempt: nat)
    requires 1 <= attempt
    ensures 0.0 < Cap(attempt) <= MAX_BACKOFF_MS
  {
  }

  lemma {:induction false} CapMonotone(a: nat, b: nat)
    requires 1 <= a <= b
    ensures 500.0 <= Cap(a) <= Cap(b)
    ensures 7 <= a ==> Cap(a) == 30000.0
    ensures b < 7 ==> Cap(b) == 500.0 * PowerOfTwo(b - 1)
    decreases b
  {
    if a < b {
      CapMonotone(a, b - 1);
    } else if 1 < b {
      CapMonotone(b - 1, b - 1);
      assert PowerOfTwo(b - 1) == 2.0 * PowerOfTwo(b - 2);
    }
    if b < 7 {
      SmallPowers();
    } else {
      SmallPowers();
      PowerMonotone(6, b - 1);
    }
    if 7 <= a {
      PowerMonotone(6, a - 1);
    }
  }

  /** 500 ms for the first retry, doubled up to the sixth, 30 s from the seventh on. */
  lemma CapDoubles(attempt: nat)
    requires 1 <= attempt
    ensures Cap(1) == 500.0
    ensures attempt < 6 ==> Cap(attempt + 1) == 2.0 * Cap(attempt)
    ensures 7 <= attempt ==> Cap(attempt) == 30000.0
  {
    CapMonotone(attempt, attempt);
    SmallPowers();
    if attempt < 6 {
      CapMonotone(attempt + 1, attempt + 1);
    }
  }

  lemma SignOfProduct(x: real, c: real)
    requires 0.0 < c
    ensures x < 0.0 <==> x * c < 0.0
  {
  }

  /** Full jitter: every delay from 0 up to the cap can come out. */
  lemma EveryDelayPossible(attempt: nat, delay: real)
    requires 1 <= attempt && 0.0 <= delay < Cap(attempt)
    ensures exists jitter: Jitter :: BackoffForAttempt(attempt, jitter) == delay
  {
    var c := Cap(attempt);
    var x := delay / c;
    assert x * c == delay && (x - 1.0) * c == delay - c;
    SignOfProduct(x, c);
    SignOfProduct(x - 1.0, c);
    assert BackoffForAttempt(attempt, x) == delay;
  }

  lemma SmallPowers()
    ensures PowerOfTwo(0) == 1.0 && PowerOfTwo(1) == 2.0 && PowerOfTwo(2) == 4.0 && PowerOfTwo(3) == 8.0
    ensures PowerOfTwo(4) == 16.0 && PowerOfTwo(5) == 32.0 && PowerOfTwo(6) == 64.0
  {
    assert PowerOfTwo(3) == 2.0 * PowerOfTwo(2);
    assert PowerOfTwo(6) == 2.0 * PowerOfTwo(5);
  }

  lemma {:induction false} PowerMonotone(a: nat, b: nat)
    requires a <= b
    ensures PowerOfTwo(a) <= PowerOfTwo(b)
    decreases b
  {
    if a == b {
    } else {
      PowerMonotone(a, b - 1);
    }
  }

  // ---- which closes are final -----------------------------------------------------------------

  function Lower(s: string): (r: string)
    ensures |r| == |s|
  {
    seq(|s|, i requires 0 <= i < |s| => if 'A' <= s[i] <= 'Z' then (s[i] as int + 32) as char else s[i])
  }

  predicate Occurs(s: string, t: string, i: int) { 0 <= i <= |s| - |t| && s[i..i + |t|] == t }

  predicate Contains(s: string, t: string) { exists i :: 0 <= i <= |s| && Occurs(s, t, i) }

  predicate Blank(s: string) { forall i :: 0 <= i < |s| ==> s[i] in " \t\n\r\U{000B}\U{000C}" }

  predicate ContainsNotFound(s: string) {
    exists i, j ::
      && 0 <= i <= |s| && 0 <= j <= |s|
      && Occurs(s, "not", i) && i + 3 <= j && Blank(s[i + 3..j]) && Occurs(s, "found", j)
  }

  predicate Refused(reason: string) {
    var r := Lower(reason);
    || Contains(r, "403") || Contains(r, "404") || Contains(r, "forbidden")
    || ContainsNotFound(r) || Contains(r, "refused")
  }

  predicate Final(code: nat, reason: string) { code in {1003, 1008, 1009, 1011, 1015} || Refused(reason) }

  // A letter of the reason and the lower-case letter it is matched with.
  predicate SameLetter(c: char, lower: char) {
    if 'A' <= c <= 'Z' then c as int + 32 == lower as int else c == lower
  }

  predicate SaysAt(s: string, word: string, i: nat) {
    i + |word| <= |s| && forall k :: 0 <= k < |word| ==> SameLetter(s[i + k], word[k])
  }

  /** 403, 404, forbidden, refused, or "not found" with any blanks in between, in upper or lower case. */
  ghost predicate SaysRefused(reason: string) {
    || (exists i: nat :: SaysAt(reason, "403", i) || SaysAt(reason, "404", i) || SaysAt(reason, "forbidden", i)
                         || SaysAt(reason, "refused", i))
    || (exists i: nat, j: nat :: SaysNotFoundAt(reason, i, j))
  }

  predicate SaysNotFoundAt(s: string, i: nat, j: nat) {
    i + 3 <= j && SaysAt(s, "not", i) && SaysAt(s, "found", j) && Blank(s[i + 3..j])
  }

  lemma OccursWhereSaid(s: string, word: string, i: nat)
    ensures Occurs(Lower(s), word, i) <==> SaysAt(s, word, i)
  {
    var r := Lower(s);
    if i + |word| <= |s| {
      if Occurs(r, word, i) {
        forall k | 0 <= k < |word| ensures SameLetter(s[i + k], word[k]) {
          assert r[i..i + |word|][k] == r[i + k];
        }
      }
      if SaysAt(s, word, i) {
        assert r[i..i + |word|] == word;
      }
    }
  }

  lemma ContainsWhereSaid(s: string, word: string)
    ensures Contains(Lower(s), word) <==> exists i: nat :: SaysAt(s, word, i)
  {
    forall i: nat ensures Occurs(Lower(s), word, i) <==> SaysAt(s, word, i) {
      OccursWhereSaid(s, word, i);
    }
    if Contains(Lower(s), word) {
      var i :| 0 <= i <= |s| && Occurs(Lower(s), word, i);
      assert SaysAt(s, word, i);
    }
  }

  lemma BlankWhereSaid(s: string, i: nat, j: nat)
    requires i <= j <= |s|
    ensures Blank(Lower(s)[i..j]) <==> Blank(s[i..j])
  {
    forall k | 0 <= k < j - i
      ensures Lower(s)[i..j][k] in " \t\n\r\U{000B}\U{000C}" <==> s[i..j][k] in " \t\n\r\U{000B}\U{000C}"
    {
      assert Lower(s)[i..j][k] == Lower(s)[i + k] && s[i..j][k] == s[i + k];
    }
  }

  lemma NotFoundWhereSaid(s: string)
    ensures ContainsNotFound(Lower(s)) <==> exists i: nat, j: nat :: SaysNotFoundAt(s, i, j)
  {
    var r := Lower(s);
    if ContainsNotFound(r) {
      var i, j :|
        && 0 <= i <= |r| && 0 <= j <= |r|
        && Occurs(r, "not", i) && i + 3 <= j && Blank(r[i + 3..j]) && Occurs(r, "found", j);
      OccursWhereSaid(s, "not", i);
      OccursWhereSaid(s, "found", j);
      BlankWhereSaid(s, i + 3, j);
      assert SaysNotFoundAt(s, i, j);
    }
    if i: nat, j: nat :| SaysNotFoundAt(s, i, j) {
      OccursWhereSaid(s, "not", i);
      OccursWhereSaid(s, "found", j);
      BlankWhereSaid(s, i + 3, j);
    }
  }

  /** Which closes are not retried. */
  lemma FinalExactly(code: nat, reason: string)
    ensures Final(code, reason) <==>
              || code == 1003 || code == 1008 || code == 1009 || code == 1011 || code == 1015
              || SaysRefused(reason)
  {
    ContainsWhereSaid(reason, "403");
    ContainsWhereSaid(reason, "404");
    ContainsWhereSaid(reason, "forbidden");
    ContainsWhereSaid(reason, "refused");
    NotFoundWhereSaid(reason);
  }

  // ---- the machine as functions ---------------------------------------------------------------

  datatype Status = Connected | Reconnecting | Offline

  // Sockets are numbered as constructed. `detached` is the socket that `close` let go of: its
  // close handler is gone, its other handlers are not. `notices` are the statuses announced so far.
  datatype Stream = Stream(ws: Option<nat>, detached: Option<nat>, closed: bool, retryCount: nat, timer: Option<real>,
                           constructed: nat, notices: seq<Status>)

  const FRESH := Stream(None, None, false, 0, None, 0, [])

  function Closing(s: Stream): Stream {
    s.(closed := true, timer := None, ws := None, detached := if s.ws.Some? then s.ws else s.detached)
  }

  /** A notification; `reenter` says that some listener calls `close` during it. */
  function Notify(s: Stream, status: Status, reenter: bool): Stream {
    var announced := s.(notices := s.notices + [status]);
    if reenter then Closing(announced) else announced
  }

  function Scheduling(s: Stream, jitter: Jitter, reenter: bool): Stream {
    if s.closed then s
    else if MAX_RETRIES <= s.retryCount then Notify(s, Offline, reenter)
    else
      var n := s.retryCount + 1;
      Notify(s.(retryCount := n), Reconnecting, reenter).(timer := Some(BackoffForAttempt(n, jitter)))
  }

  /** `fails`: the WebSocket constructor throws. */
  function Connecting(s: Stream, fails: bool, jitter: Jitter, reenter: bool): Stream {
    if s.closed then s
    else if fails then Scheduling(s, jitter, reenter)
    else s.(ws := Some(s.constructed), constructed := s.constructed + 1)
  }

  datatype Event =
    | Opens(id: nat, reenter: bool)
    | Receives(id: nat, reenter: bool)
    | Closes(code: nat, reason: string, jitter: Jitter, reenter: bool)
    | TimerFires(fails: bool, jitter: Jitter, reenter: bool)
    | CallClose

  predicate Possible(s: Stream, e: Event) {
    match e
    case Opens(id, _) => s.ws == Some(id) || s.detached == Some(id)
    case Receives(id, _) => s.ws == Some(id) || s.detached == Some(id)
    case Closes(_, _, _, _) => s.ws.Some?
    case TimerFires(_, _, _) => s.timer.Some?
    case CallClose => true
  }

  function Step(s: Stream, e: Event): Stream {
    match e
    case Opens(_, reenter) => Notify(s.(retryCount := 0), Connected, reenter)
    case Receives(_, reenter) => if reenter then Closing(s) else s
    case Closes(code, reason, jitter, reenter) =>
      var gone := s.(ws := None);
      if s.closed then gone
      else if Final(code, reason) then Notify(gone, Offline, reenter)
      else Scheduling(gone, jitter, reenter)
    case TimerFires(fails, jitter, reenter) => Connecting(s.(timer := None), fails, jitter, reenter)
    case CallClose => Closing(s)
  }

  ghost predicate Valid(s: Stream, events: seq<Event>)
    decreases |events|
  {
    events == [] || (Possible(s, events[0]) && Valid(Step(s, events[0]), events[1..]))
  }

  ghost function Run(s: Stream, events: seq<Event>): Stream
    decreases |events|
  {
    if events == [] then s else Run(Step(s, events[0]), events[1..])
  }

  /** A stream as `connectLiveStream` returns it; nobody listens yet. */
  ghost predicate Initial(s: Stream) {
    exists fails: bool, jitter: Jitter :: s == Connecting(FRESH, fails, jitter, false)
  }

  // ---- the machine as code --------------------------------------------------------------------

  class LiveStream {
    var ws: Option<nat>
    var closed: bool
    var retryCount: nat
    var retryTimer: Option<real>
    var detached: Option<nat>
    var constructed: nat
    var notices: seq<Status>

    function State(): Stream
      reads this
    {
      Stream(ws, detached, closed, retryCount, retryTimer, constructed, notices)
    }

    constructor (fails: bool, jitter: Jitter)
      ensures State() == Connecting(FRESH, fails, jitter, false) && Initial(State())
    {
      ws, closed, retryCount, retryTimer := None, false, 0, None;
      detached, constructed, notices := None, 0, [];
      new;
      Connect(fails, jitter, false);
    }

    method NotifyStatus(status: Status, reenter: bool)
      modifies this
      ensures State() == Notify(old(State()), status, reenter)
    {
      notices := notices + [status];
      if reenter {
        Close();
      }
    }

    method ScheduleReconnect(jitter: Jitter, reenter: bool)
      modifies this
      ensures State() == Scheduling(old(State()), jitter, reenter)
    {
      if closed {
        return;
      }
      if MAX_RETRIES <= retryCount {
        NotifyStatus(Offline, reenter);
        return;
      }
      retryCount := retryCount + 1;
      var delay := BackoffForAttempt(retryCount, jitter);
      NotifyStatus(Reconnecting, reenter);
      retryTimer := Some(delay);
    }

    method Connect(fails: bool, jitter: Jitter, reenter: bool)
      modifies this
      ensures State() == Connecting(old(State()), fails, jitter, reenter)
    {
      if closed {
        return;
      }
      if fails {
        ScheduleReconnect(jitter, reenter);
        return;
      }
      ws := Some(constructed);
      constructed := constructed + 1;
    }

    method RetryTimerFires(fails: bool, jitter: Jitter, reenter: bool)
      modifies this
      ensures State() == Step(old(State()), TimerFires(fails, jitter, reenter))
    {
      retryTimer := None;
      Connect(fails, jitter, reenter);
    }

    method OnOpen(id: nat, reenter: bool)
      modifies this
      ensures State() == Step(old(State()), Opens(id, reenter))
    {
      retryCount := 0;
      NotifyStatus(Connected, reenter);
    }

    method OnClose(code: nat, reason: string, jitter: Jitter, reenter: bool)
      modifies this
      ensures State() == Step(old(State()), Closes(code, reason, jitter, reenter))
    {
      ws := None;
      if closed {
        return;
      }
      if Final(code, reason) {
        NotifyStatus(Offline, reenter);
        return;
      }
      ScheduleReconnect(jitter, reenter);
    }

    method Close()
      modifies this
      ensures State() == Closing(old(State()))
    {
      closed := true;
      if retryTimer.Some? {
        retryTimer := None;
      }
      if ws.Some? {
        detached := ws;
        ws := None;
      }
    }
  }

  // ---- what every event keeps -----------------------------------------------------------------

  /** How often a status has been announced. */
  function Announced(notices: seq<Status>, status: Status): nat {
    if notices == [] then 0
    else Announced(notices[..|notices| - 1], status) + if notices[|notices| - 1] == status then 1 else 0
  }

  function Offlines(notices: seq<Status>): nat { Announced(notices, Offline) }

  lemma AnnouncedSnoc(notices: seq<Status>, status: Status, next: Status)
    ensures Announced(notices + [next], status) == Announced(notices, status) + if next == status then 1 else 0
  {
    assert (notices + [next])[..|notices|] == notices;
  }

  lemma OfflinesSnoc(notices: seq<Status>, status: Status)
    ensures Offlines(notices + [status]) == Offlines(notices) + if status == Offline then 1 else 0
  {
    AnnouncedSnoc(notices, Offline, status);
  }

  predicate Inv(s: Stream) {
    && !(s.ws.Some? && s.timer.Some?)
    && (s.detached.Some? ==> s.closed && s.timer.None?)
    && (s.closed ==> s.ws.None?)
    && s.retryCount <= MAX_RETRIES
    && (s.timer.Some? ==> 1 <= s.retryCount && 0.0 <= s.timer.value <= Cap(s.retryCount))
    && Offlines(s.notices) <= 1
    && (Offlines(s.notices) == 1 ==> s.ws.None? && s.timer.None? && s.detached.None?)
  }

  lemma NotifyKeepsInv(s: Stream, status: Status, reenter: bool)
    requires Inv(s)
    requires status == Offline ==> Offlines(s.notices) == 0 && s.ws.None? && s.timer.None? && s.detached.None?
    ensures Inv(Notify(s, status, reenter))
  {
    OfflinesSnoc(s.notices, status);
  }

  lemma ArmingKeepsInv(s: Stream, delay: real, reenter: bool)
    requires Inv(s) && s.ws.None? && s.timer.None? && !s.closed && Offlines(s.notices) == 0
    requires 1 <= s.retryCount && 0.0 <= delay <= Cap(s.retryCount)
    ensures Inv(Notify(s, Reconnecting, reenter).(timer := Some(delay)))
  {
    NotifyKeepsInv(s, Reconnecting, reenter);
    OfflinesSnoc(s.notices, Reconnecting);
  }

  lemma StepKeepsInv(s: Stream, e: Event)
    requires Inv(s) && Possible(s, e)
    ensures Inv(Step(s, e))
  {
    match e
    case Opens(_, reenter) => NotifyKeepsInv(s.(retryCount := 0), Connected, reenter);
    case Receives(_, _) =>
    case Closes(code, reason, jitter, reenter) =>
      var gone := s.(ws := None);
      if Final(code, reason) || MAX_RETRIES <= s.retryCount {
        NotifyKeepsInv(gone, Offline, reenter);
      } else if !s.closed {
        var n := s.retryCount + 1;
        ArmingKeepsInv(gone.(retryCount := n), BackoffForAttempt(n, jitter), reenter);
      }
    case TimerFires(_, jitter, reenter) =>
      var gone := s.(timer := None);
      if MAX_RETRIES <= s.retryCount {
        NotifyKeepsInv(gone, Offline, reenter);
      } else if !s.closed {
        var n := s.retryCount + 1;
        ArmingKeepsInv(gone.(retryCount := n), BackoffForAttempt(n, jitter), reenter);
      }
    case CallClose =>
  }

  lemma {:induction false} RunKeepsInv(s: Stream, events: seq<Event>)
    requires Inv(s) && Valid(s, events)
    ensures Inv(Run(s, events))
    decreases |events|
  {
    if events == [] {
    } else {
      StepKeepsInv(s, events[0]);
      RunKeepsInv(Step(s, events[0]), events[1..]);
    }
  }

  lemma InitialInv(s: Stream)
    requires Initial(s)
    ensures Inv(s)
  {
    OfflinesSnoc([], Reconnecting);
    assert [] + [Reconnecting] == [Reconnecting];
  }

  // ---- main results ---------------------------------------------------------------------------

  /** Never a socket and a timer at once, and the pending delay is within the attempt's jitter range. */
  lemma SocketOrTimer(start: Stream, events: seq<Event>, s: Stream)
    requires Initial(start) && Valid(start, events) && s == Run(start, events)
    ensures s.ws.None? || s.timer.None?
    ensures s.timer.Some? ==> 1 <= s.retryCount <= MAX_RETRIES && 0.0 <= s.timer.value <= Cap(s.retryCount)
  {
    InitialInv(start);
    RunKeepsInv(start, events);
  }

  function Attempts(events: seq<Event>): nat {
    if events == [] then 0 else (if events[0].TimerFires? then 1 else 0) + Attempts(events[1..])
  }

  predicate NoOpens(events: seq<Event>) { forall i :: 0 <= i < |events| ==> !events[i].Opens? }

  /** Retries left: those not yet scheduled and the one that is. */
  function RetriesLeft(s: Stream): int { MAX_RETRIES - s.retryCount + if s.timer.Some? then 1 else 0 }

  lemma {:induction false} AttemptsWithoutOpen(s: Stream, events: seq<Event>)
    requires Inv(s) && Valid(s, events) && NoOpens(events)
    ensures Attempts(events) <= RetriesLeft(s)
    ensures Run(s, events).constructed <= s.constructed + Attempts(events)
    decreases |events|
  {
    if events == [] {
    } else {
      StepKeepsInv(s, events[0]);
      assert !events[0].Opens?;
      assert NoOpens(events[1..]) by {
        forall i | 0 <= i < |events[1..]| ensures !events[1..][i].Opens? {
          assert events[1..][i] == events[i + 1];
        }
      }
      AttemptsWithoutOpen(Step(s, events[0]), events[1..]);
    }
  }

  /** From the start, or from an open, at most ten reconnect attempts happen before the next open. */
  lemma TenAttemptsBetweenOpens(start: Stream, before: seq<Event>, s: Stream, between: seq<Event>)
    requires Initial(start) && Valid(start, before) && s == Run(start, before)
    requires NoOpens(between)
    ensures Valid(start, between) ==> Attempts(between) <= MAX_RETRIES
    ensures forall id, reenter ::
              Possible(s, Opens(id, reenter)) && Valid(Step(s, Opens(id, reenter)), between) ==>
                Attempts(between) <= MAX_RETRIES
  {
    InitialInv(start);
    RunKeepsInv(start, before);
    if Valid(start, between) {
      AttemptsWithoutOpen(start, between);
    }
    forall id, reenter | Possible(s, Opens(id, reenter)) && Valid(Step(s, Opens(id, reenter)), between)
      ensures Attempts(between) <= MAX_RETRIES
    {
      StepKeepsInv(s, Opens(id, reenter));
      AttemptsWithoutOpen(Step(s, Opens(id, reenter)), between);
    }
  }

  lemma {:induction false} OfflineStays(s: Stream, events: seq<Event>)
    requires Inv(s) && Offlines(s.notices) == 1 && Valid(s, events)
    ensures var later := Run(s, events);
            later.notices == s.notices && later.constructed == s.constructed && later.ws.None? && later.timer.None?
    decreases |events|
  {
    if events == [] {
    } else {
      StepKeepsInv(s, events[0]);
      OfflineStays(Step(s, events[0]), events[1..]);
    }
  }

  /** "offline" is announced at most once, and after it nothing is ever announced or constructed. */
  lemma OfflineOnceAndForAll(start: Stream, before: seq<Event>, s: Stream, after: seq<Event>)
    requires Initial(start) && Valid(start, before) && s == Run(start, before) && Valid(s, after)
    ensures Offlines(s.notices) <= 1
    ensures Offlines(s.notices) == 1 ==>
              var later := Run(s, after);
              later.notices == s.notices && later.constructed == s.constructed && later.ws.None? && later.timer.None?
  {
    InitialInv(start);
    RunKeepsInv(start, before);
    if Offlines(s.notices) == 1 {
      OfflineStays(s, after);
    }
  }

  lemma {:induction false} ClosedStays(s: Stream, events: seq<Event>)
    requires Inv(s) && s.closed && Valid(s, events)
    ensures var later := Run(s, events);
            && later.closed && later.ws.None? && later.constructed == s.constructed
            && Announced(later.notices, Reconnecting) == Announced(s.notices, Reconnecting)
            && Announced(later.notices, Offline) == Announced(s.notices, Offline)
    decreases |events|
  {
    if events == [] {
    } else {
      StepKeepsInv(s, events[0]);
      AnnouncedSnoc(s.notices, Offline, Connected);
      AnnouncedSnoc(s.notices, Reconnecting, Connected);
      ClosedStays(Step(s, events[0]), events[1..]);
    }
  }

  /**
    Once closed, even from inside a notification, no socket is ever constructed, and neither a
    retry nor "offline" is announced; a timer armed right after such a call can fire, to no effect.
   */
  lemma ClosedForGood(start: Stream, before: seq<Event>, s: Stream, after: seq<Event>)
    requires Initial(start) && Valid(start, before) && s == Run(start, before)
    requires s.closed && Valid(s, after)
    ensures var later := Run(s, after);
            && later.closed && later.ws.None? && later.constructed == s.constructed
            && Announced(later.notices, Reconnecting) == Announced(s.notices, Reconnecting)
            && Announced(later.notices, Offline) == Announced(s.notices, Offline)
  {
    InitialInv(start);
    RunKeepsInv(start, before);
    ClosedStays(s, after);
  }

  /** A close from inside the "reconnecting" notice leaves a timer pending on a closed stream. */
  lemma CloseInsideNotice(s: Stream, code: nat, reason: string, jitter: Jitter)
    requires Inv(s) && s.ws.Some? && !Final(code, reason) && s.retryCount < MAX_RETRIES
    ensures var after := Step(s, Closes(code, reason, jitter, true));
            after.closed && after.timer.Some?
            && forall fails, j, r :: Step(after, TimerFires(fails, j, r)) == after.(timer := None)
  {
  }

  /** After a close from outside nothing fires: no timer, no socket, whatever handlers still run. */
  lemma {:induction false} QuietOnceClosed(s: Stream, events: seq<Event>)
    requires s.closed && s.ws.None? && s.timer.None? && Valid(s, events)
    ensures var later := Run(s, events);
            later.closed && later.ws.None? && later.timer.None? && later.constructed == s.constructed
    decreases |events|
  {
    if events == [] {
    } else {
      QuietOnceClosed(Step(s, events[0]), events[1..]);
    }
  }

  lemma CloseSilences(s: Stream, after: seq<Event>)
    requires Valid(Step(s, CallClose), after)
    ensures Step(s, CallClose).notices == s.notices
    ensures var later := Run(Step(s, CallClose), after);
            later.closed && later.ws.None? && later.timer.None? && later.constructed == s.constructed
  {
    QuietOnceClosed(Step(s, CallClose), after);
  }

  /** What follows when a connection drops: offline at once or after ten retries, else the next retry. */
  predicate GivesUpOrRetries(s: Stream, s': Stream, final: bool) {
    && s'.ws.None? && s'.constructed == s.constructed && s'.closed == s.closed && s'.detached == s.detached
    && if final || 10 <= s.retryCount then
         s'.notices == s.notices + [Offline] && s'.timer.None? && s'.retryCount == s.retryCount
       else
         && s'.notices == s.notices + [Reconnecting] && s'.retryCount == s.retryCount + 1
         && s'.timer.Some? && 0.0 <= s'.timer.value < Cap(s'.retryCount)
  }

  lemma DropExactly(s: Stream, code: nat, reason: string, jitter: Jitter)
    requires Inv(s) && !s.closed && s.ws.Some?
    ensures GivesUpOrRetries(s, Step(s, Closes(code, reason, jitter, false)),
                             code in {1003, 1008, 1009, 1011, 1015} || SaysRefused(reason))
  {
    FinalExactly(code, reason);
  }

  /** The timer makes a socket; a constructor that throws counts as a drop. */
  lemma RetryExactly(s: Stream, fails: bool, jitter: Jitter)
    requires Inv(s) && !s.closed && s.timer.Some?
    ensures var s' := Step(s, TimerFires(fails, jitter, false));
            if fails then GivesUpOrRetries(s, s', false)
            else s' == s.(timer := None, ws := Some(s.constructed), constructed := s.constructed + 1)
  {
  }

  predicate Going(s: Stream) { s.closed || s.ws.Some? || s.timer.Some? || Offlines(s.notices) == 1 }

  lemma SchedulingGoesOn(s: Stream, jitter: Jitter, reenter: bool)
    requires !s.closed ==> Offlines(s.notices) == 0
    ensures Going(Scheduling(s, jitter, reenter))
  {
    OfflinesSnoc(s.notices, Offline);
  }

  lemma ClosesGoOn(s: Stream, e: Event)
    requires Inv(s) && Possible(s, e) && e.Closes?
    ensures Going(Step(s, e))
  {
    if Final(e.code, e.reason) {
      OfflinesSnoc(s.notices, Offline);
    } else {
      SchedulingGoesOn(s.(ws := None), e.jitter, e.reenter);
    }
  }

  lemma StepKeepsGoing(s: Stream, e: Event)
    requires Inv(s) && Going(s) && Possible(s, e)
    ensures Going(Step(s, e))
  {
    match e
    case Opens(_, _) => OfflinesSnoc(s.notices, Connected);
    case Receives(_, _) =>
    case Closes(_, _, _, _) => ClosesGoOn(s, e);
    case TimerFires(_, jitter, reenter) => SchedulingGoesOn(s.(timer := None), jitter, reenter);
    case CallClose =>
  }

  lemma {:induction false} RunKeepsGoing(s: Stream, events: seq<Event>)
    requires Inv(s) && Going(s) && Valid(s, events)
    ensures Going(Run(s, events))
    decreases |events|
  {
    if events == [] {
    } else {
      StepKeepsInv(s, events[0]);
      StepKeepsGoing(s, events[0]);
      RunKeepsGoing(Step(s, events[0]), events[1..]);
    }
  }

  /** A stream never gets stuck: until it is closed it has a socket or a timer, or has gone offline. */
  lemma NeverStuck(start: Stream, events: seq<Event>, s: Stream)
    requires Initial(start) && Valid(start, events) && s == Run(start, events)
    ensures s.closed || s.ws.Some? || s.timer.Some? || Offlines(s.notices) == 1
  {
    InitialInv(start);
    RunKeepsGoing(start, events);
  }

  // ---- the bounds are reached -----------------------------------------------------------------

  /** A peer that drops every connection: each close schedules a retry, each retry connects. */
  function Drops(n: nat): seq<Event> {
    if n == 0 then [Closes(1006, "", 0.0, false)]
    else [Closes(1006, "", 0.0, false), TimerFires(false, 0.0, false)] + Drops(n - 1)
  }

  lemma DropIsNotFinal()
    ensures !Final(1006, "")
  {
    assert Lower("") == "";
    assert !Contains("", "403") && !Contains("", "404") && !Contains("", "forbidden") && !Contains("", "refused");
  }

  lemma {:induction false} DropsFrom(s: Stream, n: nat)
    requires !s.closed && s.ws.Some? && s.timer.None? && s.retryCount + n == MAX_RETRIES
    ensures Valid(s, Drops(n))
    ensures Run(s, Drops(n)).constructed == s.constructed + n
    ensures var later := Run(s, Drops(n)).notices; 0 < |later| && later[|later| - 1] == Offline
    decreases n
  {
    DropIsNotFinal();
    var events := Drops(n);
    var dropped := Step(s, events[0]);
    if n == 0 {
      assert events[1..] == [];
      assert Valid(dropped, events[1..]);
    } else {
      var retried := Step(dropped, TimerFires(false, 0.0, false));
      assert events[1..] == [TimerFires(false, 0.0, false)] + Drops(n - 1);
      assert events[1..][1..] == Drops(n - 1);
      DropsFrom(retried, n - 1);
      assert Valid(dropped, events[1..]);
      assert Run(dropped, events[1..]) == Run(retried, Drops(n - 1));
    }
  }

  /** Every open brings the ten retries back. */
  lemma OpenRenewsRetries(start: Stream, before: seq<Event>, s: Stream, id: nat)
    requires Initial(start) && Valid(start, before) && s == Run(start, before) && s.ws == Some(id)
    ensures var live := Step(s, Opens(id, false));
            && live == s.(retryCount := 0, notices := s.notices + [Connected])
            && Valid(live, Drops(10))
            && Run(live, Drops(10)).constructed == s.constructed + 10
  {
    InitialInv(start);
    RunKeepsInv(start, before);
    DropsFrom(Step(s, Opens(id, false)), 10);
  }

  /** Ten retries are really made, and the eleventh failure goes offline. */
  lemma GivesUpAfterTenRetries(jitter: Jitter)
    ensures var start := Connecting(FRESH, false, jitter, false);
            && Initial(start) && Valid(start, Drops(MAX_RETRIES))
            && var s := Run(start, Drops(MAX_RETRIES));
               s.constructed == 11 && Offlines(s.notices) == 1
  {
    var start := Connecting(FRESH, false, jitter, false);
    DropsFrom(start, MAX_RETRIES);
    InitialInv(start);
    RunKeepsInv(start, Drops(MAX_RETRIES));
  }
}
