/**
  Request validation of the Python sidecar (py-api/app/main.py): timestamp window, signature, then
  a nonce claimed in Redis for 90 s. Any number of workers share the Redis server.
 */
module NonceReplay {
  import opened Basics
  import opened RedisKeys
  import opened Bytes
  import opened Envelope

  datatype Reason =
    | NoSecret | MissingHeaders | BadTimestamp | Expired | BadSignature | RedisDegraded | Duplicate

  // Raised: the comparison of signatures raises on text that is not ASCII, and the request fails.
  datatype Verdict = Allow | Reject(reason: Reason) | Raised

  // NoClient: the startup ping failed. Failing: the SET raised, after taking effect or not.
  datatype RedisState = NoClient | Failing(stored: bool) | Up

  // The parsed X-Timestamp header; None when it is missing or not a number.
  datatype Headers = Headers(userId: Bytes, email: Bytes, name: Bytes, signature: Bytes, timestamp: Option<nat>,
                             nonce: string)

  predicate StateChanging(verb: string) { verb in ["POST", "PUT", "DELETE", "PATCH"] }

  const NONCE_TTL_SECS := 90
  const WINDOW_SECS := 30

  predicate InWindow(clockSecs: int, ts: int) { -WINDOW_SECS <= clockSecs - ts <= WINDOW_SECS }

  /** SET key 1 NX EX 90: whether it was stored, and the key afterwards. */
  function SetNx(slot: Slot<()>, now: nat): (bool, Slot<()>) {
    if View(slot, now).Present? then (false, slot) else (true, SetEx((), now, NONCE_TTL_SECS))
  }

  predicate IsAscii(b: Bytes) { forall i :: 0 <= i < |b| ==> b[i] < 128 }

  /** Everything before the nonce check; `mac` stands for HMAC-SHA256 in hex. */
  function CheckSignature(h: Headers, secret: Bytes, mac: (Bytes, Bytes) -> Bytes, clockSecs: nat): Verdict {
    if secret == [] then Reject(NoSecret)
    else if h.userId == [] || h.email == [] || h.signature == [] then Reject(MissingHeaders)
    else if h.timestamp.None? then Reject(BadTimestamp)
    else if !InWindow(clockSecs, h.timestamp.value) then Reject(Expired)
    else if !IsAscii(h.signature) then Raised
    else if mac(secret, PythonPayload(Identity(h.userId, h.email, h.name, h.timestamp.value))) != h.signature
      then Reject(BadSignature)
    else Allow
  }

  /** The nonce check: verdict and the nonce's key afterwards. */
  function ClaimNonce(slot: Slot<()>, redis: RedisState, failOpen: bool, now: nat): (Verdict, Slot<()>) {
    match redis
    case NoClient => (if failOpen then Allow else Reject(RedisDegraded), slot)
    case Failing(stored) =>
      (if failOpen then Allow else Reject(RedisDegraded), if stored then SetNx(slot, now).1 else slot)
    case Up => var (ok, slot') := SetNx(slot, now); (if ok then Allow else Reject(Duplicate), slot')
  }

  /** The whole validation: verdict, and the nonce keys afterwards. */
  function Validate(nonces: Keyspace<()>, h: Headers, verb: string, secret: Bytes, mac: (Bytes, Bytes) -> Bytes,
                    failOpen: bool, clockSecs: nat, redis: RedisState, now: nat): (Verdict, Keyspace<()>)
  {
    var signed := CheckSignature(h, secret, mac, clockSecs);
    if signed.Allow? && h.nonce != "" && StateChanging(verb) then
      var slot := if h.nonce in nonces then nonces[h.nonce] else Absent;
      var (v, slot') := ClaimNonce(slot, redis, failOpen, now);
      (v, nonces[h.nonce := slot'])
    else (signed, nonces)
  }

  class SidecarWorker {
    const secret: Bytes
    const failOpen: bool
    var nonces: Keyspace<()>

    constructor (secret: Bytes, failOpen: bool)
      ensures this.secret == secret && this.failOpen == failOpen && nonces == map[]
    {
      this.secret, this.failOpen := secret, failOpen;
      nonces := map[];
    }

    method ValidateHmac(h: Headers, verb: string, mac: (Bytes, Bytes) -> Bytes, clockSecs: nat, redis: RedisState,
                        now: nat)
      returns (v: Verdict)
      modifies this`nonces
      ensures (v, nonces) == Validate(old(nonces), h, verb, secret, mac, failOpen, clockSecs, redis, now)
    {
      if secret == [] {
        return Reject(NoSecret);
      }
      if h.userId == [] || h.email == [] || h.signature == [] {
        return Reject(MissingHeaders);
      }
      if h.timestamp.None? {
        return Reject(BadTimestamp);
      }
      var ts := h.timestamp.value;
      var skew := clockSecs as int - ts;
      if WINDOW_SECS < (if skew < 0 then -skew else skew) {
        return Reject(Expired);
      }
      var expected := mac(secret, PythonPayload(Identity(h.userId, h.email, h.name, ts)));
      if exists i :: 0 <= i < |h.signature| && 128 <= h.signature[i] {
        return Raised;
      }
      if expected != h.signature {
        return Reject(BadSignature);
      }
      if h.nonce != "" && StateChanging(verb) {
        var slot := if h.nonce in nonces then nonces[h.nonce] else Absent;
        if redis.NoClient? {
          if !failOpen {
            v := Reject(RedisDegraded);
          } else {
            v := Allow;
          }
        } else {
          var (setOk, slot') := SetNx(slot, now);
          if redis.Failing? {
            slot := if redis.stored then slot' else slot;
            v := if failOpen then Allow else Reject(RedisDegraded);
          } else {
            slot := slot';
            v := if setOk then Allow else Reject(Duplicate);
          }
        }
        nonces := nonces[h.nonce := slot];
        return v;
      }
      return Allow;
    }
  }

  /** The seven outcomes before the nonce, in their order; nothing but the last lets a request on. */
  lemma SignatureVerdict(h: Headers, secret: Bytes, mac: (Bytes, Bytes) -> Bytes, clockSecs: nat)
    ensures var v := CheckSignature(h, secret, mac, clockSecs);
            var missing := |h.userId| == 0 || |h.email| == 0 || |h.signature| == 0;
            var late := h.timestamp.Some? && (clockSecs < h.timestamp.value - 30 || h.timestamp.value + 30 < clockSecs);
            var foreign := exists i :: 0 <= i < |h.signature| && 127 < h.signature[i];
            && (v == Reject(NoSecret) <==> |secret| == 0)
            && (v == Reject(MissingHeaders) <==> 0 < |secret| && missing)
            && (v == Reject(BadTimestamp) <==> 0 < |secret| && !missing && h.timestamp.None?)
            && (v == Reject(Expired) <==> 0 < |secret| && !missing && late)
            && (v == Raised <==> 0 < |secret| && !missing && h.timestamp.Some? && !late && foreign)
            && (v.Allow? <==> 0 < |secret| && !missing && h.timestamp.Some? && !late && !foreign
                              && h.signature == mac(secret, PythonPayload(Claimed(h))))
            && (v.Allow? || v == Raised || v == Reject(NoSecret) || v == Reject(MissingHeaders)
                || v == Reject(BadTimestamp) || v == Reject(Expired) || v == Reject(BadSignature))
  {
  }

  /**
    What a validation does to the nonces: it touches at most the one sent along, and only for a
    signed POST, PUT, DELETE or PATCH. With Redis up an unclaimed nonce is let through and held
    for 90 s, and a claimed one is a duplicate and stays as it is.
   */
  lemma NonceIsRecorded(nonces: Keyspace<()>, h: Headers, verb: string, secret: Bytes, mac: (Bytes, Bytes) -> Bytes,
                        failOpen: bool, clockSecs: nat, redis: RedisState, now: nat)
    ensures var (v, keys) := Validate(nonces, h, verb, secret, mac, failOpen, clockSecs, redis, now);
            var signed := CheckSignature(h, secret, mac, clockSecs).Allow?;
            var guarded := |h.nonce| != 0 && (verb == "POST" || verb == "PUT" || verb == "DELETE" || verb == "PATCH");
            var claimed := h.nonce in nonces && Alive(nonces[h.nonce], now);
            && (forall n :: n != h.nonce ==> (n in keys <==> n in nonces) && (n in nonces ==> keys[n] == nonces[n]))
            && (!signed || !guarded ==> keys == nonces && v == CheckSignature(h, secret, mac, clockSecs))
            && (signed && guarded ==> h.nonce in keys)
            && (signed && guarded && redis.Up? ==> v == if claimed then Reject(Duplicate) else Allow)
            && (signed && guarded && !redis.Up? ==> v == if failOpen then Allow else Reject(RedisDegraded))
            && (signed && guarded && !claimed && (redis.Up? || redis == Failing(true)) ==>
                  forall t: nat :: Alive(keys[h.nonce], t) <==> t < now + 90_000)
            && (signed && guarded && (claimed || !(redis.Up? || redis == Failing(true))) ==>
                  keys[h.nonce] == if h.nonce in nonces then nonces[h.nonce] else Absent)
  {
  }

  /** Signatures under this secret keep payloads apart. */
  ghost predicate Separates(secret: Bytes, mac: (Bytes, Bytes) -> Bytes) {
    forall p, q :: mac(secret, p) == mac(secret, q) ==> p == q
  }

  /** The identity the headers claim. */
  function Claimed(h: Headers): Identity
    requires h.timestamp.Some?
  {
    Identity(h.userId, h.email, h.name, h.timestamp.value)
  }

  /**
    What the Rust side signs for an identity, the Python side accepts for that identity, provided
    it is ASCII without DEL. For a signature that keeps payloads apart it accepts it for nothing
    else: a signature never serves other headers than those it was made for.
   */
  lemma SignedRequestsPass(i: Identity, h: Headers, secret: Bytes, mac: (Bytes, Bytes) -> Bytes, clockSecs: nat)
    requires secret != [] && h.userId != [] && h.email != [] && h.timestamp.Some? &&
              InWindow(clockSecs, h.timestamp.value)
    requires h.signature == mac(secret, RustPayload(i)) != [] && IsAscii(h.signature)
    ensures Claimed(h) == i && PlainAscii(i.userId) && PlainAscii(i.email) && PlainAscii(i.name) ==>
              CheckSignature(h, secret, mac, clockSecs).Allow?
    ensures Separates(secret, mac) ==>
              (CheckSignature(h, secret, mac, clockSecs).Allow?
               <==> Claimed(h) == i && PlainAscii(i.userId) && PlainAscii(i.email) && PlainAscii(i.name))
  {
    PayloadInjective(i, Claimed(h));
    PayloadsAgree(i);
  }

  /**
    The nonce is not signed. A signature that passed once passes again, with Redis up, exactly while
    its timestamp is in the window and the nonce sent along this time is empty or unclaimed, or the
    request does not change state.
   */
  lemma SignatureIsReusable(nonces: Keyspace<()>, h: Headers, other: string, verb: string, secret: Bytes,
                            mac: (Bytes, Bytes) -> Bytes, failOpen: bool, clockSecs: nat, later: nat, now: nat)
    requires CheckSignature(h, secret, mac, clockSecs).Allow?
    ensures Validate(nonces, h.(nonce := other), verb, secret, mac, failOpen, later, Up, now).0.Allow? <==>
              && InWindow(later, h.timestamp.value)
              && (!StateChanging(verb) || other == "" || other !in nonces || !Alive(nonces[other], now))
  {
  }

  // ---------------------------------------------------------------------------------------------
  // Runs of validations, signed or not, in the order they reach Redis.

  // What a deployment shares: the secret, the signature function and the policy for outages.
  datatype Config = Config(secret: Bytes, mac: (Bytes, Bytes) -> Bytes, failOpen: bool)

  // How long a worker may take from reading its clock to claiming the nonce, and how far that
  // clock may be off the Redis server's, both in milliseconds.
  datatype Timing = Timing(delay: nat, skew: nat)

  datatype Request = Request(h: Headers, verb: string, reading: nat, readAt: nat, redis: RedisState, now: nat)

  predicate Plausible(t: Timing, r: Request) {
    && r.readAt <= r.now <= r.readAt + t.delay
    && r.readAt - t.skew <= r.reading <= r.readAt + t.skew
  }

  datatype World = World(nonces: Keyspace<()>, accepted: seq<Request>, now: nat)

  const START := World(map[], [], 0)

  function SlotOf(w: World, nonce: string): Slot<()> {
    if nonce in w.nonces then w.nonces[nonce] else Absent
  }

  /** One call of the validation by some worker. */
  function Call(cfg: Config, w: World, r: Request): (Verdict, Keyspace<()>) {
    Validate(w.nonces, r.h, r.verb, cfg.secret, cfg.mac, cfg.failOpen, r.reading / 1000, r.redis, r.now)
  }

  function Step(cfg: Config, w: World, r: Request): World {
    var (v, keys) := Call(cfg, w, r);
    World(keys, if v.Allow? then w.accepted + [r] else w.accepted, r.now)
  }

  // `outages`: whether Redis may be away from or fail a worker.
  predicate Valid(cfg: Config, t: Timing, outages: bool, w: World, requests: seq<Request>)
    decreases |requests|
  {
    requests == [] ||
    (w.now <= requests[0].now && Plausible(t, requests[0]) && (!outages ==> requests[0].redis.Up?)
     && Valid(cfg, t, outages, Step(cfg, w, requests[0]), requests[1..]))
  }

  function Run(cfg: Config, w: World, requests: seq<Request>): World
    decreases |requests|
  {
    if requests == [] then w else Run(cfg, Step(cfg, w, requests[0]), requests[1..])
  }

  /** State-changing, with a nonce; others may be repeated. */
  predicate Guarded(r: Request) { r.h.nonce != "" && StateChanging(r.verb) }

  predicate SameClaim(q: Request, r: Request) { q.h.nonce == r.h.nonce && q.h.timestamp == r.h.timestamp }

  /** No nonce is accepted with the same timestamp twice. */
  predicate NoReplay(accepted: seq<Request>) {
    forall i, j :: 0 <= i < j < |accepted| && Guarded(accepted[i]) && Guarded(accepted[j]) ==>
      !SameClaim(accepted[i], accepted[j])
  }

  predicate OnTime(r: Request) { r.h.timestamp.Some? && InWindow(r.reading / 1000, r.h.timestamp.value) }

  // The key of an accepted nonce outlives its claim by 90 s.
  predicate Held(w: World, r: Request) {
    && r.now <= w.now
    && (w.now < r.now + NONCE_TTL_SECS * 1000 && Guarded(r) ==>
          var slot := SlotOf(w, r.h.nonce);
          slot.Present? && slot.expireAt.Some? && r.now + NONCE_TTL_SECS * 1000 <= slot.expireAt.value)
  }

  predicate Sound(t: Timing, w: World) {
    && (forall n :: n in w.nonces ==> w.nonces[n].Present? ==> w.nonces[n].expireAt.Some?)
    && (forall i :: 0 <= i < |w.accepted| ==>
          Held(w, w.accepted[i]) && Plausible(t, w.accepted[i]) && OnTime(w.accepted[i]))
    && NoReplay(w.accepted)
  }

  predicate NonceOutlivesWindow(t: Timing) { t.delay + 2 * t.skew <= 29_000 }

  lemma CallKeeps(cfg: Config, t: Timing, w: World, r: Request, q: Request)
    requires Sound(t, w) && w.now <= r.now && Held(w, q)
    ensures Held(Step(cfg, w, r), q)
  {
  }

  lemma StillHeld(t: Timing, w: World, q: Request, r: Request)
    requires NonceOutlivesWindow(t) && Held(w, q) && w.now <= r.now
    requires Plausible(t, q) && OnTime(q) && Guarded(q)
    requires Plausible(t, r) && OnTime(r) && SameClaim(q, r)
    ensures View(SlotOf(w, r.h.nonce), r.now).Present?
  {
    assert r.now < q.now + NONCE_TTL_SECS * 1000;
  }

  // Nothing is let through unclaimed.
  predicate Claims(cfg: Config, r: Request) { r.redis.Up? || !cfg.failOpen }

  lemma AcceptedIsUnclaimed(cfg: Config, w: World, r: Request)
    requires Claims(cfg, r) && Call(cfg, w, r).0.Allow?
    ensures OnTime(r)
    ensures Guarded(r) ==> !View(SlotOf(w, r.h.nonce), r.now).Present?
    ensures Held(Step(cfg, w, r), r)
  {
  }

  lemma StepNoReplay(cfg: Config, t: Timing, w: World, r: Request)
    requires NonceOutlivesWindow(t) && Sound(t, w)
    requires w.now <= r.now && Plausible(t, r) && Claims(cfg, r) && Call(cfg, w, r).0.Allow?
    ensures NoReplay(w.accepted + [r])
  {
    AcceptedIsUnclaimed(cfg, w, r);
    forall i | 0 <= i < |w.accepted| && Guarded(w.accepted[i]) && Guarded(r) ensures !SameClaim(w.accepted[i], r) {
      if SameClaim(w.accepted[i], r) {
        StillHeld(t, w, w.accepted[i], r);
      }
    }
  }

  lemma StepSound(cfg: Config, t: Timing, w: World, r: Request)
    requires NonceOutlivesWindow(t) && Sound(t, w)
    requires w.now <= r.now && Plausible(t, r) && Claims(cfg, r)
    ensures Sound(t, Step(cfg, w, r))
  {
    var w' := Step(cfg, w, r);
    forall i | 0 <= i < |w.accepted| ensures Held(w', w.accepted[i]) {
      CallKeeps(cfg, t, w, r, w.accepted[i]);
    }
    if Call(cfg, w, r).0.Allow? {
      AcceptedIsUnclaimed(cfg, w, r);
      StepNoReplay(cfg, t, w, r);
    }
  }

  lemma {:induction false} RunSound(cfg: Config, t: Timing, outages: bool, w: World, requests: seq<Request>)
    requires NonceOutlivesWindow(t) && !(cfg.failOpen && outages)
    requires Sound(t, w) && Valid(cfg, t, outages, w, requests)
    ensures Sound(t, Run(cfg, w, requests))
    decreases |requests|
  {
    if requests == [] {
    } else {
      StepSound(cfg, t, w, requests[0]);
      RunSound(cfg, t, outages, Step(cfg, w, requests[0]), requests[1..]);
    }
  }

  // ---- runs that replay -----------------------------------------------------------------------

  /** Signatures are non-empty ASCII, as hex digests are. */
  ghost predicate SignsInHex(cfg: Config) {
    forall p :: cfg.mac(cfg.secret, p) != [] && IsAscii(cfg.mac(cfg.secret, p))
  }

  // A correctly signed request of somebody, stamped `ts`.
  function Signed(cfg: Config, ts: nat): Headers {
    var i := Identity([117], [101], [], ts);
    Headers(i.userId, i.email, i.name, cfg.mac(cfg.secret, PythonPayload(i)), Some(ts), "n")
  }

  function Post(cfg: Config, ts: nat, reading: nat, readAt: nat, redis: RedisState, now: nat): Request {
    Request(Signed(cfg, ts), "POST", reading, readAt, redis, now)
  }

  lemma SignedIsAllowed(cfg: Config, ts: nat, clockSecs: nat)
    requires cfg.secret != [] && SignsInHex(cfg) && InWindow(clockSecs, ts)
    ensures CheckSignature(Signed(cfg, ts), cfg.secret, cfg.mac, clockSecs).Allow?
  {
    var i := Identity([117], [101], [], ts);
    assert cfg.mac(cfg.secret, PythonPayload(i)) != [];
  }

  lemma TwoCalls(cfg: Config, t: Timing, outages: bool, q: Request, r: Request)
    requires Plausible(t, q) && Plausible(t, r) && q.now <= r.now
    requires (!outages ==> q.redis.Up? && r.redis.Up?)
    requires Call(cfg, START, q).0.Allow? && Call(cfg, Step(cfg, START, q), r).0.Allow?
    ensures Valid(cfg, t, outages, START, [q, r]) && Run(cfg, START, [q, r]).accepted == [q, r]
  {
    var w1 := Step(cfg, START, q);
    assert [q, r][1..] == [r] && [r][1..] == [];
    assert Valid(cfg, t, outages, Step(cfg, w1, r), []);
    assert Valid(cfg, t, outages, w1, [r]) && Run(cfg, w1, [r]) == Step(cfg, w1, r);
  }

  // The widest spread the timing allows: claimed the moment a fast clock opens the window, then
  // again by a worker that read a slow clock in the window's last millisecond and dawdled.
  function Early(cfg: Config, t: Timing): Request {
    Post(cfg, WINDOW_SECS + t.skew, t.skew * 1000, t.skew * 1000 - t.skew, Up, t.skew * 1000 - t.skew)
  }

  function Late(cfg: Config, t: Timing): Request {
    var reading := (2 * WINDOW_SECS + t.skew + 1) * 1000 - 1;
    Post(cfg, WINDOW_SECS + t.skew, reading, reading + t.skew, Up, reading + t.skew + t.delay)
  }

  lemma WidestSpreadReplays(cfg: Config, t: Timing, outages: bool)
    requires cfg.secret != [] && SignsInHex(cfg) && !NonceOutlivesWindow(t)
    ensures Valid(cfg, t, outages, START, [Early(cfg, t), Late(cfg, t)])
    ensures Run(cfg, START, [Early(cfg, t), Late(cfg, t)]).accepted == [Early(cfg, t), Late(cfg, t)]
  {
    var q, r := Early(cfg, t), Late(cfg, t);
    SignedIsAllowed(cfg, WINDOW_SECS + t.skew, q.reading / 1000);
    SignedIsAllowed(cfg, WINDOW_SECS + t.skew, r.reading / 1000);
    assert Step(cfg, START, q).nonces["n"] == Present((), Some(q.now + 90_000));
    assert r.now - q.now == 60_999 + 2 * t.skew + t.delay;
    TwoCalls(cfg, t, outages, q, r);
  }

  // A worker that has no Redis.
  function Unprotected(cfg: Config, t: Timing): Request { Early(cfg, t).(redis := NoClient) }

  lemma OutageReplays(cfg: Config, t: Timing)
    requires cfg.secret != [] && SignsInHex(cfg) && cfg.failOpen
    ensures Valid(cfg, t, true, START, [Unprotected(cfg, t), Unprotected(cfg, t)])
    ensures Run(cfg, START, [Unprotected(cfg, t), Unprotected(cfg, t)]).accepted
         == [Unprotected(cfg, t), Unprotected(cfg, t)]
  {
    var r := Unprotected(cfg, t);
    SignedIsAllowed(cfg, WINDOW_SECS + t.skew, r.reading / 1000);
    TwoCalls(cfg, t, true, r, r);
  }

  /**
    Replay protection over whole runs of validations by any number of workers, whatever headers they
    get. A nonce with a timestamp is accepted at most once for state-changing requests in every run
    exactly when no outage is met failing open, and handler delay plus twice the clock skew stays
    within 29 s: that is what a 90 s key leaves over a window of 61 whole seconds.
   */
  lemma AcceptedAtMostOnce(cfg: Config, t: Timing, outages: bool)
    requires cfg.secret != [] && SignsInHex(cfg)
    ensures NonceOutlivesWindow(t) && !(cfg.failOpen && outages)
       <==> forall requests ::
              Valid(cfg, t, outages, START, requests) ==> NoReplay(Run(cfg, START, requests).accepted)
  {
    if !NonceOutlivesWindow(t) {
      WidestSpreadReplays(cfg, t, outages);
      assert !NoReplay([Early(cfg, t), Late(cfg, t)]);
    } else if cfg.failOpen && outages {
      OutageReplays(cfg, t);
      assert !NoReplay([Unprotected(cfg, t), Unprotected(cfg, t)]);
    } else {
      forall requests | Valid(cfg, t, outages, START, requests)
        ensures NoReplay(Run(cfg, START, requests).accepted)
      {
        RunSound(cfg, t, outages, START, requests);
      }
    }
  }
}
