/** Small vocabulary shared by the protocol models. */
module Basics {
  datatype Option<+T> = None | Some(value: T)

  datatype Result<+T, +E> = Ok(value: T) | Err(error: E)

  lemma SubsetCardinality<T>(a: set<T>, b: set<T>)
    requires a <= b
    ensures |a| <= |b|
    ensures |a| == |b| ==> a == b
  {
    if a == b {
    } else {
      var x :| x in b && x !in a;
      SubsetCardinality(a, b - {x});
    }
  }

  lemma AtMostOneElement<T>(s: set<T>)
    requires forall x, y :: x in s && y in s ==> x == y
    ensures |s| <= 1
  {
    if s != {} {
      var x :| x in s;
      assert s == {x};
    }
  }

  lemma ConcatAssociates<T>(a: seq<T>, b: seq<T>, c: seq<T>)
    ensures (a + b) + c == a + (b + c)
  {
  }

  lemma FreshString(used: set<string>) returns (name: string)
    ensures name !in used
  {
    name := "";
    var longest: nat := 0;
    var rest := used;
    while rest != {}
      invariant rest <= used
      invariant forall t :: t in used - rest ==> |t| <= longest
      decreases rest
    {
      var t :| t in rest;
      longest := if longest < |t| then |t| else longest;
      rest := rest - {t};
    }
    name := seq(longest + 1, _ => 'x');
    assert name in used ==> |name| <= longest;
  }
}

/** A Redis key: a value with an optional expiry, deleted by the server once its time has come. */
module RedisKeys {
  import opened Basics

  // `expireAt` is the server time (ms) at which the key stops existing; None is a key without a TTL.
  datatype Slot<+V> = Absent | Present(value: V, expireAt: Option<nat>)

  predicate Alive<V>(slot: Slot<V>, now: nat) {
    slot.Present? && (slot.expireAt.None? || now < slot.expireAt.value)
  }

  /** What a command running at server time `now` sees. */
  function View<V>(slot: Slot<V>, now: nat): Slot<V> {
    if Alive(slot, now) then slot else Absent
  }

  type Keyspace<V> = map<string, Slot<V>>

  function Fetch<V>(keys: Keyspace<V>, key: string, now: nat): Slot<V> {
    if key in keys then View(keys[key], now) else Absent
  }

  /** SET key value EX ttl */
  function SetEx<V>(value: V, now: nat, ttlSecs: nat): Slot<V> {
    Present(value, Some(now + ttlSecs * 1000))
  }

  /** EXPIRE key ttl: no effect on a missing key. */
  function Expire<V>(slot: Slot<V>, now: nat, ttlSecs: nat): Slot<V> {
    if slot.Present? then Present(slot.value, Some(now + ttlSecs * 1000)) else Absent
  }
}
