/** Key-value operations of backend/cache/src/cache.rs over the namespaced Redis key space. */
module CacheStore {
  import opened Basics
  import opened RedisKeys

  datatype CacheError = CommandFailed | SerializationFailed

  // Whether a command reaches the server, and the server's answer the client.
  datatype Link = Answered | ReplyLost | Unreachable

  /** {prefix}:{namespace}:{key} */
  function MakeKey(prefix: string, namespace: string, key: string): string {
    prefix + ":" + namespace + ":" + key
  }

  function UpToColon(s: string): string {
    if s == "" || s[0] == ':' then "" else [s[0]] + UpToColon(s[1..])
  }

  lemma {:induction false} UpToColonOf(a: string, b: string)
    requires ':' !in a
    ensures UpToColon(a + ":" + b) == a
  {
    if a == "" {
    } else {
      UpToColonOf(a[1..], b);
      assert (a + ":" + b)[1..] == a[1..] + ":" + b;
    }
  }

  /** Namespaces hold no colon, so two of them never share a Redis key, whatever the keys contain. */
  lemma MakeKeyInjective(prefix: string, ns1: string, key1: string, ns2: string, key2: string)
    requires ':' !in ns1 && ':' !in ns2
    requires MakeKey(prefix, ns1, key1) == MakeKey(prefix, ns2, key2)
    ensures ns1 == ns2 && key1 == key2
  {
    var p := prefix + ":";
    var a, b := ns1 + ":" + key1, ns2 + ":" + key2;
    assert p + a == MakeKey(prefix, ns1, key1) && p + b == MakeKey(prefix, ns2, key2);
    assert (p + a)[|p|..] == a && (p + b)[|p|..] == b;
    UpToColonOf(ns1, key1);
    UpToColonOf(ns2, key2);
    assert key1 == a[|ns1| + 1..] && key2 == b[|ns2| + 1..];
  }

  /** GET and DEL as one step: what GETDEL and the rotate script do. */
  function Take<V>(keys: Keyspace<V>, key: string, now: nat): (Option<V>, Keyspace<V>) {
    var slot := Fetch(keys, key, now);
    if slot.Present? then (Some(slot.value), keys - {key}) else (None, keys)
  }

  /** A value can be taken once, and exactly while it lives; everything else stays. */
  lemma TakenOnce<V>(keys: Keyspace<V>, key: string, now: nat, again: nat)
    ensures var (v, rest) := Take(keys, key, now);
            && (v.Some? <==> key in keys && Alive(keys[key], now))
            && (v.Some? ==> v == Some(keys[key].value) && Take(rest, key, again).0.None?)
            && (v.None? ==> rest == keys)
            && rest - {key} == keys - {key}
  {
  }

  function StoredValue(slot: Slot<string>): Option<string> {
    if slot.Present? then Some(slot.value) else None
  }

  /** What the client makes of stored JSON text. */
  function Decoded<T>(text: Option<string>, decode: string -> Option<T>): Result<Option<T>, CacheError> {
    if text.None? then Ok(None)
    else if decode(text.value).None? then Err(SerializationFailed)
    else Ok(decode(text.value))
  }

  /** What was set reads back, decoded, for its lifetime, and then not at all. */
  lemma SetReadsBack<T>(keys: Keyspace<string>, key: string, value: string, ttlSecs: nat, now: nat, later: nat,
                        decode: string -> Option<T>)
    requires now <= later
    ensures var read := Decoded(StoredValue(Fetch(keys[key := SetEx(value, now, ttlSecs)], key, later)), decode);
            if now + 1000 * ttlSecs <= later then read == Ok(None)
            else match decode(value)
              case Some(v) => read == Ok(Some(v))
              case None => read == Err(SerializationFailed)
  {
  }

  class RedisClient {
    const prefix: string
    var keys: Keyspace<string>

    constructor (prefix: string)
      ensures this.prefix == prefix && keys == map[]
    {
      this.prefix := prefix;
      keys := map[];
    }

    method CacheGet<T>(namespace: string, key: string, now: nat, link: Link, decode: string -> Option<T>)
      returns (r: Result<Option<T>, CacheError>)
      ensures !link.Answered? ==> r == Err(CommandFailed)
      ensures link.Answered? ==> r == Decoded(StoredValue(Fetch(keys, MakeKey(prefix, namespace, key), now)), decode)
    {
      if !link.Answered? {
        return Err(CommandFailed);
      }
      var slot := Fetch(keys, MakeKey(prefix, namespace, key), now);
      if slot.Absent? {
        return Ok(None);
      }
      var value := decode(slot.value);
      if value.None? {
        return Err(SerializationFailed);
      }
      return Ok(value);
    }

    method CacheSet(namespace: string, key: string, value: string, ttlSecs: nat, now: nat, link: Link)
      returns (r: Result<(), CacheError>)
      modifies this`keys
      ensures r == if link.Answered? && 0 < ttlSecs then Ok(()) else Err(CommandFailed)
      ensures keys == if link.Unreachable? || ttlSecs == 0 then old(keys)
                      else old(keys)[MakeKey(prefix, namespace, key) := SetEx(value, now, ttlSecs)]
    {
      if link.Unreachable? || ttlSecs == 0 {
        return Err(CommandFailed);
      }
      keys := keys[MakeKey(prefix, namespace, key) := SetEx(value, now, ttlSecs)];
      return if link.Answered? then Ok(()) else Err(CommandFailed);
    }

    method CacheDelete(namespace: string, key: string, link: Link) returns (r: Result<(), CacheError>)
      modifies this`keys
      ensures r == if link.Answered? then Ok(()) else Err(CommandFailed)
      ensures keys == if link.Unreachable? then old(keys) else old(keys) - {MakeKey(prefix, namespace, key)}
    {
      if !link.Unreachable? {
        keys := keys - {MakeKey(prefix, namespace, key)};
      }
      return if link.Answered? then Ok(()) else Err(CommandFailed);
    }

    // The value is gone once the server has run GETDEL, even if it never arrives or does not decode.
    method CacheGetDelete<T>(namespace: string, key: string, now: nat, link: Link, decode: string -> Option<T>)
      returns (r: Result<Option<T>, CacheError>)
      modifies this`keys
      ensures var taken := Take(old(keys), MakeKey(prefix, namespace, key), now);
              && keys == (if link.Unreachable? then old(keys) else taken.1)
              && r == if link.Answered? then Decoded(taken.0, decode) else Err(CommandFailed)
    {
      if link.Unreachable? {
        return Err(CommandFailed);
      }
      var slot := Fetch(keys, MakeKey(prefix, namespace, key), now);
      if slot.Present? {
        keys := keys - {MakeKey(prefix, namespace, key)};
      }
      if link.ReplyLost? {
        return Err(CommandFailed);
      }
      r := Decoded(StoredValue(slot), decode);
    }

    // The script answers '' for a missing token, so a stored '' would be lost; JSON text never is ''.
    method RefreshTokenRotate(token: string, now: nat, link: Link, decode: string -> Option<string>)
      returns (r: Result<Option<string>, CacheError>)
      modifies this`keys
      ensures var taken := Take(old(keys), MakeKey(prefix, "refresh", token), now);
              && keys == (if link.Unreachable? then old(keys) else taken.1)
              && r == if link.Answered? then Decoded(if taken.0 == Some("") then None else taken.0, decode)
                      else Err(CommandFailed)
    {
      if link.Unreachable? {
        return Err(CommandFailed);
      }
      var slot := Fetch(keys, MakeKey(prefix, "refresh", token), now);
      var reply := "";
      if slot.Present? {
        keys := keys - {MakeKey(prefix, "refresh", token)};
        reply := slot.value;
      }
      if link.ReplyLost? {
        return Err(CommandFailed);
      }
      if reply == "" {
        return Ok(None);
      }
      var uid := decode(reply);
      if uid.None? {
        return Err(SerializationFailed);
      }
      return Ok(uid);
    }
  }

  // ---------------------------------------------------------------------------------------------
  // One-shot keys: OAuth states, written once under a fresh name and consumed by concurrent callbacks.

  datatype OneShotEvent = Write(key: string, value: string, ttlSecs: nat, now: nat) | Consume(key: string, now: nat)

  datatype OneShot = OneShot(keys: Keyspace<string>, issued: map<string, string>, consumed: seq<string>)

  predicate CanHappen(s: OneShot, e: OneShotEvent) { e.Write? ==> e.key !in s.issued }

  function Happen(s: OneShot, e: OneShotEvent): OneShot {
    match e
    case Write(key, value, ttl, now) =>
      OneShot(if ttl == 0 then s.keys else s.keys[key := SetEx(value, now, ttl)], s.issued[key := value], s.consumed)
    case Consume(key, now) =>
      var (v, keys) := Take(s.keys, key, now);
      OneShot(keys, s.issued, if v.Some? then s.consumed + [key] else s.consumed)
  }

  predicate AllHappen(s: OneShot, events: seq<OneShotEvent>)
    decreases |events|
  {
    events == [] || (CanHappen(s, events[0]) && AllHappen(Happen(s, events[0]), events[1..]))
  }

  function Outcome(s: OneShot, events: seq<OneShotEvent>): OneShot
    decreases |events|
  {
    if events == [] then s else Outcome(Happen(s, events[0]), events[1..])
  }

  predicate NoRepeats(names: seq<string>) {
    forall i, j :: 0 <= i < j < |names| ==> names[i] != names[j]
  }

  predicate OneShotSound(s: OneShot) {
    && (forall k :: k in s.keys ==> k in s.issued && s.keys[k].Present? && s.keys[k].value == s.issued[k])
    && (forall k :: k in s.consumed ==> k in s.issued && k !in s.keys)
    && NoRepeats(s.consumed)
  }

  lemma {:induction false} OneShotInvariant(s: OneShot, events: seq<OneShotEvent>)
    requires OneShotSound(s) && AllHappen(s, events)
    ensures OneShotSound(Outcome(s, events))
    decreases |events|
  {
    if events == [] {
    } else {
      OneShotInvariant(Happen(s, events[0]), events[1..]);
    }
  }

  /** However many callbacks race for it, a state is consumed at most once, with the value written. */
  lemma ConsumedAtMostOnce(events: seq<OneShotEvent>, key: string, now: nat)
    requires AllHappen(OneShot(map[], map[], []), events)
    ensures var s := Outcome(OneShot(map[], map[], []), events);
            && NoRepeats(s.consumed)
            && (Take(s.keys, key, now).0.Some? ==>
                  key !in s.consumed && key in s.issued && Take(s.keys, key, now).0.value == s.issued[key])
  {
    OneShotInvariant(OneShot(map[], map[], []), events);
  }

  lemma {:induction false} OthersUntouched(s: OneShot, events: seq<OneShotEvent>, key: string)
    requires forall e :: e in events ==> e.key != key
    ensures var later := Outcome(s, events);
            && (key in later.keys <==> key in s.keys)
            && (key in s.keys ==> later.keys[key] == s.keys[key])
            && (key in later.consumed <==> key in s.consumed)
    decreases |events|
  {
    if events == [] {
    } else {
      assert events[0] in events && forall e :: e in events[1..] ==> e in events;
      OthersUntouched(Happen(s, events[0]), events[1..], key);
    }
  }

  /**
    The first callback for a state succeeds exactly if it comes within the lifetime, whatever happens
    to other states in between.
   */
  lemma FirstConsumeSucceeds(s: OneShot, key: string, value: string, ttlSecs: nat, now: nat, events: seq<OneShotEvent>,
                             later: nat)
    requires OneShotSound(s) && key !in s.issued && now <= later
    requires forall e :: e in events ==> e.key != key
    ensures var before := Outcome(Happen(s, Write(key, value, ttlSecs, now)), events);
            && key !in before.consumed
            && Take(before.keys, key, later).0 == (if later < now + 1000 * ttlSecs then Some(value) else None)
            && Happen(before, Consume(key, later)).consumed ==
                 before.consumed + (if later < now + 1000 * ttlSecs then [key] else [])
  {
    OthersUntouched(Happen(s, Write(key, value, ttlSecs, now)), events, key);
  }
}
