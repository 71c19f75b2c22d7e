/**
 The in-memory key-value store with expiry (kvs/backend/memory/memory.go).  Values are kept abstract: the
 source stores byte strings.
 */
module KeyValue {
  import opened Wrappers

  type Time = int

  datatype Entry<V> = Entry(value: V, expiresAt: Option<Time>)

  type Data<V> = map<string, Entry<V>>

  predicate Stale<V>(e: Entry<V>, now: Time) {
    e.expiresAt.Some? && now > e.expiresAt.value
  }

  /** What a read at time `now` finds. */
  function Lookup<V>(data: Data<V>, key: string, now: Time): Option<V> {
    if key in data && !Stale(data[key], now) then Some(data[key].value) else None
  }

  /** A time to live that is not positive means no expiry. */
  function Put<V>(data: Data<V>, key: string, value: V, ttl: int, now: Time): Data<V> {
    data[key := Entry(value, if ttl > 0 then Some(now + ttl) else None)]
  }

  function LiveKeys<V>(data: Data<V>, prefix: string, now: Time): set<string> {
    set key | key in data && !Stale(data[key], now) && prefix <= key
  }

  datatype GetResult<V> = Value(value: V) | KeyNotFound | Closed

  class KeyValueStore<V> {
    var data: Data<V>
    var closed: bool

    constructor ()
      ensures data == map[] && !closed
    {
      data, closed := map[], false;
    }

    method Get(key: string, now: Time) returns (r: GetResult<V>)
      ensures
        r == if closed then Closed
             else match Lookup(data, key, now)
                  case None => KeyNotFound
                  case Some(v) => Value(v)
    {
      if closed {
        return Closed;
      }
      if key !in data {
        return KeyNotFound;
      }
      var e := data[key];
      if e.expiresAt.Some? && now > e.expiresAt.value {
        return KeyNotFound;
      }
      return Value(e.value);
    }

    method Set(key: string, value: V, ttl: int, now: Time) returns (ok: bool)
      modifies this
      ensures ok == !closed == !old(closed)
      ensures data == if ok then Put(old(data), key, value, ttl, now) else old(data)
    {
      if closed {
        return false;
      }
      var e := Entry(value, None);
      if ttl > 0 {
        e := e.(expiresAt := Some(now + ttl));
      }
      data := data[key := e];
      return true;
    }

    method Delete(key: string) returns (ok: bool)
      modifies this
      ensures ok == !closed == !old(closed)
      ensures data == if ok then old(data) - {key} else old(data)
    {
      if closed {
        return false;
      }
      data := data - {key};
      return true;
    }

    /** All keys with the prefix that have not expired, each once. */
    method List(prefix: string, now: Time) returns (r: Option<seq<string>>)
      ensures r.None? <==> closed
      ensures r.Some? ==> multiset(r.value) == multiset(LiveKeys(data, prefix, now))
    {
      if closed {
        return None;
      }
      var keys := Collect(prefix, now, LiveKeys(data, prefix, now));
      return Some(keys);
    }

    /** The loop over the map. */
    method Collect(prefix: string, now: Time, ghost live: set<string>) returns (keys: seq<string>)
      requires live <= data.Keys
      requires forall key | key in data :: key in live <==> !Stale(data[key], now) && prefix <= key
      ensures multiset(keys) == multiset(live)
    {
      keys := [];
      var left := data.Keys;
      while left != {}
        invariant left <= data.Keys
        invariant multiset(keys) == multiset(live - left)
        decreases |left|
      {
        var key :| key in left;
        ghost var before := live - left;
        left := left - {key};
        assert live - left == if key in live then before + {key} else before;
        var e := data[key];
        if e.expiresAt.Some? && now > e.expiresAt.value {
          continue;
        }
        if prefix == "" || prefix <= key {
          keys := keys + [key];
        }
      }
      assert live - left == live;
    }

    method Close()
      modifies this
      ensures closed && data == if old(closed) then old(data) else map[]
    {
      if !closed {
        data, closed := map[], true;
      }
    }

    /** One tick of the background cleanup; no read can tell it happened. */
    method RemoveExpired(now: Time)
      modifies this
      ensures closed == old(closed)
      ensures data == if closed then old(data)
                      else map key | key in old(data) && !Stale(old(data)[key], now) :: old(data)[key]
    {
      if closed {
        return;
      }
      var left := data.Keys;
      while left != {}
        invariant left <= old(data).Keys && closed == old(closed)
        invariant data == map key | key in old(data) && (key in left || !Stale(old(data)[key], now)) :: old(data)[key]
        decreases |left|
      {
        var key :| key in left;
        left := left - {key};
        var e := data[key];
        if e.expiresAt.Some? && now > e.expiresAt.value {
          data := data - {key};
        }
      }
    }
  }

  /** What was stored can be read until its time to live is over, or for ever if that is not positive. */
  lemma LookupAfterPut<V>(data: Data<V>, key: string, value: V, ttl: int, now: Time, later: Time)
    requires now <= later
    ensures Lookup(Put(data, key, value, ttl, now), key, later) ==
            if ttl <= 0 || later <= now + ttl then Some(value) else None
    ensures forall k | k != key :: Lookup(Put(data, key, value, ttl, now), k, later) == Lookup(data, k, later)
  {
  }

  /** Removing stale entries at one time changes no read at that time or later. */
  lemma SweepUnobservable<V>(data: Data<V>, key: string, now: Time, later: Time)
    requires now <= later
    ensures
      var swept := map k | k in data && !Stale(data[k], now) :: data[k];
      Lookup(swept, key, later) == Lookup(data, key, later)
  {
  }
}
