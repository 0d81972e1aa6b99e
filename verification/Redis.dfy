/** The part of Redis the services rely on: one map of expiring entries and the counting script they share. */
module Redis {

  datatype Value<V> = Counter(n: int) | Payload(v: V)

  datatype Entry<V> = Entry(value: Value<V>, expires: int)

  type Store<V> = map<string, Entry<V>>

  datatype Option<T> = None | Some(value: T)

  predicate Live<V>(store: Store<V>, key: string, now: int) {
    key in store && now < store[key].expires
  }

  /** GET: a missing, expired or non-payload entry is no answer. */
  function Get<V>(store: Store<V>, key: string, now: int): Option<V> {
    if Live(store, key, now) && store[key].value.Payload? then Some(store[key].value.v) else None
  }

  /** What INCR would return; None is the wrong-type error. */
  function Incremented<V>(store: Store<V>, key: string, now: int): Option<int> {
    if !Live(store, key, now) then Some(1)
    else if store[key].value.Counter? then Some(store[key].value.n + 1)
    else None
  }

  /** The script incrAndExpire: INCR, and on the value 1 start the expiry; both at once. */
  function IncrAndExpire<V>(store: Store<V>, key: string, ttl: int, now: int): Store<V> {
    match Incremented(store, key, now)
    case None => store
    case Some(current) =>
      store[key := Entry(Counter(current), if current == 1 then now + ttl else store[key].expires)]
  }

  class Client<V> {
    var store: Store<V>
    var now: int

    constructor (start: int)
      ensures store == map[] && now == start
    {
      store, now := map[], start;
    }

    /** A dead key restarts at 1; the expiry is set exactly when the new count is 1; no other key is touched. */
    method RunIncrAndExpire(key: string, ttl: int) returns (current: Option<int>)
      modifies this`store
      ensures current == Incremented(old(store), key, now)
      ensures store == IncrAndExpire(old(store), key, ttl, now)
      ensures current.None? <==> Live(old(store), key, now) && old(store)[key].value.Payload?
      ensures current.None? ==> store == old(store)
      ensures current.Some? ==>
                && key in store && store[key].value == Counter(current.value)
                && current.value == (if Live(old(store), key, now) then old(store)[key].value.n + 1 else 1)
                && store[key].expires == if current.value == 1 then now + ttl else old(store)[key].expires
      ensures forall k | k != key ::
                (k in store <==> k in old(store)) && (k in store ==> store[k] == old(store)[k])
    {
      current := Incremented(store, key, now);
      store := IncrAndExpire(store, key, ttl, now);
    }

    method GetValue(key: string) returns (v: Option<V>)
      ensures v == Get(store, key, now)
    {
      v := Get(store, key, now);
    }

    method Set(key: string, v: V, ttl: int)
      modifies this`store
      ensures store == old(store)[key := Entry(Payload(v), now + ttl)]
    {
      store := store[key := Entry(Payload(v), now + ttl)];
    }

    method Del(key: string)
      modifies this`store
      ensures store == old(store) - {key}
    {
      store := store - {key};
    }
  }
}
