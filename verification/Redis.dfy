/**
 The Redis commands the forwarder issues, over one table per key template. A
 deadline is the millisecond at which a key stops existing; a dead entry may
 stay in the table, every command treats it as absent.
 */
module Redis {
  import opened Wrappers

  datatype Entry<+V> = Entry(value: V, deadline: Option<nat>)

  type Table<!K, +V> = map<K, Entry<V>>

  predicate Alive<V>(e: Entry<V>, now: nat) {
    e.deadline.Some? ==> now < e.deadline.value
  }

  predicate Exists<K, V>(t: Table<K, V>, k: K, now: nat) {
    k in t && Alive(t[k], now)
  }

  /** The integer INCR and DECR start from: a missing key counts as zero. */
  function Number<K>(t: Table<K, int>, k: K, now: nat): int {
    if Exists(t, k, now) then t[k].value else 0
  }

  /** INCR (delta 1) and DECR (delta -1): keep the deadline of an existing key, give a new key none. */
  function Add<K>(t: Table<K, int>, k: K, now: nat, delta: int): Table<K, int> {
    t[k := Entry(Number(t, k, now) + delta, if Exists(t, k, now) then t[k].deadline else None)]
  }

  /** EXPIRE: succeeds without effect when the key is absent. */
  function Expire<K, V>(t: Table<K, V>, k: K, now: nat, ttl: nat): Table<K, V> {
    if Exists(t, k, now) then t[k := t[k].(deadline := Some(now + ttl))] else t
  }

  /** SET without a lifetime. */
  function SetForever<K, V>(t: Table<K, V>, k: K, v: V): Table<K, V> {
    t[k := Entry(v, None)]
  }

  /** SET with a lifetime. */
  function SetFor<K, V>(t: Table<K, V>, k: K, v: V, now: nat, ttl: nat): Table<K, V> {
    t[k := Entry(v, Some(now + ttl))]
  }

  function Del<K, V>(t: Table<K, V>, k: K): Table<K, V> {
    t - {k}
  }
}
