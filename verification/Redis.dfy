/** Redis as the services use it: keys with a value and an optional expiry, read
    against a clock in milliseconds. */
module Redis {
  import opened Common

  datatype Entry<+V> = Entry(value: V, expiresAt: Option<nat>)

  predicate Live<V>(e: Entry<V>, now: nat) {
    e.expiresAt.None? || now < e.expiresAt.value
  }

  /** GET */
  function Lookup<K, V>(m: map<K, Entry<V>>, k: K, now: nat): Option<V> {
    if k in m && Live(m[k], now) then Some(m[k].value) else None
  }

  /** SET without expiry */
  function Forever<V>(v: V): Entry<V> {
    Entry(v, None)
  }

  /** SETEX */
  function For<V>(v: V, ttlSeconds: nat, now: nat): Entry<V> {
    Entry(v, Some(now + 1000 * ttlSeconds))
  }

  /** The number under a counter key; a missing or expired key counts as 0. */
  function Count(e: Option<Entry<nat>>, now: nat): nat {
    if e.Some? && Live(e.value, now) then e.value.value else 0
  }

  /** INCR keeps the expiry of a live key; a missing one is created without expiry. */
  function Incremented(e: Option<Entry<nat>>, now: nat): Entry<nat> {
    if e.Some? && Live(e.value, now) then Entry(e.value.value + 1, e.value.expiresAt) else Forever(1)
  }
}
