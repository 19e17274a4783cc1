/**
  * The expiring key-value cache (`node-cache`) that both the failed-attempt
  * tracker and the captcha store keep their state in, as a value: a map from
  * string key to the stored value and its expiry instant. Time is an explicit
  * argument in milliseconds; an entry is visible only while `now < expiresAt`,
  * whether or not it has been swept out yet.
  */
module TtlCache {
  import opened Common

  datatype Entry<V> = Entry(value: V, expiresAt: int)

  type Store<V> = map<string, Entry<V>>

  /** `cache.get(key)`: the value while the entry is live, otherwise absent. */
  function Get<V>(s: Store<V>, key: string, now: int): Option<V> {
    if key in s && now < s[key].expiresAt then Some(s[key].value) else None
  }

  /** `cache.set(key, value)` with the cache's standard TTL: the entry and its
      expiry are replaced. */
  function Set<V>(s: Store<V>, key: string, value: V, ttlMs: nat, now: int): Store<V> {
    s[key := Entry(value, now + ttlMs)]
  }

  /** `cache.del(key)`. */
  function Del<V>(s: Store<V>, key: string): Store<V> {
    s - {key}
  }

  /** A value that was just set is read back until its TTL has run out, and
      is absent from then on. */
  lemma GetAfterSet<V>(s: Store<V>, key: string, value: V, ttlMs: nat, t: int, now: int)
    ensures t <= now < t + ttlMs ==> Get(Set(s, key, value, ttlMs, t), key, now) == Some(value)
    ensures now >= t + ttlMs ==> Get(Set(s, key, value, ttlMs, t), key, now) == None
  {
  }

  /** Setting or deleting one key leaves every other key's reading alone. */
  lemma OtherKeysUnaffected<V>(s: Store<V>, key: string, other: string, value: V, ttlMs: nat, t: int, now: int)
    requires other != key
    ensures Get(Set(s, key, value, ttlMs, t), other, now) == Get(s, other, now)
    ensures Get(Del(s, key), other, now) == Get(s, other, now)
  {
  }

  /** An entry that is not visible at some instant is not visible later either. */
  lemma AbsentStaysAbsent<V>(s: Store<V>, key: string, now: int, later: int)
    requires Get(s, key, now) == None && now <= later
    ensures Get(s, key, later) == None
  {
  }
}
