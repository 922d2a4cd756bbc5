/** The part of Redis every script of the service relies on: keys that carry an
    expiry instant, read against one shared server clock. A key is visible at
    `now` exactly while `now` is before its expiry. Instants are microseconds,
    the resolution of the server's TIME command. */
module Keyspace {

  const SECOND: int := 1_000_000
  const DAY: int := 86400 * SECOND

  datatype OpId = OpId(name: string)
  datatype IdemKey = IdemKey(name: string)
  datatype Token = Token(hex: string)
  datatype InstanceId = InstanceId(name: string)

  datatype Option<+T> = None | Some(value: T)

  function Max(a: int, b: int): int { if a < b then b else a }

  function Min(a: int, b: int): int { if a < b then a else b }

  datatype Entry<+T> = Entry(value: T, expiresAt: int)

  /** GET: the value of a key that exists and has not expired. */
  function Get<K, V>(m: map<K, Entry<V>>, k: K, now: int): Option<V> {
    if k in m && now < m[k].expiresAt then Some(m[k].value) else None
  }

  /** The keys a reader can see at `now`, with their values. */
  function Visible<K, V>(m: map<K, Entry<V>>, now: int): map<K, V> {
    map k | k in m && now < m[k].expiresAt :: m[k].value
  }
}
