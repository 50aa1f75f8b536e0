/** Values with a deadline, shared by every TTL store in the service.

    Instants and durations are integers counting nanoseconds, as in Go's `time`
    package; no store depends on the epoch. */
module Ttl {

  datatype Option<+T> = None | Some(value: T)

  const SECOND: int := 1_000_000_000
  const MILLISECOND: int := 1_000_000
  const MINUTE: int := 60_000_000_000
  const HOUR: int := 3_600_000_000_000

  /** A stored value; `expiresAt == None` is Go's zero time: the value never expires. */
  datatype Entry<+D> = Entry(data: D, expiresAt: Option<int>) {

    /** An entry dies at its deadline, not after it. */
    predicate Live(now: int) {
      expiresAt.None? || now < expiresAt.value
    }
  }

  /** The entry written at reading `now` for a time to live of `ttl`. */
  function Stamp<D>(data: D, ttl: int, now: int): Entry<D> {
    Entry(data, if ttl > 0 then Some(now + ttl) else None)
  }

  /** What a store that never forgets answers at instant `now`. */
  function Lookup<K, D>(table: map<K, Entry<D>>, key: K, now: int): Option<D> {
    if key in table && table[key].Live(now) then Some(table[key].data) else None
  }

  /** The table without its dead entries. */
  function Sweep<K, D>(table: map<K, Entry<D>>, now: int): map<K, Entry<D>> {
    map k | k in table && table[k].Live(now) :: table[k]
  }
}
