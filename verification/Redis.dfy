/** A Redis keyspace with expiry, as one map from key strings to entries. Time is in nanoseconds. */
module RedisModel {
  import opened Domain

  const SECOND: nat := 1_000_000_000
  const MINUTE: nat := 60_000_000_000

  /** What a key holds: a counter, an encoded result, or bytes that do not decode. */
  datatype Value = Counter(n: nat) | Payload(result: Result) | Garbage

  datatype Entry = Entry(value: Value, expires: Option<nat>)

  type Keyspace = map<string, Entry>

  /** Keys past their expiry are gone. */
  predicate Live(m: Keyspace, key: string, now: nat) {
    key in m && (m[key].expires.Some? ==> now < m[key].expires.value)
  }

  /** INCR: a missing key starts at 1 without expiry, an existing one keeps its expiry, and a value
      that is not a number is an error. */
  function Incr(m: Keyspace, key: string, now: nat): Option<(Keyspace, nat)> {
    if !Live(m, key, now) then Some((m[key := Entry(Counter(1), None)], 1))
    else match m[key].value
      case Counter(n) => Some((m[key := m[key].(value := Counter(n + 1))], n + 1))
      case _ => None
  }

  function Expire(m: Keyspace, key: string, now: nat, ttl: nat): Keyspace {
    if Live(m, key, now) then m[key := m[key].(expires := Some(now + ttl))] else m
  }

  function Get(m: Keyspace, key: string, now: nat): Option<Value> {
    if Live(m, key, now) then Some(m[key].value) else None
  }

  function SetEx(m: Keyspace, key: string, v: Value, now: nat, ttl: nat): Keyspace {
    m[key := Entry(v, Some(now + ttl))]
  }

  function Del(m: Keyspace, key: string): Keyspace { m - {key} }
}
