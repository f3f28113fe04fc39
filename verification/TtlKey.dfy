/** One Redis key with a time to live. Every command is one atomic step. */
module TtlKey {
  import opened Options

  datatype Key = Absent | Held(token: nat, until: int)

  predicate Live(key: Key, now: int) {
    key.Held? && now < key.until
  }

  /** `GET` */
  function Get(key: Key, now: int): Option<nat> {
    if Live(key, now) then Some(key.token) else None
  }

  /** `SET key token EX ttl` */
  function SetEx(token: nat, ttl: int, now: int): Key {
    Held(token, now + ttl)
  }

  /** `SET key token NX EX ttl`: whether it took effect, and the key afterwards. */
  function SetNxEx(key: Key, token: nat, ttl: int, now: int): (bool, Key) {
    if Live(key, now) then (false, key) else (true, Held(token, now + ttl))
  }
}
