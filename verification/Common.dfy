/** Shared value types. */
module Common {
  datatype Option<+T> = None | Some(value: T)

  /** A table that counts events per key; a key never seen counts zero. */
  type Counter = map<string, nat>

  function Count(c: Counter, key: string): nat {
    if key in c then c[key] else 0
  }

  function Bump(c: Counter, key: string): Counter {
    c[key := Count(c, key) + 1]
  }
}
