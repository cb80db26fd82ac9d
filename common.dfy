/** Small building blocks shared by every module: the optional value that
    stands for Java's `null` / JavaScript's `null`/`undefined`, and two
    arithmetic helpers used by the HP rules. */
module Common {

  /** A value that may be absent (a Java reference that may be `null`). */
  datatype Option<T> = None | Some(value: T)

  function Max(a: int, b: int): int
  {
    if a >= b then a else b
  }

  function Abs(x: int): nat
  {
    if x < 0 then -x else x
  }

  /** Java's `Map.getOrDefault(key, default)` for an integer-valued map;
      an absent (`null`) key is never present in a map read from the
      application properties, so it yields the default. */
  function GetOrDefault(m: map<string, int>, key: Option<string>, default: int): int
  {
    if key.Some? && key.value in m then m[key.value] else default
  }
}
