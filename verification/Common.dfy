/** Small value types shared by every module. */
module Common {
  datatype Option<+T> = None | Some(value: T)

  /** The largest index is the newest entry: what a sequence used as a log ends with. */
  function Last<T>(s: seq<T>): T
    requires s != []
  {
    s[|s| - 1]
  }

  function Min(a: int, b: int): int { if a <= b then a else b }

  function Max(a: int, b: int): int { if a >= b then a else b }
}
