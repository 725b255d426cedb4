/** Shared value types. Times are integers in milliseconds. */
module Common {
  datatype Option<+T> = None | Some(value: T)

  type Time = int

  const SECOND: Time := 1000

  function Min(a: nat, b: nat): nat { if a <= b then a else b }
}
