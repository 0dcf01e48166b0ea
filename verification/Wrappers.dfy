/** The two result shapes shared by every module. */
module Wrappers {
  datatype Option<+T> = None | Some(value: T)

  /** `Throws` stands for an exception that leaves the function. */
  datatype Outcome<+T> = Returns(value: T) | Throws

  function Min(x: int, y: int): int { if x < y then x else y }

  function Max(x: int, y: int): int { if x < y then y else x }
}
