/** Small shared datatypes. */
module Common {
  datatype Option<+T> = None | Some(value: T)

  datatype Result<+T, +E> = Ok(value: T) | Err(error: E)

  function Max(a: int, b: int): int {
    if a >= b then a else b
  }

  function Min(a: int, b: int): int {
    if a <= b then a else b
  }

  /** How one statement ends: applied, not applied, or applied although the caller is told it failed. */
  datatype Outcome = Succeeds | Fails | LandsButErrs

  predicate Lands(o: Outcome) {
    !o.Fails?
  }
}
