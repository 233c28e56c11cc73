/** Outcomes of operations that may have none. */
module Results {
  datatype Option<+T> = None | Some(value: T)

  datatype Result<+T> = Ok(value: T) | Error(reason: string)
}
