/** Outcomes shared by the modules: a value or nothing, a value or the reason there is none. */
module Results {
  datatype Option<+T> = None | Some(value: T)

  datatype Result<+T, +E> = Ok(value: T) | Err(error: E)
}
