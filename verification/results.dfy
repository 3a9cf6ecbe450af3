/** Optional values and success-or-error results, as used by the identifier
    test of a path (`Option`) and by tree extraction (`Result`). */
module Results {

  datatype Option<+T> = None | Some(value: T)

  datatype Result<+T, +E> = Ok(value: T) | Err(error: E)
}
