/** Optional values and error outcomes shared by the whole model. A Go nil
    pointer becomes None; a Go panic becomes an Err. */
module Maybe {

  datatype Option<+T> = None | Some(value: T)

  datatype Result<+T, +E> = Ok(value: T) | Err(error: E)
}
