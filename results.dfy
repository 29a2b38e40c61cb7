/** Option and Result: the tagged outcomes that stand in for Go's nil pointers and
    for the `log.Fatalf` exits of the program. */
module Results {

  datatype Option<+T> = None | Some(value: T)

  datatype Result<+T, +E> = Ok(value: T) | Err(error: E)
}
