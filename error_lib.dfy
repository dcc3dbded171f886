/** error::Error from the external error library, as the headers and tests
    use it: a record that carries a human-readable message. */
module ErrorLib {

  datatype Error = Error(message: string)
}
