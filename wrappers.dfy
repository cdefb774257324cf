/** A value that may be absent: a DOM reference that is not attached yet, an
    environment variable that is not set, a browser global that does not exist
    on the server. */
module Wrappers {

  datatype Option<+T> = None | Some(value: T)
}
