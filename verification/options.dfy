/** Optional values: a form field that was not posted, a session key that is
    absent, a flash message that was not set. */
module Options {

  datatype Option<+T> = None | Some(value: T)

}
