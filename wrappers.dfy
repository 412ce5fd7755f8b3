/** Python's `None`-or-value, used for unset environment variables and for the
    schedule that `get_email_schedule` may fail to produce. */
module Wrappers {
  datatype Option<T> = None | Some(value: T)
}
