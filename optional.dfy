/** The absent-or-present value that the coordinator uses for `None`-able
    Python attributes (`max_value`, `min_value`, `_reset_listener`). */
module Optional {

  datatype Option<+T> = None | Some(value: T)
}
