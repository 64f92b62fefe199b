/** An optional value: used for an answer slot that may be unset and for a round result that may be absent. */
module Options {
  datatype Option<+T> = None | Some(value: T)
}
