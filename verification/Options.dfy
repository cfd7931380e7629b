/** An optional value, used wherever the source keeps an `Option` or a lookup may miss. */
module Options {

  datatype Option<+T> = None | Some(value: T)
}
