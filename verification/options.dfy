/** The optional values the game state uses wherever the original uses `null`. */
module Options {

  /** `None` stands for a JavaScript `null`; `Some(v)` for a present value. */
  datatype Option<+T> = None | Some(value: T)
}
