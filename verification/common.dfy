/** Small datatypes shared by the relay server model and the engine model. */
module Common {

  /** A value that may be absent; stands for JavaScript's `null`/`undefined`. */
  datatype Option<+T> = None | Some(value: T)

  /** The two sides of a chess board, as the clients and the board API spell them
      ('white' and 'black'). */
  datatype Color = White | Black
}
