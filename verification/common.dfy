/** Small value types shared by both room directories. */
module Common {

  /** A value that may be missing (`null` / `undefined` in the source). */
  datatype Option<T> = None | Some(value: T)

  /** The role announced to a joining user in `joinSuccess`: 'player1' or 'player2'. */
  datatype Role = Player1 | Player2
}
