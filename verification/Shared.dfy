/** Types that several components speak about. */
module Shared {

  datatype Option<+T> = None | Some(value: T)

  datatype ReplicaId = ReplicaId(name: string)

  /** The kinds of stream frame; the last two end a stream. */
  datatype Kind = Token | ToolCall | Cancelled | Final {
    predicate Terminal() {
      Cancelled? || Final?
    }
  }
}
