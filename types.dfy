/** Identifiers and platform records shared by every stage of the relay. */
module Types {

  /** Discord snowflakes are unsigned 64-bit integers. */
  const U64_BOUND: nat := 0x1_0000_0000_0000_0000

  type U64 = n: nat | n < U64_BOUND

  type ChannelId = U64
  type UserId = U64

  datatype Option<T> = None | Some(value: T)

  datatype Result<T, E> = Ok(value: T) | Err(error: E)

  /** A chat message as the handler sees it: who wrote it and its text. */
  datatype Message = Message(author: UserId, content: string)

  /** An active thread of the guild; `parentId` is the channel the thread hangs under. */
  datatype Thread = Thread(id: ChannelId, parentId: Option<ChannelId>)
}
