/** Types shared by every part of the model: optional values and the identities
    the chat and room services pass around. */
module Common {

  /** A value that may be absent: a missing request field, a nullable date, a
      failed lookup. */
  datatype Option<+T> = None | Some(value: T)

  /** A user's identity (a Mongo ObjectId, kept as its string form). */
  type UserId = string

  /** The id socket.io gives to one live connection. */
  type SocketId = string

  /** The `_id` the database assigns to a stored message. */
  type MsgId = nat

  /** A point in time, in milliseconds, as `Date.now()` gives it. */
  type Time = int
}
