/** Values that several modules share. */
module Common {
  datatype Option<T> = None | Some(value: T)

  /** TcpConnectionff::State. */
  datatype ConnState = Connecting | Connected | Disconnecting | Disconnected

  /** Whether a poller knows a channel: kNew, kAdded, kDeleted. */
  datatype Index = New | Added | Deleted
}
