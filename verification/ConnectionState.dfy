module ConnectionStates {
  /** The values of state_ in TcpConnection. */
  datatype State = Disconnected | Connecting | Connected | Disconnecting
}
