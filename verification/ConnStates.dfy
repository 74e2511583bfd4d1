/** TCPConnection::state_, for the two views of a connection: its life and its data. */
module ConnStates {

  datatype ConnState = Connecting | Connected | Disconnecting | Disconnected

}
