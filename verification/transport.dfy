/** What the model keeps of the WebSocket transport: a socket's ready state.
    Frames themselves are modelled by the modules that send and receive
    them. */
module Transport {
  /** A WebSocket's `readyState`. */
  datatype ReadyState = Connecting | Open | Closing | Closed
}
