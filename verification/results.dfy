/** Failure-carrying values shared by the codec and the driver. */
module Results {

  /** A value that may be absent: a reply that never arrived, a frame that does not decode. */
  datatype Option<+T> = None | Some(value: T)

  /** The ways a driver call can fail instead of returning a reply. */
  datatype Error =
    | InvalidArgument  // the caller's data list is shorter than the command's layout (IndexError)
    | NotReady         // no bus has been attached yet (the bus attribute is still None)
    | TransportError   // the bus refused to transmit the frame

  datatype Result<+T> = Ok(value: T) | Err(error: Error)
}
