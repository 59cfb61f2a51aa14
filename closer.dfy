/** closeChannel: ask the daemon to close a channel and read the first update
    of the close stream, which must announce the pending close and carry the
    closing transaction's hash. */
module Closer {
  import opened Wrappers
  import opened Lnrpc

  datatype CloseError = StartError | StreamError | NotClosePending | BadClosingHash

  /** The first update's outcome, once a stream exists. */
  function FirstCloseUpdate(update: CloseStatusUpdate): (closed: Result<Hash, CloseError>)
  {
    match update
    case ClosePending(txid) =>
      (match NewHash(txid)
       case None => Failure(BadClosingHash)
       case Some(h) => Success(h))
    case OtherCloseUpdate => Failure(NotClosePending)
  }

  /** closeChannel as written: a failed CloseChannel call is only logged, and
      `Recv` is then called on the absent stream, which panics. */
  function CloseChannelAsWritten(resp: CloseResponse): (run: Run<Result<Hash, CloseError>>)
  {
    match resp
    case CloseCallFailed => Panics
    case CloseRecvFailed => Returns(Failure(StreamError))
    case CloseFirstUpdate(update) => Returns(FirstCloseUpdate(update))
  }

  /** closeChannel with the failed call reported as an error. */
  function CloseChannel(resp: CloseResponse): (closed: Result<Hash, CloseError>)
  {
    match resp
    case CloseCallFailed => Failure(StartError)
    case CloseRecvFailed => Failure(StreamError)
    case CloseFirstUpdate(update) => FirstCloseUpdate(update)
  }

  /** A close succeeds exactly when the first update is the pending-close
      notice with a well-formed hash, and it returns that hash. */
  lemma CloseSucceedsIffPending(resp: CloseResponse)
    ensures CloseChannel(resp).Success? <==>
              resp.CloseFirstUpdate? && resp.update.ClosePending? && |resp.update.txid| == HashSize
    ensures CloseChannel(resp).Success? ==> CloseChannel(resp).value == resp.update.txid
  {}

  /** Finding: as written, a failed call panics; on every other response the
      source and the corrected closeChannel agree. */
  lemma CloseAsWrittenPanicsOnFailedCall(resp: CloseResponse)
    ensures CloseChannelAsWritten(resp).Panics? <==> resp == CloseCallFailed
    ensures resp != CloseCallFailed ==> CloseChannelAsWritten(resp) == Returns(CloseChannel(resp))
  {}
}
