/** The funding-submission handler (openChannel): record the form, run the
    policy checks, and for an admissible request ask the daemon to open the
    channel and read the first update of the open stream. */
module Opener {
  import opened Wrappers
  import opened Lnrpc
  import opened ChanErrors
  import opened Policy
  import opened HomeState

  /** The open request for a request that passed validation: the decoded key,
      the channel size and the push amount, nothing else. */
  function OpenRequestFor(r: FundingRequest): (req: OpenChannelRequest)
    requires r.nodePub.Some? && r.chanSize.Some? && r.pushAmt.Some?
  {
    OpenChannelRequest(r.nodePub.value, r.chanSize.value, r.pushAmt.value)
  }

  /** The first open-stream update as written: the update is taken to be the
      pending notice without checking, and the hash conversion's error is
      ignored, so another kind of update or a txid of the wrong length
      panics. */
  function OpenStreamAsWritten(resp: OpenResponse): (run: Run<Option<Hash>>)
  {
    match resp
    case OpenCallFailed => Returns(None)
    case OpenRecvFailed => Returns(None)
    case OpenFirstUpdate(ChanPending(txid)) =>
      (match NewHash(txid)
       case None => Panics
       case Some(h) => Returns(Some(h)))
    case OpenFirstUpdate(OtherOpenUpdate) => Panics
  }

  /** The first open-stream update: the funding hash when it is the pending
      notice with a well-formed txid, no hash (an open failure) otherwise. */
  function OpenStream(resp: OpenResponse): (txid: Option<Hash>)
  {
    match resp
    case OpenCallFailed => None
    case OpenRecvFailed => None
    case OpenFirstUpdate(ChanPending(txid)) => NewHash(txid)
    case OpenFirstUpdate(OtherOpenUpdate) => None
  }

  /** Finding: as written, a first update that is not the pending notice, or
      one whose txid is not 32 bytes, panics; on every other response the
      source and the corrected step agree. */
  lemma OpenAsWrittenPanicsOnUnexpectedUpdate(resp: OpenResponse)
    ensures OpenStreamAsWritten(resp).Panics? <==>
              resp.OpenFirstUpdate? && (resp.update.OtherOpenUpdate? || |resp.update.txid| != HashSize)
    ensures !OpenStreamAsWritten(resp).Panics? ==> OpenStreamAsWritten(resp) == Returns(OpenStream(resp))
  {}

  /** The opener succeeds exactly on a pending notice with a well-formed txid;
      a failed call, a failed read or any other update is an open failure. */
  lemma OpenStreamSucceedsIffPending(resp: OpenResponse)
    ensures OpenStream(resp).Some? <==>
              resp.OpenFirstUpdate? && resp.update.ChanPending? && |resp.update.txid| == HashSize
    ensures OpenStream(resp).Some? ==> OpenStream(resp).value == resp.update.txid
  {}

  /** What a submission comes to: a rejection with its outcome, or a funded
      channel with the request sent and the funding hash. */
  datatype Submission = Rejected(error: ChanCreationError) | Funded(request: OpenChannelRequest, txid: Hash)

  function Submit(lnd: Lnd, r: FundingRequest): (outcome: Submission)
  {
    if !Admissible(lnd, r) then Rejected(Validate(lnd, r))
    else
      match OpenStream(lnd.openChannel(OpenRequestFor(r)))
      case None => Rejected(ChannelOpenFail)
      case Some(h) => Funded(OpenRequestFor(r), h)
  }

  /** A channel is funded only for an admissible request whose open stream
      starts with the pending notice; the request carries exactly the
      decoded key, the size and the push amount. */
  lemma FundedOnlyWhenAdmissible(lnd: Lnd, r: FundingRequest)
    ensures Submit(lnd, r).Funded? <==>
              Validate(lnd, r) == NoError && OpenStream(lnd.openChannel(OpenRequestFor(r))).Some?
    ensures Submit(lnd, r).Funded? ==>
              Submit(lnd, r).request == OpenChannelRequest(r.nodePub.value, r.chanSize.value, r.pushAmt.value)
  {
    ValidateAcceptsIffAdmissible(lnd, r);
  }

  /** Every rejection is either the validator's outcome, or ChannelOpenFail
      after validation passed. */
  lemma RejectionIsValidatorOrOpenFailure(lnd: Lnd, r: FundingRequest)
    ensures Submit(lnd, r).Rejected? ==>
              (Submit(lnd, r).error == Validate(lnd, r) && Validate(lnd, r) != NoError) ||
              (Submit(lnd, r).error == ChannelOpenFail && Validate(lnd, r) == NoError)
  {
    ValidateAcceptsIffAdmissible(lnd, r);
  }

  /** The page shows a txid exactly when a channel was funded: the rendered
      hash is never empty. */
  lemma FundedTxidShown(h: Hash)
    ensures HashString(h) != ""
  {}

  const NodeField: string := "Node"
  const AmtField: string := "Amt"
  const BalField: string := "Bal"

  /** openChannel: records the form, runs the checks in order with an early
      return at the first failure, and otherwise opens the channel. It
      returns the lookups it made and the open request it sent, if any. */
  method OpenChannel(lnd: Lnd, home: HomePageContext, r: FundingRequest)
      returns (consulted: seq<Rpc>, sent: Option<OpenChannelRequest>)
    modifies home
    ensures home.formFields == old(home.formFields)[NodeField := r.node][AmtField := r.amt][BalField := r.bal]
    ensures consulted == Consulted(lnd, r)
    ensures sent == (if Validate(lnd, r) == NoError then Some(OpenRequestFor(r)) else None)
    ensures Submit(lnd, r).Rejected? ==>
              home.submissionError == Submit(lnd, r).error && home.channelTxid == old(home.channelTxid)
    ensures Submit(lnd, r).Funded? ==>
              home.submissionError == old(home.submissionError) && home.channelTxid == HashString(Submit(lnd, r).txid)
    ensures home.gitCommitHash == old(home.gitCommitHash) && home.nodeAddr == old(home.nodeAddr)
    ensures home.numConfs == old(home.numConfs) && home.network == old(home.network)
    ensures home.activeChannels == old(home.activeChannels) && home.pendingChannels == old(home.pendingChannels)
  {
    ValidateAcceptsIffAdmissible(lnd, r);
    home.formFields := home.formFields[NodeField := r.node][AmtField := r.amt][BalField := r.bal];
    consulted, sent := [], None;

    if r.nodePub.None? {
      home.submissionError := InvalidAddress;
      return;
    }

    consulted := consulted + [ListChannelsRpc];
    var haveChannel := ChannelExistsWithNode(lnd, r.node);
    if haveChannel {
      home.submissionError := HaveChannel;
      return;
    }

    consulted := consulted + [PendingChannelsRpc];
    var havePending := PendingChannelExistsWithNode(lnd, r.node);
    if havePending {
      home.submissionError := HavePendingChannel;
      return;
    }

    consulted := consulted + [ListPeersRpc];
    var connected := ConnectedToNode(lnd, r.node);
    if !connected {
      home.submissionError := NotConnected;
      return;
    }

    if r.chanSize.None? {
      home.submissionError := ChanAmountNotNumber;
      return;
    }
    if r.pushAmt.None? {
      home.submissionError := PushIncorrect;
      return;
    }

    var chanSize, pushAmt := r.chanSize.value, r.pushAmt.value;
    if chanSize < MinChannelSize {
      home.submissionError := ChannelTooSmall;
      return;
    } else if chanSize > MaxChannelSize {
      home.submissionError := ChannelTooLarge;
      return;
    } else if pushAmt >= chanSize {
      home.submissionError := PushIncorrect;
      return;
    }

    var request := OpenChannelRequest(r.nodePub.value, chanSize, pushAmt);
    sent := Some(request);
    var funding := OpenStream(lnd.openChannel(request));
    if funding.None? {
      home.submissionError := ChannelOpenFail;
      return;
    }
    home.channelTxid := HashString(funding.value);
  }
}
