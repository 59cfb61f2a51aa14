/** The funding policy: the one-channel-per-peer lookups against the daemon
    and the ordered chain of checks a funding request must pass before the
    faucet asks the daemon to open a channel. */
module Policy {
  import opened Wrappers
  import opened GoLib
  import opened Lnrpc
  import opened ChanErrors

  /** A funding request as the form delivers it. Turning the text into values
      happens outside this model: `nodePub` is the hex decoding of `node`
      (`None` when it does not decode), `chanSize` and `pushAmt` are `amt` and
      `bal` converted to atoms (`None` when the text is not a number). */
  datatype FundingRequest = FundingRequest(
    node: string, amt: string, bal: string,
    nodePub: Option<seq<byte>>,
    chanSize: Option<int>,
    pushAmt: Option<int>)

  /** Some open channel's remote key is exactly `nodePub`; false when the
      channel list could not be fetched. */
  predicate ChannelExists(lnd: Lnd, nodePub: string)
  {
    lnd.listChannels.Some? &&
    exists i :: 0 <= i < |lnd.listChannels.value| && lnd.listChannels.value[i].remotePubkey == nodePub
  }

  /** Some pending channel's remote key is exactly `nodePub`; false when the
      pending list could not be fetched. */
  predicate PendingChannelExists(lnd: Lnd, nodePub: string)
  {
    lnd.pendingChannels.Some? &&
    exists i :: 0 <= i < |lnd.pendingChannels.value| && lnd.pendingChannels.value[i].remoteNodePub == nodePub
  }

  /** Some connected peer's key is exactly `nodePub`; false when the peer
      list could not be fetched. */
  predicate Connected(lnd: Lnd, nodePub: string)
  {
    lnd.listPeers.Some? &&
    exists i :: 0 <= i < |lnd.listPeers.value| && lnd.listPeers.value[i].pubKey == nodePub
  }

  method ChannelExistsWithNode(lnd: Lnd, nodePub: string) returns (found: bool)
    ensures found <==> ChannelExists(lnd, nodePub)
  {
    if lnd.listChannels.None? {
      return false;
    }
    var channels := lnd.listChannels.value;
    for i := 0 to |channels|
      invariant forall j :: 0 <= j < i ==> channels[j].remotePubkey != nodePub
    {
      if channels[i].remotePubkey == nodePub {
        return true;
      }
    }
    return false;
  }

  method PendingChannelExistsWithNode(lnd: Lnd, nodePub: string) returns (found: bool)
    ensures found <==> PendingChannelExists(lnd, nodePub)
  {
    if lnd.pendingChannels.None? {
      return false;
    }
    var pending := lnd.pendingChannels.value;
    for i := 0 to |pending|
      invariant forall j :: 0 <= j < i ==> pending[j].remoteNodePub != nodePub
    {
      if pending[i].remoteNodePub == nodePub {
        return true;
      }
    }
    return false;
  }

  method ConnectedToNode(lnd: Lnd, nodePub: string) returns (found: bool)
    ensures found <==> Connected(lnd, nodePub)
  {
    if lnd.listPeers.None? {
      return false;
    }
    var peers := lnd.listPeers.value;
    for i := 0 to |peers|
      invariant forall j :: 0 <= j < i ==> peers[j].pubKey != nodePub
    {
      if peers[i].pubKey == nodePub {
        return true;
      }
    }
    return false;
  }

  /** The checks of a funding request, in the order they run; the first that
      fails decides the outcome. */
  function Validate(lnd: Lnd, r: FundingRequest): (outcome: ChanCreationError)
  {
    if r.nodePub.None? then InvalidAddress
    else if ChannelExists(lnd, r.node) then HaveChannel
    else if PendingChannelExists(lnd, r.node) then HavePendingChannel
    else if !Connected(lnd, r.node) then NotConnected
    else if r.chanSize.None? then ChanAmountNotNumber
    else if r.pushAmt.None? then PushIncorrect
    else if r.chanSize.value < MinChannelSize then ChannelTooSmall
    else if r.chanSize.value > MaxChannelSize then ChannelTooLarge
    else if r.pushAmt.value >= r.chanSize.value then PushIncorrect
    else NoError
  }

  /** The peer-side checks: a decodable key, no channel and no pending
      channel with the peer, and the peer connected. */
  predicate PeerChecksPass(lnd: Lnd, r: FundingRequest)
  {
    r.nodePub.Some? && !ChannelExists(lnd, r.node) && !PendingChannelExists(lnd, r.node) && Connected(lnd, r.node)
  }

  /** The funding policy as one statement: the peer checks pass, both amounts
      are numbers, the size lies in [MinChannelSize, MaxChannelSize] and the
      push is below the size. */
  predicate Admissible(lnd: Lnd, r: FundingRequest)
  {
    && PeerChecksPass(lnd, r)
    && r.chanSize.Some? && r.pushAmt.Some?
    && MinChannelSize <= r.chanSize.value <= MaxChannelSize
    && r.pushAmt.value < r.chanSize.value
  }

  /** A request passes every check exactly when it meets the policy. */
  lemma ValidateAcceptsIffAdmissible(lnd: Lnd, r: FundingRequest)
    ensures Validate(lnd, r) == NoError <==> Admissible(lnd, r)
  {}

  /** The validator only ever reports one of its own eight rejections or
      NoError; ChannelOpenFail belongs to the open step. */
  lemma ValidateOutcomes(lnd: Lnd, r: FundingRequest)
    ensures Validate(lnd, r) != ChannelOpenFail
    ensures Validate(lnd, r) <= HavePendingChannel
  {}

  /** A key that does not decode is reported whatever the daemon would have
      answered: no lookup is consulted. */
  lemma BadKeyDecidesAlone(lnd: Lnd, other: Lnd, r: FundingRequest)
    requires r.nodePub.None?
    ensures Validate(lnd, r) == InvalidAddress
    ensures Validate(lnd, r) == Validate(other, r)
  {}

  /** An existing channel is reported even if a pending channel also exists
      or the peer is disconnected: with the same channel list, any pending
      list and any peer list give the same outcome. */
  lemma ExistingChannelWins(lnd: Lnd, other: Lnd, r: FundingRequest)
    requires r.nodePub.Some? && ChannelExists(lnd, r.node)
    requires other.listChannels == lnd.listChannels
    ensures Validate(lnd, r) == HaveChannel
    ensures Validate(other, r) == HaveChannel
  {}

  /** A pending channel is reported before connectivity is looked at. */
  lemma PendingChannelBeforeConnectivity(lnd: Lnd, r: FundingRequest)
    ensures Validate(lnd, r) == HavePendingChannel <==>
              r.nodePub.Some? && !ChannelExists(lnd, r.node) && PendingChannelExists(lnd, r.node)
    ensures Validate(lnd, r) == NotConnected <==>
              r.nodePub.Some? && !ChannelExists(lnd, r.node) && !PendingChannelExists(lnd, r.node) && !Connected(lnd, r.node)
  {}

  /** The amounts are looked at only once every peer check has passed; the
      channel size is parsed before the push amount. */
  lemma AmountsCheckedAfterPeer(lnd: Lnd, r: FundingRequest)
    ensures Validate(lnd, r) == ChanAmountNotNumber <==> PeerChecksPass(lnd, r) && r.chanSize.None?
    ensures Validate(lnd, r) == PushIncorrect <==>
              PeerChecksPass(lnd, r) && r.chanSize.Some? &&
              (r.pushAmt.None? ||
               (MinChannelSize <= r.chanSize.value <= MaxChannelSize && r.pushAmt.value >= r.chanSize.value))
  {}

  /** Both ends of the size range are allowed: below the minimum is too small,
      above the maximum too large, and anything in between passes on to the
      push check. */
  lemma SizeBounds(lnd: Lnd, r: FundingRequest)
    requires PeerChecksPass(lnd, r) && r.chanSize.Some? && r.pushAmt.Some?
    ensures Validate(lnd, r) == ChannelTooSmall <==> r.chanSize.value < MinChannelSize
    ensures Validate(lnd, r) == ChannelTooLarge <==> r.chanSize.value > MaxChannelSize
    ensures MinChannelSize <= r.chanSize.value <= MaxChannelSize ==>
              Validate(lnd, r) == PushIncorrect || Validate(lnd, r) == NoError
  {}

  /** Within the size range the push amount decides: at or above the size it
      is rejected, below it the request passes. */
  lemma PushBound(lnd: Lnd, r: FundingRequest)
    requires PeerChecksPass(lnd, r) && r.chanSize.Some? && r.pushAmt.Some?
    requires MinChannelSize <= r.chanSize.value <= MaxChannelSize
    ensures Validate(lnd, r) == PushIncorrect <==> r.pushAmt.value >= r.chanSize.value
    ensures Validate(lnd, r) == NoError <==> r.pushAmt.value < r.chanSize.value
  {}

  /** The daemon lookups the validator can make, in the order it makes them. */
  datatype Rpc = ListChannelsRpc | PendingChannelsRpc | ListPeersRpc

  const LookupOrder: seq<Rpc> := [ListChannelsRpc, PendingChannelsRpc, ListPeersRpc]

  /** The lookups a funding request leads to: each is made only once the
      checks before it have passed. */
  function Consulted(lnd: Lnd, r: FundingRequest): (calls: seq<Rpc>)
  {
    if r.nodePub.None? then []
    else if ChannelExists(lnd, r.node) then LookupOrder[..1]
    else if PendingChannelExists(lnd, r.node) then LookupOrder[..2]
    else LookupOrder
  }

  /** The lookups follow the handler's order; none is made for a key that
      does not decode, and connectivity is looked up exactly when the outcome
      is decided by it or by a later check. */
  lemma ConsultedFollowsCheckOrder(lnd: Lnd, r: FundingRequest)
    ensures Consulted(lnd, r) <= LookupOrder
    ensures Consulted(lnd, r) == [] <==> Validate(lnd, r) == InvalidAddress
    ensures PendingChannelsRpc in Consulted(lnd, r) <==>
              Validate(lnd, r) != InvalidAddress && Validate(lnd, r) != HaveChannel
    ensures ListPeersRpc in Consulted(lnd, r) <==>
              Validate(lnd, r) != InvalidAddress && Validate(lnd, r) != HaveChannel &&
              Validate(lnd, r) != HavePendingChannel
  {
    assert LookupOrder[..1] == [ListChannelsRpc];
    assert LookupOrder[..2] == [ListChannelsRpc, PendingChannelsRpc];
  }

  /** Three sample requests, in atoms (one coin is 10^8 atoms): a channel of
      49999 atoms is too small, 10 coins pushed on a 10-coin channel is
      rejected, 1 coin pushed on a 5-coin channel passes. */
  lemma WorkedExamples(lnd: Lnd, r: FundingRequest)
    requires PeerChecksPass(lnd, r) && r.chanSize.Some? && r.pushAmt.Some?
    ensures r.chanSize.value == 49999 ==> Validate(lnd, r) == ChannelTooSmall
    ensures r.chanSize.value == 10 * 100_000_000 && r.pushAmt.value == 10 * 100_000_000 ==>
              Validate(lnd, r) == PushIncorrect
    ensures r.chanSize.value == 5 * 100_000_000 && r.pushAmt.value == 100_000_000 ==>
              Validate(lnd, r) == NoError
  {}
}
