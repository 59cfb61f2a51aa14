/** The records the remote channel daemon reports, the requests the faucet
    sends it, and a snapshot of how the daemon answers each RPC. The gRPC
    transport itself is not modelled: every call's answer is a value here,
    with `None` (or a failure variant) standing for a transport or daemon
    error. */
module Lnrpc {
  import opened Wrappers
  import opened GoLib

  const HashSize: nat := 32

  /** A transaction hash: exactly 32 bytes, stored in internal byte order. */
  type Hash = b: seq<byte> | |b| == HashSize witness seq(32, _ => 0)

  /** `chainhash.NewHash`: accepts exactly `HashSize` bytes. */
  function NewHash(b: seq<byte>): (r: Option<Hash>)
    ensures r.Some? <==> |b| == HashSize
    ensures r.Some? ==> r.value == b
  {
    if |b| == HashSize then Some(b) else None
  }

  /** `Hash.String`: the byte-reversed hash in lower-case hex. */
  function HashString(h: Hash): (s: string)
    ensures |s| == 2 * HashSize
    ensures forall i :: 0 <= i < HashSize ==>
              s[2 * i] == HexDigits[h[HashSize - 1 - i] / 16] && s[2 * i + 1] == HexDigits[h[HashSize - 1 - i] % 16]
  {
    HexEncode(Reverse(h))
  }

  /** An open channel as `ListChannels` reports it. */
  datatype Channel = Channel(remotePubkey: string, channelPoint: string, active: bool)

  /** A pending-open channel as `PendingChannels` reports it. */
  datatype PendingChannel = PendingChannel(remoteNodePub: string)

  /** A connected peer as `ListPeers` reports it. */
  datatype Peer = Peer(pubKey: string)

  /** The announcement `GetNodeInfo` returns for a peer: its last update, a
      unix time in seconds. */
  datatype NodeInfo = NodeInfo(lastUpdate: uint32)

  /** What `GetInfo` returns that the faucet uses. */
  datatype GetInfoResponse = GetInfoResponse(version: string, uris: seq<string>)

  /** A channel point: the funding transaction and the output index. */
  datatype ChanPoint = ChanPoint(fundingTxid: Hash, outputIndex: uint32)

  datatype OpenChannelRequest = OpenChannelRequest(nodePubkey: seq<byte>, localFundingAmount: int, pushAtoms: int)

  datatype CloseChannelRequest = CloseChannelRequest(channelPoint: ChanPoint, force: bool)

  /** The kind of the first update on an open-channel stream: the pending
      notice carrying the funding txid bytes, or any other kind. */
  datatype OpenStatusUpdate = ChanPending(txid: seq<byte>) | OtherOpenUpdate

  /** The kind of the first update on a close-channel stream. */
  datatype CloseStatusUpdate = ClosePending(txid: seq<byte>) | OtherCloseUpdate

  /** How an open-channel stream goes: the call itself fails, the first `Recv`
      fails, or the first update arrives. */
  datatype OpenResponse = OpenCallFailed | OpenRecvFailed | OpenFirstUpdate(update: OpenStatusUpdate)

  datatype CloseResponse = CloseCallFailed | CloseRecvFailed | CloseFirstUpdate(update: CloseStatusUpdate)

  /** A snapshot of the daemon: what each RPC the faucet makes answers. The
      list RPCs give `None` when the call fails. */
  datatype Lnd = Lnd(
    getInfo: Option<GetInfoResponse>,
    listChannels: Option<seq<Channel>>,
    pendingChannels: Option<seq<PendingChannel>>,
    listPeers: Option<seq<Peer>>,
    walletBalance: Option<int>,
    nodeInfo: string -> Option<NodeInfo>,
    openChannel: OpenChannelRequest -> OpenResponse,
    closeChannel: CloseChannelRequest -> CloseResponse)
}
