/** The zombie sweep and the close-everything operation: both walk the
    daemon's open channels, skip any channel whose step fails, and ask the
    daemon to close the rest. Times are nanoseconds since the unix epoch. */
module Sweeper {
  import opened Wrappers
  import opened GoLib
  import opened Lnrpc
  import opened ChanPoints
  import opened Closer

  const NanosPerSecond: int := 1_000_000_000

  /** A peer unseen for longer than this, on an inactive channel, makes the
      channel a zombie: 48 hours. */
  const ZombieAge: int := 48 * 3600 * NanosPerSecond

  /** The sweep's cutoff, recomputed at every tick. */
  function TimeCutOff(now: int): (cutoff: int)
    ensures cutoff < now && now - cutoff == 48 * 3600 * NanosPerSecond
  {
    now - ZombieAge
  }

  /** The peer was last seen strictly before the cutoff and the channel is
      inactive. */
  predicate IsZombie(info: NodeInfo, ch: Channel, cutoff: int)
  {
    (info.lastUpdate as int) * NanosPerSecond < cutoff && !ch.active
  }

  /** Measured from the tick: a channel is a zombie exactly when it is
      inactive and its peer was last seen more than 48 hours before now. */
  lemma ZombieAtTick(info: NodeInfo, ch: Channel, now: int)
    ensures IsZombie(info, ch, TimeCutOff(now)) <==>
              now - (info.lastUpdate as int) * NanosPerSecond > 48 * 3600 * NanosPerSecond && !ch.active
  {}

  /** The sweep's verdict on one channel: a forced close of its channel
      point when its peer's announcement could be fetched, it is a zombie and
      its point parses; nothing otherwise. */
  function ZombieClose(lnd: Lnd, txidFromStr: string -> Option<Hash>, cutoff: int, ch: Channel): (reqs: seq<CloseChannelRequest>)
  {
    match lnd.nodeInfo(ch.remotePubkey)
    case None => []
    case Some(info) =>
      if !IsZombie(info, ch, cutoff) then []
      else
        match StrPointToChanPoint(ch.channelPoint, txidFromStr)
        case Failure(_) => []
        case Success(point) => [CloseChannelRequest(point, true)]
  }

  /** The close requests one sweep issues over `channels`, in list order. */
  function ZombieCloses(lnd: Lnd, txidFromStr: string -> Option<Hash>, cutoff: int, channels: seq<Channel>): (reqs: seq<CloseChannelRequest>)
    ensures |reqs| <= |channels|
    ensures forall k :: 0 <= k < |reqs| ==> reqs[k].force
  {
    if channels == [] then []
    else ZombieClose(lnd, txidFromStr, cutoff, channels[0]) + ZombieCloses(lnd, txidFromStr, cutoff, channels[1..])
  }

  /** A channel the sweep force-closes at `point`. */
  predicate SweepTarget(lnd: Lnd, txidFromStr: string -> Option<Hash>, cutoff: int, ch: Channel, point: ChanPoint)
  {
    && lnd.nodeInfo(ch.remotePubkey).Some?
    && IsZombie(lnd.nodeInfo(ch.remotePubkey).value, ch, cutoff)
    && StrPointToChanPoint(ch.channelPoint, txidFromStr) == Success(point)
  }

  /** Each channel is judged on its own: what the sweep does with the later
      channels does not depend on the earlier ones. */
  lemma {:induction false} ZombieClosesAppend(lnd: Lnd, txidFromStr: string -> Option<Hash>, cutoff: int, a: seq<Channel>, b: seq<Channel>)
    ensures ZombieCloses(lnd, txidFromStr, cutoff, a + b)
         == ZombieCloses(lnd, txidFromStr, cutoff, a) + ZombieCloses(lnd, txidFromStr, cutoff, b)
  {
    if a == [] {
      assert a + b == b;
    } else {
      assert (a + b)[0] == a[0];
      assert (a + b)[1..] == a[1..] + b;
      ZombieClosesAppend(lnd, txidFromStr, cutoff, a[1..], b);
    }
  }

  /** A close is issued for a channel point exactly when some listed channel
      is a sweep target at that point, and every close the sweep issues is
      forced. Neither an inactive channel with a recently seen peer nor an
      active one with a long-gone peer is closed. */
  lemma {:induction false} ZombieClosesExactly(lnd: Lnd, txidFromStr: string -> Option<Hash>, cutoff: int, channels: seq<Channel>, req: CloseChannelRequest)
    ensures req in ZombieCloses(lnd, txidFromStr, cutoff, channels) <==>
              req.force && exists i :: 0 <= i < |channels| && SweepTarget(lnd, txidFromStr, cutoff, channels[i], req.channelPoint)
  {
    if channels != [] {
      ZombieClosesExactly(lnd, txidFromStr, cutoff, channels[1..], req);
      var here := ZombieClose(lnd, txidFromStr, cutoff, channels[0]);
      assert req in here <==> req.force && SweepTarget(lnd, txidFromStr, cutoff, channels[0], req.channelPoint);
      if req.force && exists i :: 0 <= i < |channels| && SweepTarget(lnd, txidFromStr, cutoff, channels[i], req.channelPoint) {
        var i :| 0 <= i < |channels| && SweepTarget(lnd, txidFromStr, cutoff, channels[i], req.channelPoint);
        if i > 0 { assert channels[1..][i - 1] == channels[i]; }
      }
      if exists i :: 0 <= i < |channels[1..]| && SweepTarget(lnd, txidFromStr, cutoff, channels[1..][i], req.channelPoint) {
        var i :| 0 <= i < |channels[1..]| && SweepTarget(lnd, txidFromStr, cutoff, channels[1..][i], req.channelPoint);
        assert channels[1..][i] == channels[i + 1];
      }
    }
  }

  /** One more channel of the list adds its own verdict at the end. */
  lemma ZombieClosesStep(lnd: Lnd, txidFromStr: string -> Option<Hash>, cutoff: int, channels: seq<Channel>, i: nat)
    requires i < |channels|
    ensures ZombieCloses(lnd, txidFromStr, cutoff, channels[..i + 1])
         == ZombieCloses(lnd, txidFromStr, cutoff, channels[..i]) + ZombieClose(lnd, txidFromStr, cutoff, channels[i])
  {
    assert channels[..i + 1] == channels[..i] + [channels[i]];
    ZombieClosesAppend(lnd, txidFromStr, cutoff, channels[..i], [channels[i]]);
    assert [channels[i]][1..] == [];
  }

  /** A channel whose peer lookup fails is skipped and the sweep goes on with
      the rest exactly as if it were not there. */
  lemma FailedLookupIsSkipped(lnd: Lnd, txidFromStr: string -> Option<Hash>, cutoff: int, a: seq<Channel>, ch: Channel, b: seq<Channel>)
    requires lnd.nodeInfo(ch.remotePubkey).None?
    ensures ZombieCloses(lnd, txidFromStr, cutoff, a + [ch] + b)
         == ZombieCloses(lnd, txidFromStr, cutoff, a) + ZombieCloses(lnd, txidFromStr, cutoff, b)
  {
    assert ZombieCloses(lnd, txidFromStr, cutoff, [ch]) == [] by {
      assert [ch][1..] == [];
      assert ZombieClose(lnd, txidFromStr, cutoff, ch) == [];
    }
    ZombieClosesAppend(lnd, txidFromStr, cutoff, a, [ch]);
    assert ZombieCloses(lnd, txidFromStr, cutoff, a + [ch]) == ZombieCloses(lnd, txidFromStr, cutoff, a);
    ZombieClosesAppend(lnd, txidFromStr, cutoff, a + [ch], b);
  }

  /** A peer last seen 50 hours before the tick, on an inactive channel whose
      point parses, is force-closed; the same channel while active is not. */
  lemma FiftyHoursUnseen(lnd: Lnd, txidFromStr: string -> Option<Hash>, nowSeconds: int, ch: Channel, point: ChanPoint)
    requires 0 <= nowSeconds - 50 * 3600 < 0x1_0000_0000
    requires lnd.nodeInfo(ch.remotePubkey) == Some(NodeInfo((nowSeconds - 50 * 3600) as uint32))
    requires StrPointToChanPoint(ch.channelPoint, txidFromStr) == Success(point)
    ensures !ch.active ==>
              ZombieCloses(lnd, txidFromStr, TimeCutOff(nowSeconds * NanosPerSecond), [ch]) == [CloseChannelRequest(point, true)]
    ensures ch.active ==>
              ZombieCloses(lnd, txidFromStr, TimeCutOff(nowSeconds * NanosPerSecond), [ch]) == []
  {
    assert [ch][1..] == [];
  }

  /** sweepZombieChans: one pass over the open channels. It returns the close
      requests it issued, in order, and what each close came to. Nothing is
      closed when the channel list cannot be fetched. */
  method SweepZombieChans(lnd: Lnd, txidFromStr: string -> Option<Hash>, cutoff: int)
      returns (issued: seq<CloseChannelRequest>, results: seq<Result<Hash, CloseError>>)
    ensures lnd.listChannels.None? ==> issued == []
    ensures lnd.listChannels.Some? ==> issued == ZombieCloses(lnd, txidFromStr, cutoff, lnd.listChannels.value)
    ensures |results| == |issued|
    ensures forall k :: 0 <= k < |issued| ==> results[k] == CloseChannel(lnd.closeChannel(issued[k]))
  {
    issued, results := [], [];
    if lnd.listChannels.None? {
      return;
    }
    var channels := lnd.listChannels.value;
    for i := 0 to |channels|
      invariant issued == ZombieCloses(lnd, txidFromStr, cutoff, channels[..i])
      invariant |results| == |issued|
      invariant forall k :: 0 <= k < |issued| ==> results[k] == CloseChannel(lnd.closeChannel(issued[k]))
    {
      var channel := channels[i];
      ZombieClosesStep(lnd, txidFromStr, cutoff, channels, i);

      var nodeInfo := lnd.nodeInfo(channel.remotePubkey);
      if nodeInfo.None? {
        continue;
      }
      var lastSeen := (nodeInfo.value.lastUpdate as int) * NanosPerSecond;
      if lastSeen < cutoff && !channel.active {
        var chanPoint := StrPointToChanPoint(channel.channelPoint, txidFromStr);
        if chanPoint.Failure? {
          continue;
        }
        var request := CloseChannelRequest(chanPoint.value, true);
        var closed := CloseChannel(lnd.closeChannel(request));
        issued, results := issued + [request], results + [closed];
        if closed.Failure? {
          continue;
        }
      }
    }
    assert channels[..|channels|] == channels;
  }

  /** The close-all verdict on one channel: a close of its point, forced
      exactly when the channel is inactive, when the point parses. */
  function CloseAllRequest(txidFromStr: string -> Option<Hash>, ch: Channel): (reqs: seq<CloseChannelRequest>)
  {
    match StrPointToChanPoint(ch.channelPoint, txidFromStr)
    case Failure(_) => []
    case Success(point) => [CloseChannelRequest(point, !ch.active)]
  }

  /** The close requests CloseAllChannels issues over `channels`, in order. */
  function CloseAllRequests(txidFromStr: string -> Option<Hash>, channels: seq<Channel>): (reqs: seq<CloseChannelRequest>)
    ensures |reqs| <= |channels|
  {
    if channels == [] then []
    else CloseAllRequest(txidFromStr, channels[0]) + CloseAllRequests(txidFromStr, channels[1..])
  }

  lemma {:induction false} CloseAllRequestsAppend(txidFromStr: string -> Option<Hash>, a: seq<Channel>, b: seq<Channel>)
    ensures CloseAllRequests(txidFromStr, a + b) == CloseAllRequests(txidFromStr, a) + CloseAllRequests(txidFromStr, b)
  {
    if a == [] {
      assert a + b == b;
    } else {
      assert (a + b)[0] == a[0];
      assert (a + b)[1..] == a[1..] + b;
      CloseAllRequestsAppend(txidFromStr, a[1..], b);
    }
  }

  /** One more channel of the list adds its own close at the end. */
  lemma CloseAllRequestsStep(txidFromStr: string -> Option<Hash>, channels: seq<Channel>, i: nat)
    requires i < |channels|
    ensures CloseAllRequests(txidFromStr, channels[..i + 1])
         == CloseAllRequests(txidFromStr, channels[..i]) + CloseAllRequest(txidFromStr, channels[i])
  {
    assert channels[..i + 1] == channels[..i] + [channels[i]];
    CloseAllRequestsAppend(txidFromStr, channels[..i], [channels[i]]);
    assert [channels[i]][1..] == [];
  }

  /** When every channel point parses, close-all issues one close per channel,
      in list order, forced exactly for the inactive ones. */
  lemma {:induction false} CloseAllClosesEveryChannel(txidFromStr: string -> Option<Hash>, channels: seq<Channel>)
    requires forall i :: 0 <= i < |channels| ==> StrPointToChanPoint(channels[i].channelPoint, txidFromStr).Success?
    ensures |CloseAllRequests(txidFromStr, channels)| == |channels|
    ensures forall i :: 0 <= i < |channels| ==>
              CloseAllRequests(txidFromStr, channels)[i] ==
              CloseChannelRequest(StrPointToChanPoint(channels[i].channelPoint, txidFromStr).value, !channels[i].active)
  {
    if channels != [] {
      CloseAllClosesEveryChannel(txidFromStr, channels[1..]);
      forall i | 0 <= i < |channels| 
        ensures CloseAllRequests(txidFromStr, channels)[i] ==
                CloseChannelRequest(StrPointToChanPoint(channels[i].channelPoint, txidFromStr).value, !channels[i].active)
      {
        if i > 0 { assert channels[1..][i - 1] == channels[i]; }
      }
    }
  }

  /** A channel whose point does not parse is skipped; the rest are closed as
      if it were not there. */
  lemma UnparsablePointIsSkipped(txidFromStr: string -> Option<Hash>, a: seq<Channel>, ch: Channel, b: seq<Channel>)
    requires StrPointToChanPoint(ch.channelPoint, txidFromStr).Failure?
    ensures CloseAllRequests(txidFromStr, a + [ch] + b) == CloseAllRequests(txidFromStr, a) + CloseAllRequests(txidFromStr, b)
  {
    assert CloseAllRequests(txidFromStr, [ch]) == [] by {
      assert [ch][1..] == [];
      assert CloseAllRequest(txidFromStr, ch) == [];
    }
    CloseAllRequestsAppend(txidFromStr, a, [ch]);
    assert CloseAllRequests(txidFromStr, a + [ch]) == CloseAllRequests(txidFromStr, a);
    CloseAllRequestsAppend(txidFromStr, a + [ch], b);
  }

  /** CloseAllChannels: closes every open channel it can, forcing the inactive
      ones, and carries on past any failure. It fails only when the channel
      list cannot be fetched. */
  method CloseAllChannels(lnd: Lnd, txidFromStr: string -> Option<Hash>)
      returns (ok: bool, issued: seq<CloseChannelRequest>, results: seq<Result<Hash, CloseError>>)
    ensures ok <==> lnd.listChannels.Some?
    ensures !ok ==> issued == []
    ensures ok ==> issued == CloseAllRequests(txidFromStr, lnd.listChannels.value)
    ensures |results| == |issued|
    ensures forall k :: 0 <= k < |issued| ==> results[k] == CloseChannel(lnd.closeChannel(issued[k]))
  {
    issued, results := [], [];
    if lnd.listChannels.None? {
      return false, issued, results;
    }
    var channels := lnd.listChannels.value;
    for i := 0 to |channels|
      invariant issued == CloseAllRequests(txidFromStr, channels[..i])
      invariant |results| == |issued|
      invariant forall k :: 0 <= k < |issued| ==> results[k] == CloseChannel(lnd.closeChannel(issued[k]))
    {
      var channel := channels[i];
      CloseAllRequestsStep(txidFromStr, channels, i);

      var chanPoint := StrPointToChanPoint(channel.channelPoint, txidFromStr);
      if chanPoint.Failure? {
        continue;
      }
      var forceClose := !channel.active;
      var request := CloseChannelRequest(chanPoint.value, forceClose);
      var closed := CloseChannel(lnd.closeChannel(request));
      issued, results := issued + [request], results + [closed];
      if closed.Failure? {
        continue;
      }
    }
    assert channels[..|channels|] == channels;
    return true, issued, results;
  }
}
