/** The state the home page is rendered from, and the git commit extracted
    from the daemon's version string. */
module HomeState {
  import opened GoLib
  import opened Lnrpc
  import opened ChanErrors

  const CommitMarker: string := "commit="

  /** The daemon's git commit: when the last "commit=" in the version is
      followed by at least 40 characters, the version's final 40 characters
      with every `'` removed; otherwise empty. */
  function GitCommitHash(version: string): (h: string)
    ensures |h| <= 40 && '\'' !in h
  {
    var p := LastIndex(version, CommitMarker);
    var raw := if p > -1 && |version| - p - |CommitMarker| >= 40 then version[|version| - 40..] else "";
    RemoveAll(raw, '\'')
  }

  /** The last "commit=" in `prefix + "commit=" + tail` is the one before
      `tail` when `tail` holds no '=' (as no hex hash does). */
  lemma {:induction false} LastMarker(prefix: string, tail: string)
    requires '=' !in tail
    ensures LastIndex(prefix + CommitMarker + tail, CommitMarker) == |prefix|
  {
    var v := prefix + CommitMarker + tail;
    assert v[|prefix|..|prefix| + 7] == CommitMarker;
    assert OccursAt(v, CommitMarker, |prefix|);
    forall q | q > |prefix| ensures !OccursAt(v, CommitMarker, q) {
      if q + 7 <= |v| {
        assert v[q + 6] == tail[q + 6 - |prefix| - 7];
        assert v[q..q + 7][6] == v[q + 6] != '=';
      }
    }
  }

  /** GitCommitHash once the position of the last marker is known. */
  lemma CommitHashFromMarker(v: string, p: int)
    requires LastIndex(v, CommitMarker) == p && 0 <= p
    ensures |v| - p - |CommitMarker| >= 40 ==> GitCommitHash(v) == RemoveAll(v[|v| - 40..], '\'')
    ensures |v| - p - |CommitMarker| < 40 ==> GitCommitHash(v) == ""
  {}

  lemma SuffixOfConcat(a: string, b: string, n: nat)
    requires n <= |b|
    ensures (a + b)[|a + b| - n..] == b[|b| - n..]
  {}

  /** With the marker followed by `tail`: the final 40 characters without
      quotes when `tail` has at least 40, nothing when it is shorter. */
  lemma GitCommitHashAfterMarker(prefix: string, tail: string)
    requires '=' !in tail
    ensures |tail| >= 40 ==> GitCommitHash(prefix + CommitMarker + tail) == RemoveAll(tail[|tail| - 40..], '\'')
    ensures |tail| < 40 ==> GitCommitHash(prefix + CommitMarker + tail) == ""
  {
    var head := prefix + CommitMarker;
    var v := head + tail;
    assert |v| - |prefix| - |CommitMarker| == |tail|;
    LastMarker(prefix, tail);
    CommitHashFromMarker(v, |prefix|);
    if |tail| >= 40 {
      SuffixOfConcat(head, tail, 40);
      var last := tail[|tail| - 40..];
      assert v[|v| - 40..] == last;
      assert GitCommitHash(v) == RemoveAll(last, '\'');
    }
  }

  /** A version built with `make install` ends in "commit=" and the 40-digit
      hash: that hash is what is extracted. */
  lemma GitCommitHashOfBuild(prefix: string, hash: string)
    requires |hash| == 40 && '=' !in hash && '\'' !in hash
    ensures GitCommitHash(prefix + CommitMarker + hash) == hash
  {
    GitCommitHashAfterMarker(prefix, hash);
    assert hash[|hash| - 40..] == hash;
  }

  /** No marker, no hash. */
  lemma GitCommitHashWithoutMarker(version: string)
    requires forall q :: !OccursAt(version, CommitMarker, q)
    ensures GitCommitHash(version) == ""
  {}

  /** What the home page shows: the daemon's identity and channels, the form
      as last submitted, the outcome of a submission and, after a successful
      one, the funding txid. The coin balance (a float) is not modelled. */
  class HomePageContext {
    var gitCommitHash: string
    var nodeAddr: string
    var submissionError: ChanCreationError
    var channelTxid: string
    var numConfs: uint32
    var network: string
    var formFields: map<string, string>
    var pendingChannels: seq<PendingChannel>
    var activeChannels: seq<Channel>

    /** The state as fetchHomeState builds it from the daemon's answers. */
    constructor (info: GetInfoResponse, active: seq<Channel>, pending: seq<PendingChannel>, network: string)
      ensures gitCommitHash == GitCommitHash(info.version)
      ensures nodeAddr == (if |info.uris| == 0 then "" else info.uris[0])
      ensures submissionError == NoError && channelTxid == ""
      ensures numConfs == 3 && this.network == network && formFields == map[]
      ensures activeChannels == active && pendingChannels == pending
    {
      gitCommitHash := GitCommitHash(info.version);
      nodeAddr := if |info.uris| == 0 then "" else info.uris[0];
      submissionError := NoError;
      channelTxid := "";
      numConfs := 3;
      this.network := network;
      formFields := map[];
      activeChannels := active;
      pendingChannels := pending;
    }
  }

  /** fetchHomeState: the four daemon queries must all succeed, otherwise
      there is no state to render. */
  method FetchHomeState(lnd: Lnd, network: string) returns (home: HomePageContext?)
    ensures home == null <==>
              lnd.getInfo.None? || lnd.listChannels.None? || lnd.pendingChannels.None? || lnd.walletBalance.None?
    ensures home != null ==> fresh(home)
    ensures home != null ==>
              && home.gitCommitHash == GitCommitHash(lnd.getInfo.value.version)
              && home.nodeAddr == (if |lnd.getInfo.value.uris| == 0 then "" else lnd.getInfo.value.uris[0])
              && home.submissionError == NoError && home.channelTxid == "" && home.formFields == map[]
              && home.numConfs == 3 && home.network == network
              && home.activeChannels == lnd.listChannels.value && home.pendingChannels == lnd.pendingChannels.value
  {
    if lnd.getInfo.None? || lnd.listChannels.None? || lnd.pendingChannels.None? || lnd.walletBalance.None? {
      return null;
    }
    home := new HomePageContext(lnd.getInfo.value, lnd.listChannels.value, lnd.pendingChannels.value, network);
  }
}
