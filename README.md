# Channel policy of the Decred Lightning faucet

This project models, in Dafny, the part of the Decred Lightning Network faucet
(`faucet.go`) that decides what happens to channels. The faucet is a web
service in front of a `dcrlnd` daemon. A visitor submits a node key, a channel
size and an initial push balance. The faucet checks the request against its
peers and its size limits, then asks the daemon to open the channel. In the
background it periodically force-closes "zombie" channels: inactive channels
whose peer has not been seen for 48 hours. On demand it closes every channel.

The model is split by component:

- `wrappers.dfy`: `Option`, `Result`, and `Run` (a result or a panic).
- `golib.dfy`: the Go library behaviour the faucet relies on:
  - `strconv.Atoi` with its 64-bit range;
  - `strings.Split`, `strings.LastIndex` and `strings.Replace(…, -1)`;
  - decimal formatting;
  - lower-case hex encoding and sequence reversal.
- `lnrpc.dfy`: the daemon's records and the 32-byte hash.
  - The daemon is an `Lnd` value. It holds the answers of the list RPCs and functions for the per-request RPCs (node info, open, close). An RPC that fails is `None`, or a dedicated failure constructor.
- `chan_errors.dfy`: the `chanCreationError` enum (a `uint8`), its messages and the channel-size constants.
- `chan_point.dfy`: parsing a `txid:index` channel point.
- `closer.dfy`: the first update of a close stream.
- `policy.dfy`:
  - the three membership loops (open channel, pending channel, connected peer);
  - the ordered validation of a funding request;
  - which list RPCs that validation consults.
- `home_state.dfy`:
  - the home page context, a class, because the open handler updates it in place;
  - its construction from the daemon (`fetchHomeState`);
  - the git commit hash parsed from the daemon's version string.
- `opener.dfy`: the open-channel handler, a method that updates the home page context, and its outcome as a function.
- `sweeper.dfy`: the zombie sweep and close-all loops, as methods proved against the functions that list the close requests they issue.

## Model

| member | source | states |
|---|---|---|
| ChanErrors.ErrorString | faucet.go:109-133 | the message is empty exactly for NoError |
| ChanErrors.MinChannelSizeText | faucet.go:121-122 | the minimum channel size prints as "50000", so the too-small message reads "Minimum channel size is is 50000 DCR" |
| ChanErrors.NamedDistinct | faucet.go:111-130 | distinct named errors have distinct messages |
| ChanErrors.ErrorStringInjective | faucet.go:109-133 | distinct error values, named or not, always render to distinct strings, so the page can tell them apart |
| GoLib.DecimalValue | faucet.go:122 | the decimal text of n reads back as n |
| GoLib.DecimalInjective | faucet.go:122-132 | distinct numbers have distinct decimal texts |
| GoLib.AtoiDecimal | faucet.go:251 | parsing the decimal text of any value in int64 range gives that value back |
| GoLib.SplitJoin | faucet.go:244 | splitting then joining on the separator gives the input back, and no piece contains the separator |
| GoLib.SplitWithoutSep | faucet.go:244 | a string without the separator splits into itself alone |
| GoLib.SplitAtFirst | faucet.go:244 | splitting at the first separator gives the text before it followed by the split of the rest |
| GoLib.LastIndex | faucet.go:432 | the result is -1 or a position of the pattern, and no later position holds the pattern |
| GoLib.RemoveAll | faucet.go:446 | the result has no occurrence of the removed character, is no longer than the input, and is the input when it had none |
| GoLib.HexEncode | faucet.go:681 | byte i becomes the characters at 2i and 2i+1: the hex digits of its high and low nibble, in lower case |
| GoLib.RemoveAllAppend | faucet.go:446 | removing a character from a concatenation is removing it from each part, so the order of the kept characters is preserved |
| GoLib.RemoveAllKeeps | faucet.go:446 | a single character is dropped exactly when it is the removed one, and kept otherwise |
| GoLib.Reverse | faucet.go:681 | same length, elements in reverse order |
| Lnrpc.NewHash | faucet.go:345-347 | a hash is built exactly from a 32-byte slice, and it is that slice |
| Lnrpc.HashString | faucet.go:681 | a txid is shown as 64 characters: the hash bytes from last to first, each as two lower-case hex digits |
| ChanPoints.FirstColon | faucet.go:244 | the first colon of a point that has one |
| ChanPoints.SplitOnColon | faucet.go:244 | a point without a colon splits into one piece, one with a colon into at least two |
| ChanPoints.BadIndexIff | faucet.go:244-255 | with a decodable txid before the colon, the index is reported bad exactly when the text after it is not a decimal integer in int64 range |
| ChanPoints.MissingIndexIff | faucet.go:244-253 | the index is reported missing exactly when there is no colon and the txid part decodes |
| ChanPoints.ChanPointRoundTrip | faucet.go:243-262 | formatting a txid and an index as `txid:index` and parsing it gives the same channel point back |
| ChanPoints.TrailingPiecesIgnored | faucet.go:244-251 | anything after a second colon is ignored |
| ChanPoints.NegativeIndexWraps | faucet.go:251-260 | index -1 becomes output index 4294967295, as the uint32 conversion wraps |
| ChanPoints.AsWrittenPanicsWithoutColon | faucet.go:244-251 | the code as written panics exactly when there is no colon and the txid decodes, and otherwise agrees with the corrected parse |
| Closer.CloseSucceedsIffPending | faucet.go:320-348 | a close yields a hash exactly when the stream's first update is a close-pending one carrying 32 bytes, and the hash is that txid |
| Closer.CloseAsWrittenPanicsOnFailedCall | faucet.go:327-334 | the code as written panics exactly when the close call itself fails, and otherwise agrees with the corrected close |
| Policy.ChannelExistsWithNode | faucet.go:515-529 | true exactly when the listing succeeds and some open channel has the key |
| Policy.PendingChannelExistsWithNode | faucet.go:497-511 | true exactly when the listing succeeds and some pending channel has the key |
| Policy.ConnectedToNode | faucet.go:533-547 | true exactly when the listing succeeds and some peer has the key |
| Policy.ValidateAcceptsIffAdmissible | faucet.go:573-645 | a request passes validation exactly when the key decodes, there is no open or pending channel, the peer is connected, both amounts parse, the size is within [50000, 2^30] and the push is below the size |
| Policy.ValidateOutcomes | faucet.go:573-645 | validation never reports ChannelOpenFail and yields a defined error value |
| Policy.BadKeyDecidesAlone | faucet.go:573-578 | an undecodable key is rejected as InvalidAddress whatever the daemon's state |
| Policy.ExistingChannelWins | faucet.go:582-586 | with a decodable key and an open channel to the node, the answer is HaveChannel and depends only on the channel list |
| Policy.PendingChannelBeforeConnectivity | faucet.go:590-602 | HavePendingChannel and NotConnected are each reported exactly when the earlier checks passed and theirs fails |
| Policy.AmountsCheckedAfterPeer | faucet.go:607-618 | an unparsed amount, or an unparsed or too large push, is reported only after all the peer checks pass |
| Policy.SizeBounds | faucet.go:626-637 | too small exactly below 50000 atoms, too large exactly above 2^30 |
| Policy.PushBound | faucet.go:639-645 | within the size bounds, the push is rejected exactly when it is at least the channel size |
| Policy.ConsultedFollowsCheckOrder | faucet.go:573-602 | the list RPCs are consulted in the order channels, pending, peers, each only when the previous check passed |
| Policy.WorkedExamples | faucet.go:620-645 | 49999 atoms is too small; 10 DCR pushing 10 DCR is rejected; 5 DCR pushing 1 DCR passes |
| Opener.OpenAsWrittenPanicsOnUnexpectedUpdate | faucet.go:668-681 | the code as written panics exactly when the first update is not chan-pending or its txid is not 32 bytes, and otherwise agrees with the corrected step |
| Opener.OpenStreamSucceedsIffPending | faucet.go:658-681 | the open yields a txid exactly when the first update is chan-pending with a 32-byte txid, and it is that txid |
| Opener.FundedOnlyWhenAdmissible | faucet.go:552-685 | a submission is funded exactly when validation passes and the open stream reports a pending channel; the request sent carries the decoded key, size and push |
| Opener.RejectionIsValidatorOrOpenFailure | faucet.go:573-673 | a rejection carries the validator's error, or ChannelOpenFail when validation passed but the open failed |
| Opener.FundedTxidShown | faucet.go:681 | the txid shown after funding is never empty, so the page shows success |
| Opener.OpenChannel | faucet.go:552-685 | records the three form fields, consults the daemon in check order, sends an open request exactly when validation passes, and leaves the error or txid that the submission's outcome dictates, changing nothing else |
| HomeState.GitCommitHash | faucet.go:429-446 | the hash has at most 40 characters and no single quote |
| HomeState.LastMarker | faucet.go:432 | the last "commit=" marker is found when no '=' follows it |
| HomeState.GitCommitHashAfterMarker | faucet.go:429-446 | with at least 40 characters after the last marker, the hash is the last 40 characters with quotes removed; with fewer it is empty |
| HomeState.GitCommitHashOfBuild | faucet.go:429-435 | a version ending in "commit=" and a 40-character hash yields that hash |
| HomeState.GitCommitHashWithoutMarker | faucet.go:432 | a version without the marker yields an empty hash |
| HomeState.HomePageContext.constructor | faucet.go:437-453 | the page starts with no error, no txid, 3 confirmations, empty form fields, the first URI or "" as address, and the daemon's channel lists |
| HomeState.FetchHomeState | faucet.go:395-454 | fails exactly when any of the four RPCs fails; otherwise a fresh context with the parsed commit hash, the first URI or "", no error, no txid, empty form fields, 3 confirmations, the faucet's network and the daemon's channel lists |
| Sweeper.TimeCutOff | faucet.go:218-233 | the cutoff is exactly 48 hours before now |
| Sweeper.ZombieAtTick | faucet.go:216-218 | against the tick's cutoff, a channel is a zombie exactly when it is inactive and its peer was last seen more than 48 hours before now |
| Sweeper.ZombieCloses | faucet.go:280-315 | the sweep issues at most one close per channel, and every one of them is forced |
| Sweeper.ZombieClosesAppend | faucet.go:283-315 | each channel is judged on its own, so the sweep over a + b is the sweep over a followed by the sweep over b |
| Sweeper.ZombieClosesExactly | faucet.go:283-315 | a close is issued for a point exactly when it is forced and some listed channel is a zombie (lookup succeeds, last seen before the cutoff, inactive) whose point parses to it |
| Sweeper.FailedLookupIsSkipped | faucet.go:285-290 | a channel whose peer lookup fails is skipped and the sweep continues unaffected |
| Sweeper.FiftyHoursUnseen | faucet.go:293-309 | an inactive channel whose peer was last seen 50 hours ago is force-closed; the same channel while active is not |
| Sweeper.SweepZombieChans | faucet.go:271-316 | issues exactly the zombie close requests in list order, each result is that close's outcome, and a failed listing issues nothing |
| Sweeper.CloseAllRequests | faucet.go:698-719 | close-all issues at most one close per channel |
| Sweeper.CloseAllRequestsAppend | faucet.go:698-719 | close-all treats each channel on its own |
| Sweeper.CloseAllClosesEveryChannel | faucet.go:698-719 | when every point parses, one close per channel in list order, forced exactly for the inactive ones |
| Sweeper.UnparsablePointIsSkipped | faucet.go:701-705 | a channel whose point does not parse is skipped and the rest are closed as if it were not listed |
| Sweeper.CloseAllChannels | faucet.go:691-722 | fails exactly when the listing fails, otherwise issues exactly the close-all requests in order and reports each outcome |

## Left out

- **Form parsing and amount conversion.** `strconv.ParseFloat` and the conversion from DCR to atoms are not modelled.
  - A `FundingRequest` carries the hex-decoded key, or `None`.
  - It also carries each amount already in atoms, or `None` when the text is not a number.
- **`chainhash.NewHashFromStr`.** It is the parameter `txidFromStr`. Its byte-reversal and hex decoding of a 64-character string are not modelled.
- **The RPC transport.** gRPC, TLS, macaroons and the daemon's own behaviour are out of scope. Each RPC answer is an input.
  - Each RPC is consulted once per use, against one snapshot of the daemon. Changes the daemon makes between two calls (a channel opening while a request is validated) are not captured.
- **The ticker goroutine.** `zombieChanSweeper` and `Start` (faucet.go:202-238) are not modelled beyond the cutoff arithmetic in `TimeCutOff`. Time is an integer count of nanoseconds, and the clock is a parameter.
- **Page rendering.** HTTP handling, template execution, `faucetHome` and the method dispatch around `openChannel` are not modelled.
- **Logging.** Log output is not modelled.
- **`NumCoins`.** The wallet balance converted to coins (a float) is not stored. `FetchHomeState` still requires the wallet balance call to succeed.
- **Startup, configuration and paths.** `newLightningFaucet`, `cleanAndExpandPath` and config.go are not part of this model.
- **HomeState.GitCommitHash:** measures and slices the version string in characters, while Go's `len` and slicing count bytes (faucet.go:432-434). The two agree on ASCII version strings, which is what the daemon reports. A version with multi-byte characters after the marker can give a different result: Go may extract a hash where the model gives "".
- **No lower bound on the push amount.** A negative push passes every check, as in the code; the model keeps this.
- **The too-small message names the wrong unit.** It reads "50000 DCR", but the limit is in atoms. The model keeps this text as written.
- **Sweeper.SweepZombieChans, Sweeper.CloseAllChannels:** both use the corrected `CloseChannel` and the corrected `StrPointToChanPoint`. The code as written would panic in two cases; see Findings:
  - when a close call fails;
  - on a channel point with a decodable txid and no colon (faucet.go:251, reached from :302 and :701).
- **Opener.OpenChannel:** uses the corrected open step. The code as written would panic on an unexpected first update; see Findings.

## Findings

| source | as written | input that shows it | evidently intended | confidence | as-written member | corrected member |
|---|---|---|---|---|---|---|
| faucet.go:327-334 | the error from starting the close is only logged, and `Recv` is then called on a nil stream | any close whose call cannot be set up (daemon unreachable when the stream opens) | return the error instead of reading the stream | high, not executed | Closer.CloseAsWrittenPanicsOnFailedCall | Closer.CloseSucceedsIffPending |
| faucet.go:676-681 | the first open update is type-asserted without the ok check, and the error from `NewHash` is discarded | a first update that is not chan-pending, or a pending txid that is not 32 bytes (then `fundingTXID` is nil and `String()` dereferences it) | report ChannelOpenFail | high, not executed | Opener.OpenAsWrittenPanicsOnUnexpectedUpdate | Opener.OpenStreamSucceedsIffPending |
| faucet.go:244-253 | `s[1]` is read without checking that the split produced two pieces | a channel point with a valid txid and no colon | return an error for a missing output index | high, not executed | ChanPoints.AsWrittenPanicsWithoutColon | ChanPoints.MissingIndexIff |
