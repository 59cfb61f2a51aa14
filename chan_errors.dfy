/** The outcome of a channel-creation attempt, a `uint8` enumeration whose
    named values are numbered from zero in declaration order, and the message
    the home page shows for each. */
module ChanErrors {
  import opened GoLib

  newtype ChanCreationError = x: int | 0 <= x < 0x100

  const NoError: ChanCreationError := 0
  const InvalidAddress: ChanCreationError := 1
  const NotConnected: ChanCreationError := 2
  const ChanAmountNotNumber: ChanCreationError := 3
  const ChannelTooLarge: ChanCreationError := 4
  const ChannelTooSmall: ChanCreationError := 5
  const PushIncorrect: ChanCreationError := 6
  const ChannelOpenFail: ChanCreationError := 7
  const HaveChannel: ChanCreationError := 8
  const HavePendingChannel: ChanCreationError := 9

  /** The smallest channel, in atoms, the faucet extends to a peer. */
  const MinChannelSize: int := 50000

  /** The largest channel, in atoms, the faucet creates. */
  const MaxChannelSize: int := 0x4000_0000

  /** The human-readable text of an outcome; a value outside the named ones
      prints as its decimal number. */
  function ErrorString(c: ChanCreationError): (s: string)
    ensures s == "" <==> c == NoError
  {
    if c == NoError then ""
    else if c == InvalidAddress then "Not a valid public key"
    else if c == NotConnected then "Faucet cannot connect to this node"
    else if c == ChanAmountNotNumber then "Amount must be a number"
    else if c == ChannelTooLarge then "Amount is too large"
    else if c == ChannelTooSmall then "Minimum channel size is is " + Decimal(MinChannelSize) + " DCR"
    else if c == PushIncorrect then "Initial Balance is incorrect"
    else if c == ChannelOpenFail then "Faucet is not able to open a channel with this node"
    else if c == HaveChannel then "Faucet already has an active channel with this node"
    else if c == HavePendingChannel then "Faucet already has a pending channel with this node"
    else Decimal(c as nat)
  }

  /** The too-small message prints the minimum size in decimal. */
  lemma MinChannelSizeText()
    ensures Decimal(MinChannelSize as nat) == "50000"
    ensures ErrorString(ChannelTooSmall) == "Minimum channel size is is " + "50000" + " DCR"
  {
    assert Decimal(5) == "5";
    assert Decimal(50) == Decimal(5) + "0";
    assert Decimal(500) == Decimal(50) + "0";
    assert Decimal(5000) == Decimal(500) + "0";
    assert Decimal(50000) == Decimal(5000) + "0";
  }

  /** The message of a named outcome other than NoError starts with a capital
      letter, so it never looks like the number printed for an unnamed one;
      the lengths alone tell all but the last three apart. */
  lemma {:induction false} NamedMessageShape(c: ChanCreationError)
    requires NoError < c <= HavePendingChannel
    ensures 'A' <= ErrorString(c)[0] <= 'Z'
    ensures |ErrorString(c)| == [0, 22, 34, 23, 19, 36, 28, 51, 51, 51][c]
  {
    var s := ErrorString(c);
    if c == InvalidAddress { assert s == "Not a valid public key"; }
    else if c == NotConnected { assert s == "Faucet cannot connect to this node"; }
    else if c == ChanAmountNotNumber { assert s == "Amount must be a number"; }
    else if c == ChannelTooLarge { assert s == "Amount is too large"; }
    else if c == ChannelTooSmall { MinChannelSizeText(); assert s == "Minimum channel size is is 50000 DCR"; }
    else if c == PushIncorrect { assert s == "Initial Balance is incorrect"; }
    else { LongMessages(c); }
  }

  /** The three 51-character messages, each cut where it differs from the
      others so that their characters can be compared. */
  lemma OpenFailText()
    ensures ErrorString(ChannelOpenFail) == "Faucet is not" + " able to open a channel with this node"
  {}

  lemma HaveChannelText()
    ensures ErrorString(HaveChannel) == "Faucet already has a" + "n active channel with this node"
  {}

  lemma HavePendingChannelText()
    ensures ErrorString(HavePendingChannel) == "Faucet already has a" + " pending channel with this node"
  {}

  lemma LongMessages(c: ChanCreationError)
    requires ChannelOpenFail <= c <= HavePendingChannel
    ensures |ErrorString(c)| == 51 && ErrorString(c)[0] == 'F'
    ensures ErrorString(c)[7] == (if c == ChannelOpenFail then 'i' else 'a')
    ensures c != ChannelOpenFail ==> ErrorString(c)[20] == (if c == HaveChannel then 'n' else ' ')
  {
    if c == ChannelOpenFail {
      OpenFailText();
    } else if c == HaveChannel {
      HaveChannelText();
    } else {
      HavePendingChannelText();
    }
  }

  lemma NamedDistinct(a: ChanCreationError, b: ChanCreationError)
    requires NoError < a <= HavePendingChannel && NoError < b <= HavePendingChannel
    requires a < b
    ensures ErrorString(a) != ErrorString(b)
  {
    if a >= ChannelOpenFail {
      LongMessages(a);
      LongMessages(b);
    } else {
      NamedMessageShape(a);
      NamedMessageShape(b);
    }
  }

  /** No two outcomes render to the same text, so the page can always tell
      which check failed. */
  lemma ErrorStringInjective(a: ChanCreationError, b: ChanCreationError)
    requires ErrorString(a) == ErrorString(b)
    ensures a == b
  {
    if a > HavePendingChannel && b > HavePendingChannel {
      DecimalInjective(a as nat, b as nat);
    } else if a > HavePendingChannel {
      if b != NoError { NamedMessageShape(b); }
    } else if b > HavePendingChannel {
      if a != NoError { NamedMessageShape(a); }
    } else if a < b && a != NoError {
      NamedDistinct(a, b);
    } else if b < a && b != NoError {
      NamedDistinct(b, a);
    }
  }
}
