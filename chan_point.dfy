/** Parsing the daemon's textual channel point `"<txid>:<index>"` into a
    ChanPoint. Decoding the txid text into a hash (`chainhash.NewHashFromStr`)
    is not part of this model: it enters as the parameter `txidFromStr`. */
module ChanPoints {
  import opened Wrappers
  import opened GoLib
  import opened Lnrpc

  datatype PointError = BadTxid | MissingIndex | BadIndex

  /** strPointToChanPoint as written: split on every ':', decode the first
      piece as a txid and parse the second as a decimal index, truncated to
      32 bits. With a decodable txid and no ':' at all the second piece does
      not exist and indexing it panics. */
  function StrPointToChanPointAsWritten(s: string, txidFromStr: string -> Option<Hash>): (r: Run<Result<ChanPoint, PointError>>)
  {
    var parts := Split(s, ':');
    match txidFromStr(parts[0])
    case None => Returns(Failure(BadTxid))
    case Some(txid) =>
      if |parts| < 2 then Panics
      else match Atoi(parts[1])
        case None => Returns(Failure(BadIndex))
        case Some(i) => Returns(Success(ChanPoint(txid, (i % 0x1_0000_0000) as uint32)))
  }

  /** strPointToChanPoint with the missing index reported as an error. The
      txid is the text before the first ':', the index the text between the
      first and the second. */
  function StrPointToChanPoint(s: string, txidFromStr: string -> Option<Hash>): (r: Result<ChanPoint, PointError>)
  {
    var parts := Split(s, ':');
    match txidFromStr(parts[0])
    case None => Failure(BadTxid)
    case Some(txid) =>
      if |parts| < 2 then Failure(MissingIndex)
      else match Atoi(parts[1])
        case None => Failure(BadIndex)
        case Some(i) => Success(ChanPoint(txid, (i % 0x1_0000_0000) as uint32))
  }

  /** A string with no ':' is one piece; otherwise the first piece is the
      text before the first ':' and at least one more piece follows. */
  lemma SplitOnColon(s: string)
    ensures ':' !in s ==> Split(s, ':') == [s]
    ensures ':' in s ==> |Split(s, ':')| >= 2
  {
    if ':' !in s {
      SplitWithoutSep(s, ':');
    } else {
      var k := FirstColon(s);
      SplitAtFirst(s[..k], ':', s[k + 1..]);
      assert s == s[..k] + [':'] + s[k + 1..];
    }
  }

  function FirstColon(s: string): (k: nat)
    requires ':' in s
    ensures k < |s| && s[k] == ':' && ':' !in s[..k]
  {
    if s[0] == ':' then 0
    else
      var k := FirstColon(s[1..]);
      assert s[..k + 1] == [s[0]] + s[1..][..k];
      k + 1
  }

  /** The index is reported missing exactly when the txid decodes and there
      is no ':' at all. */
  lemma MissingIndexIff(s: string, txidFromStr: string -> Option<Hash>)
    ensures StrPointToChanPoint(s, txidFromStr) == Failure(MissingIndex) <==> ':' !in s && txidFromStr(s).Some?
  {
    SplitOnColon(s);
    if ':' in s {
      var k := FirstColon(s);
      SplitAtFirst(s[..k], ':', s[k + 1..]);
      assert s == s[..k] + [':'] + s[k + 1..];
    }
  }

  /** With a decodable txid before the first ':', an index text that is not
      a decimal integer in 64-bit range is reported as BadIndex. */
  lemma BadIndexIff(txidText: string, txid: Hash, indexText: string, txidFromStr: string -> Option<Hash>)
    requires ':' !in txidText && ':' !in indexText && txidFromStr(txidText) == Some(txid)
    ensures StrPointToChanPoint(txidText + ":" + indexText, txidFromStr) == Failure(BadIndex) <==> Atoi(indexText).None?
  {
    SplitWithoutSep(indexText, ':');
    SplitAtFirst(txidText, ':', indexText);
    assert txidText + ":" + indexText == txidText + [':'] + indexText;
  }

  /** The canonical text form of a channel point. */
  function FormatChanPoint(txidText: string, index: uint32): (point: string)
  {
    txidText + ":" + Decimal(index as nat)
  }

  /** Parsing the canonical text form gives back the txid and the index. */
  lemma ChanPointRoundTrip(txidText: string, txid: Hash, index: uint32, txidFromStr: string -> Option<Hash>)
    requires ':' !in txidText && txidFromStr(txidText) == Some(txid)
    ensures StrPointToChanPoint(FormatChanPoint(txidText, index), txidFromStr) == Success(ChanPoint(txid, index))
  {
    var d := Decimal(index as nat);
    assert ':' !in d;
    var s := FormatChanPoint(txidText, index);
    assert s == txidText + [':'] + d;
    SplitAtFirst(txidText, ':', d);
    SplitWithoutSep(d, ':');
    var parts := Split(s, ':');
    assert parts == [txidText, d];
    AtoiDecimal(index as nat);
    assert Atoi(parts[1]) == Some(index as int);
    assert (index as int) % 0x1_0000_0000 == index as int;
  }

  /** Only the first two pieces are read: anything after a second ':' is
      ignored. */
  lemma TrailingPiecesIgnored(txidText: string, indexText: string, rest: string, txidFromStr: string -> Option<Hash>)
    requires ':' !in txidText && ':' !in indexText
    ensures StrPointToChanPoint(txidText + ":" + indexText + ":" + rest, txidFromStr)
         == StrPointToChanPoint(txidText + ":" + indexText, txidFromStr)
  {
    SplitAtFirst(txidText, ':', indexText + ":" + rest);
    SplitAtFirst(indexText, ':', rest);
    SplitAtFirst(txidText, ':', indexText);
    SplitWithoutSep(indexText, ':');
    assert txidText + ":" + indexText + ":" + rest == txidText + [':'] + (indexText + [':'] + rest);
    assert txidText + ":" + indexText == txidText + [':'] + indexText;
  }

  /** A negative index is accepted and wraps to 32 bits, as the conversion
      `uint32(index)` does. */
  lemma NegativeIndexWraps(txidText: string, txid: Hash, txidFromStr: string -> Option<Hash>)
    requires ':' !in txidText && txidFromStr(txidText) == Some(txid)
    ensures StrPointToChanPoint(txidText + ":-1", txidFromStr) == Success(ChanPoint(txid, 0xffff_ffff))
  {
    SplitAtFirst(txidText, ':', "-1");
    SplitWithoutSep("-1", ':');
    assert txidText + ":-1" == txidText + [':'] + "-1";
    assert Atoi("-1") == Some(-1) by {
      assert "-1"[1..] == "1";
      assert DigitsValue("1") == 1 by { assert "1"[..0] == ""; }
    }
  }

  /** Finding: as written, a decodable txid with no ':' panics where the
      corrected parser reports MissingIndex; on every other input the two
      agree. */
  lemma AsWrittenPanicsWithoutColon(s: string, txidFromStr: string -> Option<Hash>)
    ensures StrPointToChanPointAsWritten(s, txidFromStr).Panics? <==> ':' !in s && txidFromStr(s).Some?
    ensures !StrPointToChanPointAsWritten(s, txidFromStr).Panics? ==>
              StrPointToChanPointAsWritten(s, txidFromStr) == Returns(StrPointToChanPoint(s, txidFromStr))
  {
    SplitOnColon(s);
  }
}
