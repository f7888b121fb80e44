/** Ethereum addresses as chain accounts, and back again when an unstake is forwarded. */
module Accounts {
  import opened Common
  import opened Endian

  const ADDRESS_LENGTH: nat := 20
  const ACCOUNT_LENGTH: nat := 32
  const PADDING: nat := 12

  const HEX_PREFIX: Bytes := [48, 120] // "0x"

  datatype Error = InvalidHexAddress | ExpectedTwentyBytes

  function HexValue(c: Byte): Option<nat> {
    if 48 <= c <= 57 then Some(c - 48)
    else if 97 <= c <= 102 then Some(c - 87)
    else if 65 <= c <= 70 then Some(c - 55)
    else None
  }

  function HexDigit(n: nat): (c: Byte)
    requires n < 16
    ensures HexValue(c) == Some(n) && c != 120
  {
    if n < 10 then 48 + n else 87 + n
  }

  function DecodeHex(text: Bytes): Option<Bytes> {
    if text == [] then Some([])
    else if |text| < 2 || HexValue(text[0]).None? || HexValue(text[1]).None? then None
    else match DecodeHex(text[2..])
      case None => None
      case Some(rest) => Some([16 * HexValue(text[0]).value + HexValue(text[1]).value] + rest)
  }

  function EncodeHex(b: Bytes): Bytes {
    if b == [] then [] else [HexDigit(b[0] / 16), HexDigit(b[0] % 16)] + EncodeHex(b[1..])
  }

  /** Drops every leading "0x", not just one. */
  function TrimPrefix(text: Bytes): Bytes
    decreases |text|
  {
    if HEX_PREFIX <= text then TrimPrefix(text[2..]) else text
  }

  function Pad(address: Bytes): (account: Bytes)
    ensures |account| == PADDING + |address|
  {
    seq(PADDING, _ => 0) + address
  }

  function AccountFromAddress(text: Bytes): Result<Bytes, Error> {
    match DecodeHex(TrimPrefix(text))
    case None => Err(InvalidHexAddress)
    case Some(raw) => if |raw| != ADDRESS_LENGTH then Err(ExpectedTwentyBytes) else Ok(Pad(raw))
  }

  /** The padding as the code does it: a zeroed array whose tail is overwritten. */
  method PadInPlace(address: Bytes) returns (data: array<Byte>)
    requires |address| == ADDRESS_LENGTH
    ensures fresh(data) && data[..] == Pad(address)
  {
    data := new Byte[ACCOUNT_LENGTH](_ => 0);
    for i := 0 to ADDRESS_LENGTH
      invariant data[..PADDING + i] == seq(PADDING, _ => 0) + address[..i]
    {
      data[PADDING + i] := address[i];
      assert data[..PADDING + i + 1] == data[..PADDING + i] + [address[i]];
    }
    assert data[..] == data[..ACCOUNT_LENGTH] && address[..ADDRESS_LENGTH] == address;
  }

  /** The forwarder only forwards stashes that begin with twelve zero bytes. */
  predicate Forwardable(account: Bytes) {
    |account| == ACCOUNT_LENGTH && account[..PADDING] == seq(PADDING, _ => 0)
  }

  function Staker(account: Bytes): Bytes
    requires |account| == ACCOUNT_LENGTH
  {
    account[PADDING..]
  }

  lemma {:induction false} DecodePair(high: nat, low: nat, text: Bytes)
    requires high < 16 && low < 16 && DecodeHex(text).Some?
    ensures DecodeHex([HexDigit(high), HexDigit(low)] + text) == Some([16 * high + low] + DecodeHex(text).value)
  {
    var whole := [HexDigit(high), HexDigit(low)] + text;
    assert whole[0] == HexDigit(high) && whole[1] == HexDigit(low) && whole[2..] == text;
  }

  lemma {:induction false} HexRoundTrip(b: Bytes)
    ensures DecodeHex(EncodeHex(b)) == Some(b)
  {
    if b != [] {
      var high, low, rest := b[0] / 16, b[0] % 16, b[1..];
      HexRoundTrip(rest);
      DecodePair(high, low, EncodeHex(rest));
      assert 16 * high + low == b[0];
      assert b == [b[0]] + rest;
    }
  }

  /** 'x' is no hex digit, so trimming leaves bare hex alone. */
  lemma {:induction false} HexIsTrimmed(b: Bytes)
    ensures TrimPrefix(EncodeHex(b)) == EncodeHex(b)
  {
    if b != [] {
      assert EncodeHex(b)[1] == HexDigit(b[0] % 16) != HEX_PREFIX[1];
    }
  }

  /** Every 20-byte address, with or without its prefix, becomes a forwardable account and is recovered from it. */
  lemma {:induction false} AddressRoundTrip(address: Bytes)
    requires |address| == ADDRESS_LENGTH
    ensures AccountFromAddress(EncodeHex(address)) == AccountFromAddress(HEX_PREFIX + EncodeHex(address))
       == Ok(Pad(address))
    ensures Forwardable(Pad(address)) && Staker(Pad(address)) == address
  {
    HexRoundTrip(address);
    HexIsTrimmed(address);
    assert (HEX_PREFIX + EncodeHex(address))[2..] == EncodeHex(address);
  }

  /** The accounts that pass the filter are exactly those made from addresses, each from one address only. */
  lemma {:induction false} ForwardableIff(account: Bytes)
    ensures Forwardable(account) <==> exists address :: |address| == ADDRESS_LENGTH && Pad(address) == account
    ensures forall a, b :: Pad(a) == Pad(b) ==> a == b
    ensures Forwardable(account) ==> Pad(Staker(account)) == account
  {
    if Forwardable(account) {
      assert account == account[..PADDING] + account[PADDING..];
      assert Pad(Staker(account)) == account;
    }
    forall a, b | Pad(a) == Pad(b) ensures a == b {
      SplitEqual(seq(PADDING, _ => 0), a, seq(PADDING, _ => 0), b);
    }
  }

  /** Whatever text is accepted, the account it gives passes the filter. */
  lemma {:induction false} AcceptedIsForwardable(text: Bytes)
    requires AccountFromAddress(text).Ok?
    ensures Forwardable(AccountFromAddress(text).value)
    ensures AccountFromAddress(HEX_PREFIX + EncodeHex(Staker(AccountFromAddress(text).value)))
       == AccountFromAddress(text)
  {
    var raw := DecodeHex(TrimPrefix(text)).value;
    AddressRoundTrip(raw);
  }

  // ----- Which texts are accepted -----

  const DIGITS := "0123456789abcdef"
  const CAPITALS := "0123456789ABCDEF"

  /** A byte is a hex digit exactly when it is one of these characters, in either case, and its value is its place. */
  lemma {:induction false} HexValueIff(c: Byte, v: nat)
    ensures HexValue(c) == Some(v) <==> v < 16 && (c == DIGITS[v] as int || c == CAPITALS[v] as int)
  {
  }

  ghost predicate IsHex(text: Bytes) {
    |text| % 2 == 0 && forall i :: 0 <= i < |text| ==> HexValue(text[i]).Some?
  }

  /** Text decodes exactly when it is an even number of hex digits, each pair to its byte. */
  lemma {:induction false} DecodeHexIff(text: Bytes)
    ensures DecodeHex(text).Some? <==> IsHex(text)
    ensures DecodeHex(text).Some? ==>
      && |DecodeHex(text).value| == |text| / 2
      && forall i :: 0 <= i < |text| / 2 ==>
           DecodeHex(text).value[i] == 16 * HexValue(text[2 * i]).value + HexValue(text[2 * i + 1]).value
    decreases |text|
  {
    if |text| >= 2 {
      var tail := text[2..];
      DecodeHexIff(tail);
      assert forall i :: 0 <= i < |tail| ==> tail[i] == text[i + 2];
      if IsHex(tail) && HexValue(text[0]).Some? && HexValue(text[1]).Some? {
        forall i | 0 <= i < |text| ensures HexValue(text[i]).Some? {
          if i >= 2 {
            assert text[i] == tail[i - 2];
          }
        }
        PairsShift(text);
      }
    }
  }

  lemma {:induction false} PairsShift(text: Bytes)
    requires |text| >= 2 && DecodeHex(text).Some? && DecodeHex(text[2..]).Some?
    requires var tail := text[2..];
             && |tail| % 2 == 0 && |DecodeHex(tail).value| == |tail| / 2
             && forall i :: 0 <= i < |tail| ==> HexValue(tail[i]).Some?
    requires var tail := text[2..];
             forall i :: 0 <= i < |tail| / 2 ==>
               DecodeHex(tail).value[i] == 16 * HexValue(tail[2 * i]).value + HexValue(tail[2 * i + 1]).value
    ensures |DecodeHex(text).value| == |text| / 2
    ensures forall i :: 0 <= i < |text| / 2 ==>
              && HexValue(text[2 * i]).Some? && HexValue(text[2 * i + 1]).Some?
              && DecodeHex(text).value[i] == 16 * HexValue(text[2 * i]).value + HexValue(text[2 * i + 1]).value
  {
    var tail, all := text[2..], DecodeHex(text).value;
    forall i | 0 <= i < |text| / 2
      ensures HexValue(text[2 * i]).Some? && HexValue(text[2 * i + 1]).Some?
      ensures all[i] == 16 * HexValue(text[2 * i]).value + HexValue(text[2 * i + 1]).value
    {
      if i > 0 {
        assert text[2 * i] == tail[2 * (i - 1)] && text[2 * i + 1] == tail[2 * (i - 1) + 1];
        assert all[i] == DecodeHex(tail).value[i - 1];
      }
    }
  }

  /** Every leading "0x" is dropped and nothing else. */
  lemma {:induction false} TrimPrefixIs(text: Bytes) returns (k: nat)
    ensures 2 * k <= |text| && TrimPrefix(text) == text[2 * k..] && !(HEX_PREFIX <= TrimPrefix(text))
    ensures forall i :: 0 <= i < k ==> text[2 * i] == '0' as int && text[2 * i + 1] == 'x' as int
    decreases |text|
  {
    if HEX_PREFIX <= text {
      var j := TrimPrefixIs(text[2..]);
      k := j + 1;
      assert text[2..][2 * j..] == text[2 * k..];
      forall i | 0 <= i < k ensures text[2 * i] == '0' as int && text[2 * i + 1] == 'x' as int {
        if i > 0 {
          assert text[2..][2 * (i - 1)] == text[2 * i] && text[2..][2 * (i - 1) + 1] == text[2 * i + 1];
        } else {
          assert text[..2] == HEX_PREFIX;
        }
      }
    } else {
      k := 0;
    }
  }

  /** A text is accepted exactly when forty hex digits remain, of any case; other digits and other lengths are told
      apart. */
  lemma {:induction false} AcceptedIff(text: Bytes)
    ensures var rest := TrimPrefix(text);
            && (AccountFromAddress(text).Ok? <==> IsHex(rest) && |rest| == 40)
            && (AccountFromAddress(text) == Err(InvalidHexAddress) <==> !IsHex(rest))
            && (AccountFromAddress(text) == Err(ExpectedTwentyBytes) <==> IsHex(rest) && |rest| != 40)
  {
    DecodeHexIff(TrimPrefix(text));
  }

  /** The account's bytes: twelve zeros and the twenty bytes the digits spell. */
  lemma {:induction false} AccountBytes(text: Bytes)
    requires AccountFromAddress(text).Ok?
    ensures IsHex(TrimPrefix(text)) && |TrimPrefix(text)| == 40
    ensures var account, rest := AccountFromAddress(text).value, TrimPrefix(text);
            && |account| == 32 && (forall i :: 0 <= i < 12 ==> account[i] == 0)
            && forall i :: 0 <= i < 20 ==>
                 account[12 + i] == 16 * HexValue(rest[2 * i]).value + HexValue(rest[2 * i + 1]).value
  {
    DecodeHexIff(TrimPrefix(text));
  }
}
