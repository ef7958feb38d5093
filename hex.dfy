/**
 * The `0x`-prefixed hexadecimal strings web3 returns for byte values (keccak256 and
 * encodePacked results): two lower-case digits per byte, most significant digit first.
 */
module Hex {
  import opened Abi
  import opened Wrappers

  const DIGITS := "0123456789abcdef"

  /** The value of one hexadecimal digit, accepting either letter case. */
  function DigitValue(c: char): (d: Option<nat>)
    ensures d.Some? ==> d.value < 16
  {
    if '0' <= c <= '9' then Some(c as int - '0' as int)
    else if 'a' <= c <= 'f' then Some(c as int - 'a' as int + 10)
    else if 'A' <= c <= 'F' then Some(c as int - 'A' as int + 10)
    else None
  }

  function Digits(bs: seq<byte>): (s: string)
    ensures |s| == 2 * |bs|
  {
    if bs == [] then ""
    else [DIGITS[bs[0] as int / 16], DIGITS[bs[0] as int % 16]] + Digits(bs[1..])
  }

  /** The hex string of a byte string, as web3 renders it. */
  function Encode(bs: seq<byte>): (s: string)
    ensures |s| == 2 + 2 * |bs| && s[..2] == "0x"
  {
    "0x" + Digits(bs)
  }

  function ParseDigits(s: string): (r: Option<seq<byte>>)
    ensures r.Some? ==> 2 * |r.value| == |s|
  {
    if s == [] then Some([])
    else if |s| == 1 then None
    else
      match (DigitValue(s[0]), DigitValue(s[1]), ParseDigits(s[2..]))
      case (Some(hi), Some(lo), Some(rest)) => Some([(16 * hi + lo) as byte] + rest)
      case _ => None
  }

  /** The bytes a `0x`-prefixed hex string stands for, if it is one. */
  function Parse(s: string): (r: Option<seq<byte>>)
    ensures r.Some? ==> |s| == 2 + 2 * |r.value|
  {
    if |s| >= 2 && s[..2] == "0x" then ParseDigits(s[2..]) else None
  }

  lemma DigitOfValue(n: nat)
    requires n < 16
    ensures DigitValue(DIGITS[n]) == Some(n)
  {
  }

  lemma {:induction false} ParseDigitsOfDigits(bs: seq<byte>)
    ensures ParseDigits(Digits(bs)) == Some(bs)
  {
    if bs != [] {
      var b := bs[0] as int;
      DigitOfValue(b / 16);
      DigitOfValue(b % 16);
      ParseDigitsOfDigits(bs[1..]);
      var s := Digits(bs);
      assert s[2..] == Digits(bs[1..]);
      assert [(16 * (b / 16) + b % 16) as byte] + bs[1..] == bs;
    }
  }

  /** Parsing undoes rendering: the hex string carries exactly the bytes it was made from. */
  lemma ParseEncode(bs: seq<byte>)
    ensures Parse(Encode(bs)) == Some(bs)
  {
    var s := Encode(bs);
    assert s[2..] == Digits(bs);
    ParseDigitsOfDigits(bs);
  }

  /** Distinct byte strings have distinct hex strings. */
  lemma EncodeInjective(a: seq<byte>, b: seq<byte>)
    requires Encode(a) == Encode(b)
    ensures a == b
  {
    ParseEncode(a);
    ParseEncode(b);
  }
}
