/**
 * Static 32-byte words of the Solidity contract ABI ("Formal Specification of the
 * Encoding"): `uint256` is the big-endian value, `address` is the 20 bytes left-padded
 * with zeros, `bytes32` is the word itself, and a tuple of static values is the
 * concatenation of their words.
 */
module Abi {
  newtype byte = x: int | 0 <= x < 256

  /** 256 to the power n: the number of values that fit in n bytes. */
  function Pow256(n: nat): (p: nat)
    ensures p >= 1
  {
    if n == 0 then 1 else 256 * Pow256(n - 1)
  }

  type Word = s: seq<byte> | |s| == 32 witness seq(32, i => 0)
  type Address = s: seq<byte> | |s| == 20 witness seq(20, i => 0)
  /** 2^256: one more than the largest `uint256`. */
  const UINT256_LIMIT: nat := 0x10000000000000000000000000000000000000000000000000000000000000000

  type Uint256 = n: nat | n < UINT256_LIMIT

  lemma {:induction false} Pow256Add(a: nat, b: nat)
    ensures Pow256(a + b) == Pow256(a) * Pow256(b)
  {
    if a > 0 {
      Pow256Add(a - 1, b);
      assert Pow256(a + b) == 256 * Pow256(a - 1 + b);
    }
  }

  lemma Pow256Of32()
    ensures Pow256(32) == UINT256_LIMIT
  {
    assert Pow256(1) == 256;
    Pow256Add(1, 1);
    Pow256Add(2, 2);
    Pow256Add(4, 4);
    Pow256Add(8, 8);
    Pow256Add(16, 16);
    assert Pow256(2) == 0x1_0000;
    assert Pow256(4) == 0x1_0000_0000;
    assert Pow256(8) == 0x1_0000_0000_0000_0000;
    assert Pow256(16) == 0x1_0000_0000_0000_0000_0000_0000_0000_0000;
  }

  /** The unsigned value of a big-endian byte string. */
  function FromBigEndian(bs: seq<byte>): (n: nat)
    ensures n < Pow256(|bs|)
  {
    if bs == [] then 0 else FromBigEndian(bs[..|bs| - 1]) * 256 + bs[|bs| - 1] as nat
  }

  /** The low len bytes of n, written big-endian. */
  function BigEndian(n: nat, len: nat): (bs: seq<byte>)
    ensures |bs| == len
  {
    if len == 0 then [] else BigEndian(n / 256, len - 1) + [(n % 256) as byte]
  }

  /** A value below 256^len is recovered from its len-byte encoding. */
  lemma {:induction false} FromBigEndianOfBigEndian(n: nat, len: nat)
    requires n < Pow256(len)
    ensures FromBigEndian(BigEndian(n, len)) == n
  {
    if len > 0 {
      var high := BigEndian(n / 256, len - 1);
      FromBigEndianOfBigEndian(n / 256, len - 1);
      var bs := BigEndian(n, len);
      assert bs[..|bs| - 1] == high;
    }
  }

  /** Big-endian writing is the inverse of reading: a byte string of length len is its own encoding. */
  lemma {:induction false} BigEndianOfFromBigEndian(bs: seq<byte>)
    ensures BigEndian(FromBigEndian(bs), |bs|) == bs
  {
    if bs != [] {
      var init := bs[..|bs| - 1];
      BigEndianOfFromBigEndian(init);
      var n := FromBigEndian(bs);
      assert n / 256 == FromBigEndian(init);
      assert n % 256 == bs[|bs| - 1] as nat;
      assert bs == init + [bs[|bs| - 1]];
    }
  }

  /** Bytes in an ABI word. */
  const WORD_SIZE: nat := 32

  /** The `uint256` word of n. */
  function UintWord(n: Uint256): Word
  {
    BigEndian(n, WORD_SIZE)
  }

  /** The word holds exactly n. */
  lemma UintWordValue(n: Uint256)
    ensures FromBigEndian(UintWord(n)) == n
  {
    Pow256Of32();
    FromBigEndianOfBigEndian(n, WORD_SIZE);
  }

  /** The `address` word of a: twelve zero bytes, then the address. */
  function AddressWord(a: Address): (w: Word)
    ensures forall i :: 0 <= i < 12 ==> w[i] == 0
    ensures w[12..] == a
  {
    seq(12, i => 0) + a
  }

  /** The encoding of a tuple of static words: the words one after another. */
  function Encode(words: seq<Word>): (bs: seq<byte>)
    ensures |bs| == 32 * |words|
  {
    if words == [] then [] else words[0] + Encode(words[1..])
  }

  /** Splits an encoding back into its words. */
  function Decode(bs: seq<byte>): (words: seq<Word>)
    requires |bs| % 32 == 0
    ensures 32 * |words| == |bs|
  {
    if bs == [] then [] else [bs[..32]] + Decode(bs[32..])
  }

  lemma {:induction false} DecodeEncode(words: seq<Word>)
    ensures Decode(Encode(words)) == words
  {
    if words != [] {
      DecodeEncode(words[1..]);
      var bs := Encode(words);
      assert bs[..32] == words[0];
      assert bs[32..] == Encode(words[1..]);
    }
  }

  /** Word i of an encoding occupies bytes [32 i, 32 i + 32). */
  lemma {:induction false} EncodeSlot(words: seq<Word>, i: nat)
    requires i < |words|
    ensures Encode(words)[32 * i..32 * i + 32] == words[i]
  {
    if i > 0 {
      EncodeSlot(words[1..], i - 1);
      var rest := Encode(words[1..]);
      assert Encode(words) == words[0] + rest;
      assert Encode(words)[32 * i..32 * i + 32] == rest[32 * (i - 1)..32 * (i - 1) + 32];
    }
  }

  /** Equal encodings come only from equal word tuples. */
  lemma EncodeInjective(a: seq<Word>, b: seq<Word>)
    requires Encode(a) == Encode(b)
    ensures a == b
  {
    DecodeEncode(a);
    DecodeEncode(b);
  }

  lemma UintWordInjective(m: Uint256, n: Uint256)
    requires UintWord(m) == UintWord(n)
    ensures m == n
  {
    UintWordValue(m);
    UintWordValue(n);
  }

  lemma AddressWordInjective(a: Address, b: Address)
    requires AddressWord(a) == AddressWord(b)
    ensures a == b
  {
  }
}
