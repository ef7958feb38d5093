/**
 * The EIP-712 typed-data digest of an ioID registration permit, as `computeDigest`
 * builds it. Keccak-256 is a parameter: nothing is assumed of it except that it maps
 * bytes to a 32-byte word.
 */
module Digest {
  import opened Abi
  import opened Wrappers

  const DOMAIN_TYPE := "EIP712Domain(string name,string version,uint256 chainId,address verifyingContract)"
  const DOMAIN_NAME := "ioIDRegistry"
  const DOMAIN_VERSION := "1"
  const PERMIT_TYPE := "Permit(address owner,uint256 nonce)"

  /**
   * The bytes web3 hashes for a non-hex string: its UTF-8 encoding, which for the
   * ASCII type strings, name and version hashed here is one byte per character.
   */
  function Utf8(s: string): (bs: seq<byte>)
    ensures |bs| == |s|
    ensures forall i :: 0 <= i < |s| && s[i] < 128 as char ==> bs[i] as int == s[i] as int
  {
    seq(|s|, i requires 0 <= i < |s| => (s[i] as int % 256) as byte)
  }

  /** The five static words of the domain: type hash, name hash, version hash, chain id, registry. */
  function DomainFields(keccak: seq<byte> -> Word, chainId: Uint256, registry: Address): seq<Word>
  {
    [keccak(Utf8(DOMAIN_TYPE)), keccak(Utf8(DOMAIN_NAME)), keccak(Utf8(DOMAIN_VERSION)),
     UintWord(chainId), AddressWord(registry)]
  }

  /** The ABI encoding the domain separator hashes. */
  function DomainEncoding(keccak: seq<byte> -> Word, chainId: Uint256, registry: Address): (bs: seq<byte>)
    ensures |bs| == 160
  {
    Encode(DomainFields(keccak, chainId, registry))
  }

  function DomainSeparator(keccak: seq<byte> -> Word, chainId: Uint256, registry: Address): Word
  {
    keccak(DomainEncoding(keccak, chainId, registry))
  }

  /** The three static words of `Permit(address owner,uint256 nonce)`. */
  function PermitFields(keccak: seq<byte> -> Word, owner: Address, nonce: Uint256): seq<Word>
  {
    [keccak(Utf8(PERMIT_TYPE)), AddressWord(owner), UintWord(nonce)]
  }

  function StructEncoding(keccak: seq<byte> -> Word, owner: Address, nonce: Uint256): (bs: seq<byte>)
    ensures |bs| == 96
  {
    Encode(PermitFields(keccak, owner, nonce))
  }

  function StructHash(keccak: seq<byte> -> Word, owner: Address, nonce: Uint256): Word
  {
    keccak(StructEncoding(keccak, owner, nonce))
  }

  /** `encodePacked("\x19\x01", domainSeparator, dataHash)`. */
  function Packed(domainSeparator: Word, dataHash: Word): (data: seq<byte>)
    ensures |data| == 66 && data[0] == 0x19 && data[1] == 0x01
  {
    [0x19, 0x01] + domainSeparator + dataHash
  }

  /** Reads the two words back out of packed data, if it has the packed shape. */
  function Unpack(data: seq<byte>): (r: Option<(Word, Word)>)
    ensures r.Some? ==> Packed(r.value.0, r.value.1) == data
  {
    if |data| == 66 && data[0] == 0x19 && data[1] == 0x01 then
      assert data == [0x19, 0x01] + data[2..34] + data[34..];
      Some((data[2..34], data[34..]))
    else None
  }

  lemma UnpackPacked(domainSeparator: Word, dataHash: Word)
    ensures Unpack(Packed(domainSeparator, dataHash)) == Some((domainSeparator, dataHash))
  {
    var data := Packed(domainSeparator, dataHash);
    assert data[2..34] == domainSeparator && data[34..] == dataHash;
  }

  /** What `computeDigest` returns: the packed preimage and its keccak digest. */
  datatype DigestResult = DigestResult(data: seq<byte>, digest: Word)

  function ComputeDigest(keccak: seq<byte> -> Word, chainId: Uint256, registry: Address,
                         owner: Address, nonce: Uint256): DigestResult
  {
    var data := Packed(DomainSeparator(keccak, chainId, registry), StructHash(keccak, owner, nonce));
    DigestResult(data, keccak(data))
  }

  /**
   * The packed data is the 66 bytes 0x19 0x01, domain separator, struct hash, and the
   * digest is keccak of exactly that data.
   */
  lemma ComputeDigestLayout(keccak: seq<byte> -> Word, chainId: Uint256, registry: Address,
                            owner: Address, nonce: Uint256)
    ensures var d := ComputeDigest(keccak, chainId, registry, owner, nonce);
      && |d.data| == 66 && d.data[..2] == [0x19, 0x01]
      && d.data[2..34] == DomainSeparator(keccak, chainId, registry)
      && d.data[34..] == StructHash(keccak, owner, nonce)
      && d.digest == keccak(d.data)
      && Unpack(d.data) == Some((DomainSeparator(keccak, chainId, registry), StructHash(keccak, owner, nonce)))
  {
    UnpackPacked(DomainSeparator(keccak, chainId, registry), StructHash(keccak, owner, nonce));
  }

  /** The domain encoding puts its five words in declaration order, 32 bytes each. */
  lemma DomainLayout(keccak: seq<byte> -> Word, chainId: Uint256, registry: Address)
    ensures var bs := DomainEncoding(keccak, chainId, registry);
      && bs[0..32] == keccak(Utf8(DOMAIN_TYPE))
      && bs[32..64] == keccak(Utf8(DOMAIN_NAME))
      && bs[64..96] == keccak(Utf8(DOMAIN_VERSION))
      && bs[96..128] == UintWord(chainId)
      && bs[128..160] == AddressWord(registry)
  {
    var fields := DomainFields(keccak, chainId, registry);
    EncodeSlot(fields, 0);
    EncodeSlot(fields, 1);
    EncodeSlot(fields, 2);
    EncodeSlot(fields, 3);
    EncodeSlot(fields, 4);
  }

  /** The struct encoding: type hash, then the owner, then the nonce. */
  lemma StructLayout(keccak: seq<byte> -> Word, owner: Address, nonce: Uint256)
    ensures var bs := StructEncoding(keccak, owner, nonce);
      && bs[0..32] == keccak(Utf8(PERMIT_TYPE))
      && bs[32..64] == AddressWord(owner)
      && bs[64..96] == UintWord(nonce)
  {
    var fields := PermitFields(keccak, owner, nonce);
    EncodeSlot(fields, 0);
    EncodeSlot(fields, 1);
    EncodeSlot(fields, 2);
  }

  /**
   * The preimages are unambiguous: equal domain encodings have equal chain id and
   * registry, so that any binding the digest offers rests on keccak alone.
   */
  lemma DomainEncodingInjective(keccak: seq<byte> -> Word, c1: Uint256, r1: Address, c2: Uint256, r2: Address)
    requires DomainEncoding(keccak, c1, r1) == DomainEncoding(keccak, c2, r2)
    ensures c1 == c2 && r1 == r2
  {
    EncodeInjective(DomainFields(keccak, c1, r1), DomainFields(keccak, c2, r2));
    UintWordInjective(c1, c2);
    AddressWordInjective(r1, r2);
  }

  lemma StructEncodingInjective(keccak: seq<byte> -> Word, o1: Address, n1: Uint256, o2: Address, n2: Uint256)
    requires StructEncoding(keccak, o1, n1) == StructEncoding(keccak, o2, n2)
    ensures o1 == o2 && n1 == n2
  {
    EncodeInjective(PermitFields(keccak, o1, n1), PermitFields(keccak, o2, n2));
    UintWordInjective(n1, n2);
    AddressWordInjective(o1, o2);
  }

  lemma PackedInjective(d1: Word, h1: Word, d2: Word, h2: Word)
    requires Packed(d1, h1) == Packed(d2, h2)
    ensures d1 == d2 && h1 == h2
  {
    UnpackPacked(d1, h1);
    UnpackPacked(d2, h2);
  }
}
