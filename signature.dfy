/**
 * `IoTDeviceRegistrar.decodeSignature`: splits the device's hex signature into r and s,
 * tries public-key recovery with v = 0x1c and then v = 0x1b (27 and 28, the recovery
 * values of Appendix F of the Ethereum Yellow Paper), and keeps the first v whose
 * recovered address equals the expected signer up to letter case.
 */
module SignatureDecoding {
  import opened Js
  import opened Protocol

  const V28 := "0x1c"
  const V27 := "0x1b"

  /** r: the first 66 characters, `0x` prefix included. */
  function SliceR(signature: string): string
  {
    Substring(signature, 0, 66)
  }

  /** s: `0x` followed by characters 66 to 130. */
  function SliceS(signature: string): string
  {
    "0x" + Substring(signature, 66, 130)
  }

  datatype Decoded = Decoded(r: string, s: string, v: string)

  /** The three ways `decodeSignature` ends: it throws, returns `null`, or returns {r, s, v}. */
  datatype DecodeOutcome = Threw(failure: Failure) | NoMatch | Match(sig: Decoded)

  /** recover(digest, v, r, s) produced an address equal to signer up to case. */
  predicate RecoversTo(recover: (string, string, string, string) -> Recovered,
                       digest: string, v: string, r: string, s: string, signer: string)
  {
    var a := recover(digest, v, r, s);
    a.Recovered? && EqualsIgnoringCase(a.address, signer)
  }

  /** Both recoveries returned: neither threw. */
  predicate BothRecover(recover: (string, string, string, string) -> Recovered,
                        digest: string, signature: string)
  {
    && recover(digest, V28, SliceR(signature), SliceS(signature)).Recovered?
    && recover(digest, V27, SliceR(signature), SliceS(signature)).Recovered?
  }

  function DecodeSignature(recover: (string, string, string, string) -> Recovered,
                           digest: string, signature: JsValue, signer: string): (out: DecodeOutcome)
    // it throws exactly when the signature is not a string or a recovery throws
    ensures out.Threw? <==> !signature.Str? || !BothRecover(recover, digest, signature.s)
    ensures out.Threw? ==> out.failure == (if signature.Str? then RecoveryThrew else NotAString(SignatureValue))
    // every returned triple carries the sliced r and s and a v that recovers to the signer
    ensures out.Match? ==> && signature.Str?
                           && out.sig.r == SliceR(signature.s) && out.sig.s == SliceS(signature.s)
                           && (out.sig.v == V28 || out.sig.v == V27)
                           && RecoversTo(recover, digest, out.sig.v, out.sig.r, out.sig.s, signer)
    // 0x1c wins whenever it matches; 0x1b only when 0x1c does not
    ensures signature.Str? && BothRecover(recover, digest, signature.s) ==>
      (RecoversTo(recover, digest, V28, SliceR(signature.s), SliceS(signature.s), signer) ==>
         out == Match(Decoded(SliceR(signature.s), SliceS(signature.s), V28)))
    ensures out.Match? && out.sig.v == V27 ==>
      !RecoversTo(recover, digest, V28, out.sig.r, out.sig.s, signer)
    // null exactly when both recoveries succeed and neither matches: no default v
    ensures out.NoMatch? <==> && signature.Str? && BothRecover(recover, digest, signature.s)
                              && !RecoversTo(recover, digest, V28, SliceR(signature.s), SliceS(signature.s), signer)
                              && !RecoversTo(recover, digest, V27, SliceR(signature.s), SliceS(signature.s), signer)
  {
    match signature
    case Str(sig) =>
      var address1 := recover(digest, V28, Substring(sig, 0, 66), "0x" + Substring(sig, 66, 130));
      var address2 := recover(digest, V27, Substring(sig, 0, 66), "0x" + Substring(sig, 66, 130));
      var r := Substring(sig, 0, 66);
      var s := "0x" + Substring(sig, 66, 130);
      if address1.RecoverThrows? || address2.RecoverThrows? then Threw(RecoveryThrew)
      else if ToLower(address1.address) == ToLower(signer) then Match(Decoded(r, s, V28))
      else if ToLower(address2.address) == ToLower(signer) then Match(Decoded(r, s, V27))
      else NoMatch
    case _ => Threw(NotAString(SignatureValue))
  }

  /** With a full-length signature, r and s are 66 characters: `0x` and 64 hex digits each. */
  lemma SlicesOfFullSignature(signature: string)
    requires |signature| >= 130
    ensures SliceR(signature) == signature[..66] && |SliceR(signature)| == 66
    ensures SliceS(signature) == "0x" + signature[66..130] && |SliceS(signature)| == 66
  {
  }

  /** For any length the slices are clamped to the string. */
  lemma SlicesClamp(signature: string)
    ensures SliceR(signature) == signature[..Min(66, |signature|)]
    ensures SliceS(signature) == "0x" + signature[Min(66, |signature|)..Min(130, |signature|)]
  {
  }

  /** r and s together give back the first 130 characters. */
  lemma SlicesRejoin(signature: string)
    requires |signature| >= 130
    ensures SliceR(signature) + SliceS(signature)[2..] == signature[..130]
  {
    SlicesOfFullSignature(signature);
    assert SliceS(signature)[2..] == signature[66..130];
    assert signature[..66] + signature[66..130] == signature[..130];
  }

  /** Characters from index 130 on, such as an appended v byte, do not affect the result. */
  lemma TrailingCharactersIgnored(recover: (string, string, string, string) -> Recovered,
                                  digest: string, signature: string, tail: string, signer: string)
    requires |signature| >= 130
    ensures DecodeSignature(recover, digest, Str(signature + tail), signer)
         == DecodeSignature(recover, digest, Str(signature), signer)
  {
    var full := signature + tail;
    assert full[..66] == signature[..66];
    assert full[66..130] == signature[66..130];
    SlicesOfFullSignature(signature);
    SlicesOfFullSignature(full);
  }

  /** The letter case of the expected signer does not matter. */
  lemma SignerCaseIrrelevant(recover: (string, string, string, string) -> Recovered,
                             digest: string, signature: JsValue, signer1: string, signer2: string)
    requires EqualsIgnoringCase(signer1, signer2)
    ensures DecodeSignature(recover, digest, signature, signer1)
         == DecodeSignature(recover, digest, signature, signer2)
  {
  }

  /**
   * Completeness: when neither recovery throws and some v among 0x1c, 0x1b recovers
   * to the signer, a triple is returned.
   */
  lemma MatchingSignatureAccepted(recover: (string, string, string, string) -> Recovered,
                                  digest: string, signature: string, signer: string, v: string)
    requires v == V28 || v == V27
    requires BothRecover(recover, digest, signature)
    requires RecoversTo(recover, digest, v, SliceR(signature), SliceS(signature), signer)
    ensures DecodeSignature(recover, digest, Str(signature), signer).Match?
  {
  }
}
