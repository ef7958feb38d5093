/**
 * The standalone `signDigest.js` tool: it asks a local device service for its DID,
 * has the device sign a given digest, and decodes the signature against the DID's
 * address with its own copy of `decodeSignature`, emitting v, r and s.
 */
module SignDigest {
  import opened Js
  import opened Protocol
  import opened SignatureDecoding

  /** The device service the tool talks to. */
  const DEVICE_SERVICE_URL := "http://127.0.0.1:8000"

  /** `DeviceService.fetchDevice`: GET {url}/did, returned only when `data?.did` is truthy. */
  function FetchDevice(url: string, env: Env): Step<DeviceInfo>
  {
    match env.did(url + "/did")
    case Rejected => Step([GetDid(url + "/did")], Fail(Transport(DidKind)))
    case Answer(did) =>
      if Truthy(did) then Step([GetDid(url + "/did")], Ok(DeviceInfo(did)))
      else Step([GetDid(url + "/did")], Fail(NoDevice))
  }

  /**
   * `DeviceService.requestSignature`: POST {hex: digest} to {url}/sign; unlike the
   * registrar's request, a falsy `data?.sign` is an error.
   */
  function RequestSignature(url: string, digest: string, env: Env): Step<JsValue>
  {
    match env.sign(url + "/sign", digest)
    case Rejected => Step([PostSign(url + "/sign", digest)], Fail(Transport(SignKind)))
    case Answer(sign) =>
      if Truthy(sign) then Step([PostSign(url + "/sign", digest)], Ok(sign))
      else Step([PostSign(url + "/sign", digest)], Fail(SigningFailed))
  }

  /** The device service answers exactly one request per call, and refuses falsy fields. */
  lemma DeviceServiceChecks(url: string, digest: string, env: Env)
    ensures var st := FetchDevice(url, env);
      && st.calls == [GetDid(url + "/did")]
      && (st.result.Ok? <==> env.did(url + "/did").Answer? && Truthy(env.did(url + "/did").value))
      && (st.result.Ok? ==> st.result.value.did == env.did(url + "/did").value)
      && (st.result.Fail? ==> st.result.failure in {Transport(DidKind), NoDevice})
    ensures var st := RequestSignature(url, digest, env);
      && st.calls == [PostSign(url + "/sign", digest)]
      && (st.result.Ok? <==> env.sign(url + "/sign", digest).Answer? && Truthy(env.sign(url + "/sign", digest).value))
      && (st.result.Ok? ==> st.result.value == env.sign(url + "/sign", digest).value)
      && (st.result.Fail? ==> st.result.failure in {Transport(SignKind), SigningFailed})
  {
  }

  /** The tool's own `decodeSignature`, written out as the file has it. */
  function Decode(recover: (string, string, string, string) -> Recovered,
                  digest: string, signature: JsValue, signer: string): DecodeOutcome
  {
    if !signature.Str? then Threw(NotAString(SignatureValue))
    else
      var sig := signature.s;
      var signerAddress1 := recover(digest, "0x1c", Substring(sig, 0, 66), "0x" + Substring(sig, 66, 130));
      var signerAddress2 := recover(digest, "0x1b", Substring(sig, 0, 66), "0x" + Substring(sig, 66, 130));
      if signerAddress1.RecoverThrows? || signerAddress2.RecoverThrows? then Threw(RecoveryThrew)
      else
        var r := Substring(sig, 0, 66);
        var s := "0x" + Substring(sig, 66, 130);
        if ToLower(signerAddress1.address) == ToLower(signer) then Match(Decoded(r, s, "0x1c"))
        else if ToLower(signerAddress2.address) == ToLower(signer) then Match(Decoded(r, s, "0x1b"))
        else NoMatch
  }

  /** The copy decodes exactly as `IoTDeviceRegistrar.decodeSignature` does, for every input. */
  lemma DecodeAgreesWithRegistrar(recover: (string, string, string, string) -> Recovered,
                                  digest: string, signature: JsValue, signer: string)
    ensures Decode(recover, digest, signature, signer) == DecodeSignature(recover, digest, signature, signer)
  {
  }

  /** What `signDigest(digest)` emits: the v, r, s it logs. */
  datatype Emitted = Emitted(v: string, r: string, s: string)

  /**
   * `signDigest(digest)`: fetch the DID, strip `did:io:` to get the signer, request the
   * signature, decode, and destructure the result; a `null` decode throws there.
   */
  function SignDigestRun(env: Env, recover: (string, string, string, string) -> Recovered,
                         digest: string): Step<Emitted>
  {
    var device := FetchDevice(DEVICE_SERVICE_URL, env);
    if device.result.Fail? then Step(device.calls, Fail(device.result.failure))
    else if !device.result.value.did.Str? then Step(device.calls, Fail(NotAString(DidValue)))
    else
      var signer := DidAddress(device.result.value.did.s);
      var signature := RequestSignature(DEVICE_SERVICE_URL, digest, env);
      if signature.result.Fail? then Step(device.calls + signature.calls, Fail(signature.result.failure))
      else
        match Decode(recover, digest, signature.result.value, signer)
        case Threw(f) => Step(device.calls + signature.calls, Fail(f))
        case NoMatch => Step(device.calls + signature.calls, Fail(NullDestructure))
        case Match(d) => Step(device.calls + signature.calls, Ok(Emitted(d.v, d.r, d.s)))
  }

  /**
   * Only verified values are emitted: the DID was a string, the device's signature was a
   * string, r and s are its slices, and v is 0x1c or 0x1b and recovers, on the digest,
   * to the DID's address; 0x1b is emitted only when 0x1c does not recover to it.
   */
  lemma EmitsOnlyVerified(env: Env, recover: (string, string, string, string) -> Recovered, digest: string)
    requires SignDigestRun(env, recover, digest).result.Ok?
    ensures var out := SignDigestRun(env, recover, digest).result.value;
      var did := env.did(DEVICE_SERVICE_URL + "/did");
      var sign := env.sign(DEVICE_SERVICE_URL + "/sign", digest);
      && did.Answer? && did.value.Str?
      && sign.Answer? && sign.value.Str?
      && out.r == SliceR(sign.value.s) && out.s == SliceS(sign.value.s)
      && (out.v == V28 || out.v == V27)
      && RecoversTo(recover, digest, out.v, out.r, out.s, DidAddress(did.value.s))
      && (out.v == V27 ==> !RecoversTo(recover, digest, V28, out.r, out.s, DidAddress(did.value.s)))
  {
    var did := env.did(DEVICE_SERVICE_URL + "/did");
    var sign := env.sign(DEVICE_SERVICE_URL + "/sign", digest);
    DecodeAgreesWithRegistrar(recover, digest, sign.value, DidAddress(did.value.s));
  }

  /**
   * A `null` decode emits nothing: with both recoveries returning and neither matching
   * the DID's address, the run ends in the destructuring TypeError after the two requests.
   */
  lemma NullDecodeEmitsNothing(env: Env, recover: (string, string, string, string) -> Recovered,
                               digest: string, did: string, signature: string)
    requires env.did(DEVICE_SERVICE_URL + "/did") == Answer(Str(did)) && did != ""
    requires env.sign(DEVICE_SERVICE_URL + "/sign", digest) == Answer(Str(signature)) && signature != ""
    requires BothRecover(recover, digest, signature)
    requires !RecoversTo(recover, digest, V28, SliceR(signature), SliceS(signature), DidAddress(did))
    requires !RecoversTo(recover, digest, V27, SliceR(signature), SliceS(signature), DidAddress(did))
    ensures SignDigestRun(env, recover, digest)
         == Step([GetDid(DEVICE_SERVICE_URL + "/did"), PostSign(DEVICE_SERVICE_URL + "/sign", digest)],
                 Fail(NullDestructure))
  {
    DecodeAgreesWithRegistrar(recover, digest, Str(signature), DidAddress(did));
  }

  /**
   * Conversely, a string DID and a non-empty string signature that recovers to the DID's
   * address under 0x1c or 0x1b, with neither recovery throwing, are always decoded and emitted.
   */
  lemma MatchingSignatureEmitted(env: Env, recover: (string, string, string, string) -> Recovered,
                                 digest: string, did: string, signature: string, v: string)
    requires env.did(DEVICE_SERVICE_URL + "/did") == Answer(Str(did)) && did != ""
    requires env.sign(DEVICE_SERVICE_URL + "/sign", digest) == Answer(Str(signature)) && signature != ""
    requires v == V28 || v == V27
    requires BothRecover(recover, digest, signature)
    requires RecoversTo(recover, digest, v, SliceR(signature), SliceS(signature), DidAddress(did))
    ensures SignDigestRun(env, recover, digest).result.Ok?
    ensures SignDigestRun(env, recover, digest).result.value.r == SliceR(signature)
  {
    DecodeAgreesWithRegistrar(recover, digest, Str(signature), DidAddress(did));
    MatchingSignatureAccepted(recover, digest, signature, DidAddress(did), v);
  }

  /** The tool makes the DID request and, once that yields a string DID, the signing request, and no more. */
  lemma SignDigestCalls(env: Env, recover: (string, string, string, string) -> Recovered, digest: string)
    ensures var run := SignDigestRun(env, recover, digest);
      var did := env.did(DEVICE_SERVICE_URL + "/did");
      && run.calls[..1] == [GetDid(DEVICE_SERVICE_URL + "/did")]
      && (run.calls == [GetDid(DEVICE_SERVICE_URL + "/did")] <==>
            !(did.Answer? && Truthy(did.value) && did.value.Str?))
      && (|run.calls| != 1 ==>
            run.calls == [GetDid(DEVICE_SERVICE_URL + "/did"), PostSign(DEVICE_SERVICE_URL + "/sign", digest)])
  {
  }
}
