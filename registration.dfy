/**
 * The registration protocol of `IoTDeviceRegistrar` as a function of the registrar's
 * configuration and of what the outside world answers: the calls made, in order, and
 * how the attempt ends. The class in module Registrar performs the same steps on its
 * fields and is proved to produce exactly this trace and outcome.
 */
module Registration {
  import opened Abi
  import opened Js
  import opened Protocol
  import opened Digest
  import opened SignatureDecoding
  import Hex

  /** The registrar fields the protocol reads. */
  datatype Config = Config(
    deviceServiceUrl: string, provider: string, registry: Address,
    ipfsServiceUrl: string, account: Address)

  /** The calls have the kinds of an initial part of order. */
  predicate Follows(calls: seq<Call>, order: seq<CallKind>)
  {
    |calls| <= |order| && forall i :: 0 <= i < |calls| ==> KindOf(calls[i]) == order[i]
  }

  /** The order in which `registerDevice` talks to the outside world. */
  const REGISTRATION_ORDER: seq<CallKind> :=
    [ChainIdKind, NonceKind, SignKind, DidDocKind, UploadKind, EstimateKind, GasPriceKind, SendKind]

  /** A call kind's position in REGISTRATION_ORDER; `fetchDevice`'s request is not part of it. */
  function Rank(kind: CallKind): int
  {
    match kind
    case ChainIdKind => 0
    case NonceKind => 1
    case SignKind => 2
    case DidDocKind => 3
    case UploadKind => 4
    case EstimateKind => 5
    case GasPriceKind => 6
    case SendKind => 7
    case DidKind => -1
  }

  /**
   * The kind of the call an exception is raised at: the rejected call itself, the
   * request whose answer failed its check, or, for a non-string DID, the chain id read
   * just before `replace` (line 114); every signature error follows the signing request.
   * `fetchDevice`'s request is where a missing device is reported.
   */
  function RaisedAt(f: Failure): CallKind
  {
    match f
    case Transport(kind) => kind
    case NoDevice => DidKind
    case NoDidDoc => DidDocKind
    case NotAString(site) => if site == DidValue then ChainIdKind else SignKind
    case SigningFailed => SignKind
    case RecoveryThrew => SignKind
    case NullDestructure => SignKind
    case InvalidSignature => SignKind
  }

  /** The attempt is non-empty and, if it failed, its last call is the one its exception is raised at. */
  predicate EndsAtFailure<T>(st: Step<T>)
  {
    st.calls != [] && (st.result.Fail? ==> KindOf(st.calls[|st.calls| - 1]) == RaisedAt(st.result.failure))
  }

  /** The calls are consecutive steps of REGISTRATION_ORDER, the first of them step first. */
  predicate InOrder(calls: seq<Call>, first: nat)
  {
    first + |calls| <= |REGISTRATION_ORDER| && forall i :: 0 <= i < |calls| ==> Rank(KindOf(calls[i])) == first + i
  }

  lemma InOrderConcat(a: seq<Call>, b: seq<Call>, first: nat)
    requires InOrder(a, first) && InOrder(b, first + |a|)
    ensures InOrder(a + b, first)
  {
  }

  /** Calls in order from the first step follow REGISTRATION_ORDER. */
  lemma InOrderFollows(calls: seq<Call>)
    requires InOrder(calls, 0)
    ensures Follows(calls, REGISTRATION_ORDER)
  {
    forall i | 0 <= i < |calls|
      ensures KindOf(calls[i]) == REGISTRATION_ORDER[i]
    {
      match KindOf(calls[i])
      case ChainIdKind =>
      case NonceKind =>
      case SignKind =>
      case DidDocKind =>
      case UploadKind =>
      case EstimateKind =>
      case GasPriceKind =>
      case SendKind =>
      case DidKind =>
    }
  }

  /** `fetchDevice`: GET {deviceServiceUrl}/did, accepted only with a truthy `did`. */
  function FetchDevicePhase(cfg: Config, env: Env): (st: Step<DeviceInfo>)
    ensures st.result.Fail? ==> st.result.failure in {Transport(DidKind), NoDevice}
    ensures st.calls == [GetDid(cfg.deviceServiceUrl + "/did")]
    ensures st.result.Ok? <==> env.did(cfg.deviceServiceUrl + "/did").Answer?
                               && Truthy(env.did(cfg.deviceServiceUrl + "/did").value)
    ensures st.result.Ok? ==> Truthy(st.result.value.did)
                              && st.result.value.did == env.did(cfg.deviceServiceUrl + "/did").value
  {
    var url := cfg.deviceServiceUrl + "/did";
    match env.did(url)
    case Rejected => Step([GetDid(url)], Fail(Transport(DidKind)))
    case Answer(did) =>
      if Truthy(did) then Step([GetDid(url)], Ok(DeviceInfo(did)))
      else Step([GetDid(url)], Fail(NoDevice))
  }

  /**
   * `computeDigest(did, owner)`: reads the chain id, then the device's nonce under the
   * DID's address, then hashes. The device address is only the nonce lookup key.
   */
  function DigestPhase(cfg: Config, did: JsValue, owner: Address, env: Env,
                       keccak: seq<byte> -> Word): (st: Step<DigestResult>)
    ensures st.result.Ok? ==> did.Str?
  {
    var chainCall := GetChainId(cfg.provider);
    match env.chainId(cfg.provider)
    case Rejected => Step([chainCall], Fail(Transport(ChainIdKind)))
    case Answer(chainId) =>
      if !did.Str? then Step([chainCall], Fail(NotAString(DidValue)))
      else
        var key := DidAddress(did.s);
        var nonceCall := GetNonce(cfg.provider, cfg.registry, key);
        match env.nonces(cfg.provider, cfg.registry, key)
        case Rejected => Step([chainCall, nonceCall], Fail(Transport(NonceKind)))
        case Answer(nonce) =>
          Step([chainCall, nonceCall], Ok(ComputeDigest(keccak, chainId, cfg.registry, owner, nonce)))
  }

  /**
   * The digest step asks for the chain id and then the nonce, stops at the first
   * rejection, and on success hashes the permit of owner and the nonce of the DID's
   * address under the registry's domain on that chain.
   */
  lemma DigestPhaseSteps(cfg: Config, did: JsValue, owner: Address, env: Env, keccak: seq<byte> -> Word)
    ensures var st := DigestPhase(cfg, did, owner, env, keccak);
      && InOrder(st.calls, 0) && st.calls != []
      && (st.result.Fail? && st.result.failure.Transport? ==>
            KindOf(st.calls[|st.calls| - 1]) == st.result.failure.kind)
      && (st.result.Fail? ==> st.result.failure in {Transport(ChainIdKind), NotAString(DidValue), Transport(NonceKind)})
      && (!did.Str? && env.chainId(cfg.provider).Answer? ==> st.result == Fail(NotAString(DidValue)))
      && (!did.Str? || env.chainId(cfg.provider).Rejected? ==> st.calls == [GetChainId(cfg.provider)])
      && EndsAtFailure(st)
    ensures var st := DigestPhase(cfg, did, owner, env, keccak);
      st.result.Ok? <==>
        && did.Str?
        && env.chainId(cfg.provider).Answer?
        && env.nonces(cfg.provider, cfg.registry, DidAddress(did.s)).Answer?
    ensures var st := DigestPhase(cfg, did, owner, env, keccak);
      st.result.Ok? ==>
        && st.calls == [GetChainId(cfg.provider), GetNonce(cfg.provider, cfg.registry, DidAddress(did.s))]
        && st.result.value == ComputeDigest(keccak, env.chainId(cfg.provider).value, cfg.registry, owner,
                                            env.nonces(cfg.provider, cfg.registry, DidAddress(did.s)).value)
  {
  }

  /** `requestSignature(digest)`: POST {hex: digest}; `data.sign` is returned unchecked. */
  function SignaturePhase(cfg: Config, digest: string, env: Env): Step<JsValue>
  {
    var url := cfg.deviceServiceUrl + "/sign";
    match env.sign(url, digest)
    case Rejected => Step([PostSign(url, digest)], Fail(Transport(SignKind)))
    case Answer(sign) => Step([PostSign(url, digest)], Ok(sign))
  }

  /** One POST of the digest; whatever the service answers is the signature, unchecked. */
  lemma SignaturePhaseSteps(cfg: Config, digest: string, env: Env)
    ensures var st := SignaturePhase(cfg, digest, env);
      && st.calls == [PostSign(cfg.deviceServiceUrl + "/sign", digest)]
      && (st.result.Ok? <==> env.sign(cfg.deviceServiceUrl + "/sign", digest).Answer?)
      && (st.result.Ok? ==> st.result.value == env.sign(cfg.deviceServiceUrl + "/sign", digest).value)
      && (st.result.Fail? ==> st.result.failure == Transport(SignKind))
  {
  }

  /** `requestDidDoc()`: GET {deviceServiceUrl}/diddoc, accepted only with a truthy `diddoc`. */
  function DidDocPhase(cfg: Config, env: Env): Step<JsValue>
  {
    var url := cfg.deviceServiceUrl + "/diddoc";
    match env.didDoc(url)
    case Rejected => Step([GetDidDoc(url)], Fail(Transport(DidDocKind)))
    case Answer(doc) =>
      if Truthy(doc) then Step([GetDidDoc(url)], Ok(doc)) else Step([GetDidDoc(url)], Fail(NoDidDoc))
  }

  /** One GET; a falsy document is refused with "No DID doc found at the provided device service URL." */
  lemma DidDocPhaseSteps(cfg: Config, env: Env)
    ensures var st := DidDocPhase(cfg, env);
      && st.calls == [GetDidDoc(cfg.deviceServiceUrl + "/diddoc")]
      && (st.result.Ok? <==> env.didDoc(cfg.deviceServiceUrl + "/diddoc").Answer?
                             && Truthy(env.didDoc(cfg.deviceServiceUrl + "/diddoc").value))
      && (st.result.Ok? ==> st.result.value == env.didDoc(cfg.deviceServiceUrl + "/diddoc").value)
      && (st.result.Fail? ==> st.result.failure in {Transport(DidDocKind), NoDidDoc})
  {
  }

  /** `uploadDidDocToIpfs(diddoc)`: POST {data, type: "ipfs"}; `data.cid` is returned unchecked. */
  function UploadPhase(cfg: Config, document: JsValue, env: Env): Step<JsValue>
  {
    var url := cfg.ipfsServiceUrl + "/upload";
    match env.upload(url, document)
    case Rejected => Step([PostUpload(url, document)], Fail(Transport(UploadKind)))
    case Answer(cid) => Step([PostUpload(url, document)], Ok(cid))
  }

  /** One POST of the document itself; the answered cid is taken as it is. */
  lemma UploadPhaseSteps(cfg: Config, document: JsValue, env: Env)
    ensures var st := UploadPhase(cfg, document, env);
      && st.calls == [PostUpload(cfg.ipfsServiceUrl + "/upload", document)]
      && (st.result.Ok? <==> env.upload(cfg.ipfsServiceUrl + "/upload", document).Answer?)
      && (st.result.Ok? ==> st.result.value == env.upload(cfg.ipfsServiceUrl + "/upload", document).value)
      && (st.result.Fail? ==> st.result.failure == Transport(UploadKind))
  {
  }

  /** estimateGas, then getGasPrice, then send with both, all from the registrar's account. */
  function SubmitPhase(cfg: Config, call: RegisterCall, env: Env): Step<string>
  {
    var estimate := EstimateGas(cfg.provider, cfg.registry, call, cfg.account);
    match env.estimateGas(cfg.provider, cfg.registry, call, cfg.account)
    case Rejected => Step([estimate], Fail(Transport(EstimateKind)))
    case Answer(gas) =>
      var price := GetGasPrice(cfg.provider);
      match env.gasPrice(cfg.provider)
      case Rejected => Step([estimate, price], Fail(Transport(GasPriceKind)))
      case Answer(gasPrice) =>
        var send := SendTransaction(cfg.provider, cfg.registry, call, cfg.account, gas, gasPrice);
        match env.send(cfg.provider, cfg.registry, call, cfg.account, gas, gasPrice)
        case Rejected => Step([estimate, price, send], Fail(Transport(SendKind)))
        case Answer(txHash) => Step([estimate, price, send], Ok(txHash))
  }

  /**
   * The estimate is always made; the transaction is sent, carrying the same call and
   * the estimated gas at the quoted price, only when both answered; the receipt's hash
   * is the result, and each rejection ends the step at the call that was rejected.
   */
  lemma SubmitPhaseSteps(cfg: Config, call: RegisterCall, env: Env)
    ensures var st := SubmitPhase(cfg, call, env);
      && 1 <= |st.calls| <= 3
      && st.calls[0] == EstimateGas(cfg.provider, cfg.registry, call, cfg.account)
      && InOrder(st.calls, 5)
      && (|st.calls| == 3 ==> st.calls[2].SendTransaction? && st.calls[2].call == call)
      && (st.result.Fail? ==> st.result.failure == Transport(KindOf(st.calls[|st.calls| - 1])))
    ensures var st := SubmitPhase(cfg, call, env);
      var gas := env.estimateGas(cfg.provider, cfg.registry, call, cfg.account);
      var price := env.gasPrice(cfg.provider);
      st.result.Ok? <==>
        && gas.Answer? && price.Answer?
        && |st.calls| == 3
        && st.calls[2] == SendTransaction(cfg.provider, cfg.registry, call, cfg.account, gas.value, price.value)
        && env.send(cfg.provider, cfg.registry, call, cfg.account, gas.value, price.value).Answer?
        && st.result.value == env.send(cfg.provider, cfg.registry, call, cfg.account, gas.value, price.value).value
  {
  }

  /** The `register` arguments as `registerDevice` assembles them. */
  function RegisterArguments(deviceContract: string, tokenId: int, owner: Address, didAddress: string,
                             digest: string, cid: JsValue, sig: Decoded): RegisterCall
  {
    RegisterCall(deviceContract, tokenId, owner, didAddress, digest, "ipfs://" + ToText(cid), sig.v, sig.r, sig.s)
  }

  /**
   * `const { r, s, v } = decodeSignature(...)` followed by `if (!r || !s || !v) throw`:
   * a thrown decode propagates, a `null` one fails to destructure, and an empty
   * component is an invalid signature.
   */
  function AcceptSignature(recover: (string, string, string, string) -> Recovered,
                           digest: string, signature: JsValue, didAddress: string): Result<Decoded>
  {
    match DecodeSignature(recover, digest, signature, didAddress)
    case Threw(f) => Fail(f)
    case NoMatch => Fail(NullDestructure)
    case Match(sig) =>
      if sig.r == "" || sig.s == "" || sig.v == "" then Fail(InvalidSignature) else Ok(sig)
  }

  /** The signature is accepted exactly when it decodes to a triple with no empty part. */
  lemma AcceptSignatureMeaning(recover: (string, string, string, string) -> Recovered,
                               digest: string, signature: JsValue, didAddress: string)
    ensures var r := AcceptSignature(recover, digest, signature, didAddress);
      var d := DecodeSignature(recover, digest, signature, didAddress);
      && (r.Ok? <==> d.Match? && d.sig.r != "" && d.sig.s != "" && d.sig.v != "")
      && (r.Ok? ==> d == Match(r.value) && RecoversTo(recover, digest, r.value.v, r.value.r, r.value.s, didAddress))
      && (d.NoMatch? ==> r == Fail(NullDestructure))
      && (d.Threw? ==> r == Fail(d.failure))
  {
  }

  /** From the DID document request on, once the signature has been accepted. */
  function AnchorAndSubmit(cfg: Config, owner: Address, deviceContract: string, tokenId: int,
                           didAddress: string, digest: string, sig: Decoded, env: Env): Step<string>
  {
    var doc := DidDocPhase(cfg, env);
    if doc.result.Fail? then Step(doc.calls, Fail(doc.result.failure))
    else
      var up := UploadPhase(cfg, doc.result.value, env);
      if up.result.Fail? then Step(doc.calls + up.calls, Fail(up.result.failure))
      else
        var call := RegisterArguments(deviceContract, tokenId, owner, didAddress, digest, up.result.value, sig);
        var submit := SubmitPhase(cfg, call, env);
        Step(doc.calls + up.calls + submit.calls, submit.result)
  }

  /**
   * After the signature check: DID document, upload, then the three ledger calls, in
   * that order; the `register` call is built from the uploaded document's cid.
   */
  lemma AnchorAndSubmitOrder(cfg: Config, owner: Address, deviceContract: string, tokenId: int,
                             didAddress: string, digest: string, sig: Decoded, env: Env)
    ensures var st := AnchorAndSubmit(cfg, owner, deviceContract, tokenId, didAddress, digest, sig, env);
      && InOrder(st.calls, 3)
      && (st.result.Ok? ==> |st.calls| == 5)
      && st.calls != []
      && (st.result.Fail? && st.result.failure.Transport? ==>
            KindOf(st.calls[|st.calls| - 1]) == st.result.failure.kind)
      && (st.result.Fail? ==> st.result.failure == NoDidDoc || st.result.failure.Transport?)
      && EndsAtFailure(st)
  {
    var st := AnchorAndSubmit(cfg, owner, deviceContract, tokenId, didAddress, digest, sig, env);
    var doc := DidDocPhase(cfg, env);
    DidDocPhaseSteps(cfg, env);
    if doc.result.Fail? {
      assert st == Step(doc.calls, Fail(doc.result.failure));
    } else {
      var up := UploadPhase(cfg, doc.result.value, env);
      UploadPhaseSteps(cfg, doc.result.value, env);
      InOrderConcat(doc.calls, up.calls, 3);
      if up.result.Fail? {
        assert st == Step(doc.calls + up.calls, Fail(up.result.failure));
      } else {
        var call := RegisterArguments(deviceContract, tokenId, owner, didAddress, digest, up.result.value, sig);
        var submit := SubmitPhase(cfg, call, env);
        SubmitPhaseSteps(cfg, call, env);
        InOrderConcat(doc.calls + up.calls, submit.calls, 3);
        var calls := doc.calls + up.calls + submit.calls;
        assert calls[|calls| - 1] == submit.calls[|submit.calls| - 1];
        assert st == Step(calls, submit.result);
      }
    }
  }

  /** Once the estimate is requested, its `register` call is built from the uploaded document's cid. */
  lemma AnchorAndSubmitBinding(cfg: Config, owner: Address, deviceContract: string, tokenId: int,
                               didAddress: string, digest: string, sig: Decoded, env: Env)
    ensures var st := AnchorAndSubmit(cfg, owner, deviceContract, tokenId, didAddress, digest, sig, env);
      var docUrl := cfg.deviceServiceUrl + "/diddoc";
      var upUrl := cfg.ipfsServiceUrl + "/upload";
      |st.calls| > 2 ==>
        && env.didDoc(docUrl).Answer? && env.upload(upUrl, env.didDoc(docUrl).value).Answer?
        && st.calls[2].EstimateGas?
        && st.calls[2].call == RegisterArguments(deviceContract, tokenId, owner, didAddress, digest,
                                                 env.upload(upUrl, env.didDoc(docUrl).value).value, sig)
        && (|st.calls| == 5 ==> st.calls[4].SendTransaction? && st.calls[4].call == st.calls[2].call)
  {
    var st := AnchorAndSubmit(cfg, owner, deviceContract, tokenId, didAddress, digest, sig, env);
    var doc := DidDocPhase(cfg, env);
    DidDocPhaseSteps(cfg, env);
    if doc.result.Ok? {
      var up := UploadPhase(cfg, doc.result.value, env);
      UploadPhaseSteps(cfg, doc.result.value, env);
      if up.result.Ok? {
        var call := RegisterArguments(deviceContract, tokenId, owner, didAddress, digest, up.result.value, sig);
        var submit := SubmitPhase(cfg, call, env);
        SubmitPhaseSteps(cfg, call, env);
        var calls := doc.calls + up.calls + submit.calls;
        assert st.calls == calls;
        assert calls[2] == submit.calls[0];
        assert |calls| == 5 ==> calls[4] == submit.calls[2];
      }
    }
  }

  /**
   * `registerDevice` once the digest is known: request the signature, check it against
   * the DID's address, then anchor the DID document and submit `register`.
   */
  function SignAndRegister(cfg: Config, owner: Address, deviceContract: string, tokenId: int,
                           didAddress: string, digest: string, env: Env,
                           recover: (string, string, string, string) -> Recovered): Step<string>
  {
    var sp := SignaturePhase(cfg, digest, env);
    if sp.result.Fail? then Step(sp.calls, Fail(sp.result.failure))
    else
      match AcceptSignature(recover, digest, sp.result.value, didAddress)
      case Fail(f) => Step(sp.calls, Fail(f))
      case Ok(sig) =>
        var rest := AnchorAndSubmit(cfg, owner, deviceContract, tokenId, didAddress, digest, sig, env);
        Step(sp.calls + rest.calls, rest.result)
  }

  /** `registerDevice(device, owner, deviceNFTContractAddress, tokenId)`: every call made and the end. */
  function RegisterRun(cfg: Config, device: DeviceInfo, owner: Address, deviceContract: string,
                       tokenId: int, env: Env, crypto: Crypto): Step<string>
  {
    var dp := DigestPhase(cfg, device.did, owner, env, crypto.keccak);
    if dp.result.Fail? then Step(dp.calls, Fail(dp.result.failure))
    else
      var t := SignAndRegister(cfg, owner, deviceContract, tokenId, DidAddress(device.did.s),
                               Hex.Encode(dp.result.value.digest), env, crypto.recover);
      Step(dp.calls + t.calls, t.result)
  }

  /** The signing request comes first; the rest follows in protocol order. */
  lemma SignAndRegisterOrder(cfg: Config, owner: Address, deviceContract: string, tokenId: int,
                             didAddress: string, digest: string, env: Env,
                             recover: (string, string, string, string) -> Recovered)
    ensures var t := SignAndRegister(cfg, owner, deviceContract, tokenId, didAddress, digest, env, recover);
      && InOrder(t.calls, 2)
      && t.calls != [] && t.calls[0] == PostSign(cfg.deviceServiceUrl + "/sign", digest)
      && (t.result.Ok? ==> |t.calls| == 6)
      && (t.result.Fail? && t.result.failure.Transport? ==>
            KindOf(t.calls[|t.calls| - 1]) == t.result.failure.kind)
      && EndsAtFailure(t)
  {
    var t := SignAndRegister(cfg, owner, deviceContract, tokenId, didAddress, digest, env, recover);
    var sp := SignaturePhase(cfg, digest, env);
    SignaturePhaseSteps(cfg, digest, env);
    if sp.result.Fail? {
      assert t == Step(sp.calls, Fail(sp.result.failure));
    } else {
      var accepted := AcceptSignature(recover, digest, sp.result.value, didAddress);
      SignatureFailures(recover, digest, sp.result.value, didAddress);
      if accepted.Fail? {
        assert t == Step(sp.calls, Fail(accepted.failure));
      } else {
        var rest := AnchorAndSubmit(cfg, owner, deviceContract, tokenId, didAddress, digest, accepted.value, env);
        AnchorAndSubmitOrder(cfg, owner, deviceContract, tokenId, didAddress, digest, accepted.value, env);
        InOrderConcat(sp.calls, rest.calls, 2);
        var calls := sp.calls + rest.calls;
        assert calls[|calls| - 1] == rest.calls[|rest.calls| - 1];
        assert t == Step(calls, rest.result);
      }
    }
  }

  /**
   * A signature that does not decode to a triple ends the stage right after the
   * signing request; the failures of the stage are its calls' rejections, the decoding
   * errors, "Invalid signature" from the check, and a falsy DID document.
   */
  lemma SignAndRegisterFailures(cfg: Config, owner: Address, deviceContract: string, tokenId: int,
                                didAddress: string, digest: string, env: Env,
                                recover: (string, string, string, string) -> Recovered)
    ensures var t := SignAndRegister(cfg, owner, deviceContract, tokenId, didAddress, digest, env, recover);
      var sign := env.sign(cfg.deviceServiceUrl + "/sign", digest);
      sign.Answer? && !DecodeSignature(recover, digest, sign.value, didAddress).Match? ==>
        && t.calls == [PostSign(cfg.deviceServiceUrl + "/sign", digest)]
        && t.result.Fail?
        && (DecodeSignature(recover, digest, sign.value, didAddress).NoMatch? ==> t.result.failure == NullDestructure)
    ensures var t := SignAndRegister(cfg, owner, deviceContract, tokenId, didAddress, digest, env, recover);
      var sign := env.sign(cfg.deviceServiceUrl + "/sign", digest);
      t.result == Fail(InvalidSignature) ==>
        sign.Answer? && AcceptSignature(recover, digest, sign.value, didAddress) == Fail(InvalidSignature)
  {
    var sp := SignaturePhase(cfg, digest, env);
    SignaturePhaseSteps(cfg, digest, env);
    if sp.result.Ok? {
      var accepted := AcceptSignature(recover, digest, sp.result.value, didAddress);
      AcceptSignatureMeaning(recover, digest, sp.result.value, didAddress);
      if accepted.Ok? {
        AnchorAndSubmitOrder(cfg, owner, deviceContract, tokenId, didAddress, digest, accepted.value, env);
      }
    }
  }

  /** Once the estimate is requested, its `register` call carries the signed and checked values. */
  lemma SignAndRegisterBinding(cfg: Config, owner: Address, deviceContract: string, tokenId: int,
                               didAddress: string, digest: string, env: Env,
                               recover: (string, string, string, string) -> Recovered)
    ensures var t := SignAndRegister(cfg, owner, deviceContract, tokenId, didAddress, digest, env, recover);
      var sign := env.sign(cfg.deviceServiceUrl + "/sign", digest);
      var docUrl := cfg.deviceServiceUrl + "/diddoc";
      var upUrl := cfg.ipfsServiceUrl + "/upload";
      |t.calls| > 3 ==>
        && sign.Answer?
        && AcceptSignature(recover, digest, sign.value, didAddress).Ok?
        && env.didDoc(docUrl).Answer? && env.upload(upUrl, env.didDoc(docUrl).value).Answer?
        && t.calls[0] == PostSign(cfg.deviceServiceUrl + "/sign", digest)
        && t.calls[3].EstimateGas?
        && t.calls[3].call == RegisterArguments(deviceContract, tokenId, owner, didAddress, digest,
                                                env.upload(upUrl, env.didDoc(docUrl).value).value,
                                                AcceptSignature(recover, digest, sign.value, didAddress).value)
        && (|t.calls| == 6 ==> t.calls[5].SendTransaction? && t.calls[5].call == t.calls[3].call)
  {
    var sp := SignaturePhase(cfg, digest, env);
    SignaturePhaseSteps(cfg, digest, env);
    if sp.result.Ok? {
      var accepted := AcceptSignature(recover, digest, sp.result.value, didAddress);
      if accepted.Ok? {
        var rest := AnchorAndSubmit(cfg, owner, deviceContract, tokenId, didAddress, digest, accepted.value, env);
        AnchorAndSubmitBinding(cfg, owner, deviceContract, tokenId, didAddress, digest, accepted.value, env);
        var calls := sp.calls + rest.calls;
        assert SignAndRegister(cfg, owner, deviceContract, tokenId, didAddress, digest, env, recover).calls == calls;
        if |calls| > 3 {
          assert calls[3] == rest.calls[2];
          assert |calls| == 6 ==> calls[5] == rest.calls[4];
        }
      }
    }
  }

  /**
   * Step order: every attempt makes a prefix of chain id, nonce, sign, DID document,
   * upload, estimate, gas price, send; a confirmed registration makes all eight.
   */
  lemma RegisterRunOrder(cfg: Config, device: DeviceInfo, owner: Address, deviceContract: string,
                         tokenId: int, env: Env, crypto: Crypto)
    ensures Follows(RegisterRun(cfg, device, owner, deviceContract, tokenId, env, crypto).calls, REGISTRATION_ORDER)
    ensures RegisterRun(cfg, device, owner, deviceContract, tokenId, env, crypto).result.Ok? ==>
      |RegisterRun(cfg, device, owner, deviceContract, tokenId, env, crypto).calls| == |REGISTRATION_ORDER|
  {
    var dp := DigestPhase(cfg, device.did, owner, env, crypto.keccak);
    DigestPhaseSteps(cfg, device.did, owner, env, crypto.keccak);
    if dp.result.Fail? {
      InOrderFollows(dp.calls);
    } else {
      var didAddress, digest := DidAddress(device.did.s), Hex.Encode(dp.result.value.digest);
      var t := SignAndRegister(cfg, owner, deviceContract, tokenId, didAddress, digest, env, crypto.recover);
      SignAndRegisterOrder(cfg, owner, deviceContract, tokenId, didAddress, digest, env, crypto.recover);
      InOrderConcat(dp.calls, t.calls, 0);
      InOrderFollows(dp.calls + t.calls);
    }
  }

  /**
   * Abort before side effects: when the signature check fails (a decoding that throws,
   * the `null` of no match, or "Invalid signature" for an empty part), the attempt ends
   * right after the signing request with that check's exception, with no DID document
   * request, no upload and no transaction. A `null` result ends in the TypeError of
   * destructuring `null`, not in the "Invalid signature" check, which it never reaches.
   */
  lemma RejectedSignatureAborts(cfg: Config, device: DeviceInfo, owner: Address, deviceContract: string,
                                tokenId: int, env: Env, crypto: Crypto)
    requires DigestPhase(cfg, device.did, owner, env, crypto.keccak).result.Ok?
    requires var digest := Hex.Encode(DigestPhase(cfg, device.did, owner, env, crypto.keccak).result.value.digest);
      && env.sign(cfg.deviceServiceUrl + "/sign", digest).Answer?
      && AcceptSignature(crypto.recover, digest, env.sign(cfg.deviceServiceUrl + "/sign", digest).value,
                         DidAddress(device.did.s)).Fail?
    ensures var run := RegisterRun(cfg, device, owner, deviceContract, tokenId, env, crypto);
      var digest := Hex.Encode(DigestPhase(cfg, device.did, owner, env, crypto.keccak).result.value.digest);
      var signature := env.sign(cfg.deviceServiceUrl + "/sign", digest).value;
      && run.result == Fail(AcceptSignature(crypto.recover, digest, signature, DidAddress(device.did.s)).failure)
      && run.calls == DigestPhase(cfg, device.did, owner, env, crypto.keccak).calls
                      + [PostSign(cfg.deviceServiceUrl + "/sign", digest)]
      && (DecodeSignature(crypto.recover, digest, signature, DidAddress(device.did.s)).NoMatch? ==>
            run.result.failure == NullDestructure)
  {
    var dp := DigestPhase(cfg, device.did, owner, env, crypto.keccak);
    var didAddress, digest := DidAddress(device.did.s), Hex.Encode(dp.result.value.digest);
    var signature := env.sign(cfg.deviceServiceUrl + "/sign", digest).value;
    AcceptSignatureMeaning(crypto.recover, digest, signature, didAddress);
    assert SignAndRegister(cfg, owner, deviceContract, tokenId, didAddress, digest, env, crypto.recover)
        == Step([PostSign(cfg.deviceServiceUrl + "/sign", digest)],
                Fail(AcceptSignature(crypto.recover, digest, signature, didAddress).failure));
  }

  /**
   * Fail fast: every exception of `registerDevice` ends the attempt at its own step.
   * The last call made is the one the exception is raised at, so a falsy DID document
   * is followed by no upload, a failed signature check by no DID document request, and
   * a non-string DID by no nonce read.
   */
  lemma FailureEndsAttempt(cfg: Config, device: DeviceInfo, owner: Address, deviceContract: string,
                           tokenId: int, env: Env, crypto: Crypto)
    ensures EndsAtFailure(RegisterRun(cfg, device, owner, deviceContract, tokenId, env, crypto))
  {
    var dp := DigestPhase(cfg, device.did, owner, env, crypto.keccak);
    DigestPhaseSteps(cfg, device.did, owner, env, crypto.keccak);
    if dp.result.Ok? {
      var didAddress, digest := DidAddress(device.did.s), Hex.Encode(dp.result.value.digest);
      var t := SignAndRegister(cfg, owner, deviceContract, tokenId, didAddress, digest, env, crypto.recover);
      SignAndRegisterOrder(cfg, owner, deviceContract, tokenId, didAddress, digest, env, crypto.recover);
      var calls := dp.calls + t.calls;
      assert calls[|calls| - 1] == t.calls[|t.calls| - 1];
    }
  }

  /** The "Invalid signature" exception is raised only for an empty signature string. */
  lemma InvalidSignatureOnlyForEmpty(cfg: Config, device: DeviceInfo, owner: Address, deviceContract: string,
                                     tokenId: int, env: Env, crypto: Crypto)
    requires RegisterRun(cfg, device, owner, deviceContract, tokenId, env, crypto).result == Fail(InvalidSignature)
    ensures DigestPhase(cfg, device.did, owner, env, crypto.keccak).result.Ok?
    ensures var digest := Hex.Encode(DigestPhase(cfg, device.did, owner, env, crypto.keccak).result.value.digest);
      env.sign(cfg.deviceServiceUrl + "/sign", digest) == Answer(Str(""))
  {
    var dp := DigestPhase(cfg, device.did, owner, env, crypto.keccak);
    DigestPhaseSteps(cfg, device.did, owner, env, crypto.keccak);
    var didAddress, digest := DidAddress(device.did.s), Hex.Encode(dp.result.value.digest);
    SignAndRegisterFailures(cfg, owner, deviceContract, tokenId, didAddress, digest, env, crypto.recover);
    var reply := env.sign(cfg.deviceServiceUrl + "/sign", digest);
    var decoded := DecodeSignature(crypto.recover, digest, reply.value, didAddress);
    assert decoded.Match?;
    SlicesClamp(reply.value.s);
  }

  /** A rejected remote call is the last call of the attempt, so the error names its step. */
  lemma TransportFailureIsLastCall(cfg: Config, device: DeviceInfo, owner: Address, deviceContract: string,
                                   tokenId: int, env: Env, crypto: Crypto, kind: CallKind)
    requires RegisterRun(cfg, device, owner, deviceContract, tokenId, env, crypto).result == Fail(Transport(kind))
    ensures var calls := RegisterRun(cfg, device, owner, deviceContract, tokenId, env, crypto).calls;
      |calls| > 0 && KindOf(calls[|calls| - 1]) == kind
  {
    var dp := DigestPhase(cfg, device.did, owner, env, crypto.keccak);
    DigestPhaseSteps(cfg, device.did, owner, env, crypto.keccak);
    if dp.result.Ok? {
      var didAddress, digest := DidAddress(device.did.s), Hex.Encode(dp.result.value.digest);
      var t := SignAndRegister(cfg, owner, deviceContract, tokenId, didAddress, digest, env, crypto.recover);
      SignAndRegisterOrder(cfg, owner, deviceContract, tokenId, didAddress, digest, env, crypto.recover);
      var calls := dp.calls + t.calls;
      assert calls[|calls| - 1] == t.calls[|t.calls| - 1];
    }
  }

  /** The signature check never fails with a transport error: it makes no remote call. */
  lemma SignatureFailures(recover: (string, string, string, string) -> Recovered,
                          digest: string, signature: JsValue, didAddress: string)
    ensures var r := AcceptSignature(recover, digest, signature, didAddress);
      r.Fail? ==> r.failure in {NotAString(SignatureValue), RecoveryThrew, NullDestructure, InvalidSignature}
  {
  }

  /**
   * What the `register` call carries once it is made: the NFT contract, token id and
   * owner given to `registerDevice`; the DID's address as `device`, which is also the
   * signer the signature was checked against; the very digest string sent to the
   * device for signing, which parses back to the EIP-712 digest; `ipfs://` + cid; and
   * the v, r, s of an accepted decode, v recovering to the DID's address.
   */
  predicate BoundToSignedValues(cfg: Config, device: DeviceInfo, owner: Address, deviceContract: string,
                                tokenId: int, env: Env, crypto: Crypto, call: RegisterCall)
  {
    var dp := DigestPhase(cfg, device.did, owner, env, crypto.keccak);
    var signUrl := cfg.deviceServiceUrl + "/sign";
    var docUrl := cfg.deviceServiceUrl + "/diddoc";
    && dp.result.Ok?
    && call.deviceContract == deviceContract && call.tokenId == tokenId && call.user == owner
    && call.device == DidAddress(device.did.s)
    && call.hash == Hex.Encode(dp.result.value.digest)
    && Hex.Parse(call.hash) == Wrappers.Some(dp.result.value.digest)
    && env.sign(signUrl, call.hash).Answer?
    && DecodeSignature(crypto.recover, call.hash, env.sign(signUrl, call.hash).value, call.device)
       == Match(Decoded(call.r, call.s, call.v))
    && RecoversTo(crypto.recover, call.hash, call.v, call.r, call.s, call.device)
    && env.didDoc(docUrl).Answer?
    && env.upload(cfg.ipfsServiceUrl + "/upload", env.didDoc(docUrl).value).Answer?
    && call.uri == "ipfs://" + ToText(env.upload(cfg.ipfsServiceUrl + "/upload", env.didDoc(docUrl).value).value)
  }

  lemma RegisterCallBound(cfg: Config, device: DeviceInfo, owner: Address, deviceContract: string,
                          tokenId: int, env: Env, crypto: Crypto)
    ensures var calls := RegisterRun(cfg, device, owner, deviceContract, tokenId, env, crypto).calls;
      |calls| > 5 ==>
        && calls[5].EstimateGas?
        && BoundToSignedValues(cfg, device, owner, deviceContract, tokenId, env, crypto, calls[5].call)
        && calls[2] == PostSign(cfg.deviceServiceUrl + "/sign", calls[5].call.hash)
        && (|calls| == 8 ==> calls[7].SendTransaction? && calls[7].call == calls[5].call)
  {
    var dp := DigestPhase(cfg, device.did, owner, env, crypto.keccak);
    DigestPhaseSteps(cfg, device.did, owner, env, crypto.keccak);
    if dp.result.Ok? {
      var didAddress, digest := DidAddress(device.did.s), Hex.Encode(dp.result.value.digest);
      Hex.ParseEncode(dp.result.value.digest);
      var t := SignAndRegister(cfg, owner, deviceContract, tokenId, didAddress, digest, env, crypto.recover);
      SignAndRegisterBinding(cfg, owner, deviceContract, tokenId, didAddress, digest, env, crypto.recover);
      var sign := env.sign(cfg.deviceServiceUrl + "/sign", digest);
      if |t.calls| > 3 {
        AcceptSignatureMeaning(crypto.recover, digest, sign.value, didAddress);
        var calls := dp.calls + t.calls;
        assert calls[5] == t.calls[3];
        assert calls[2] == t.calls[0];
        assert |calls| == 8 ==> calls[7] == t.calls[5];
      }
    }
  }

  /**
   * The device is not a field of the signed permit: two DIDs whose addresses have the
   * same nonce get the same digest.
   */
  lemma DigestIgnoresDevice(cfg: Config, did1: string, did2: string, owner: Address, env: Env,
                            keccak: seq<byte> -> Word)
    requires env.nonces(cfg.provider, cfg.registry, DidAddress(did1))
          == env.nonces(cfg.provider, cfg.registry, DidAddress(did2))
    ensures DigestPhase(cfg, Str(did1), owner, env, keccak).result
         == DigestPhase(cfg, Str(did2), owner, env, keccak).result
  {
  }
}
