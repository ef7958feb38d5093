/**
 * The vocabulary shared by the registration flow: the outcomes of remote calls, the
 * calls themselves as they appear in a trace, the failures the code raises, and the
 * foreign primitives (keccak, signature recovery) taken as parameters.
 */
module Protocol {
  import opened Abi
  import opened Js

  /** A remote call either answers or is rejected (transport error, timeout, RPC error, revert). */
  datatype Remote<T> = Answer(value: T) | Rejected

  /** `web3.eth.accounts.recover`: an address string, or an exception for input it cannot use. */
  datatype Recovered = Recovered(address: string) | RecoverThrows

  /**
   * The foreign primitives: Keccak-256, and recovery of the signer address from
   * (hash hex, v, r, s) with the hash taken as already prefixed (the trailing `true`).
   */
  datatype Crypto = Crypto(
    keccak: seq<byte> -> Word,
    recover: (string, string, string, string) -> Recovered)

  /** The arguments of `ioIDRegistry.register`, in ABI order. */
  datatype RegisterCall = RegisterCall(
    deviceContract: string, tokenId: int, user: Address, device: string,
    hash: string, uri: string, v: string, r: string, s: string)

  /** One remote interaction, with the endpoint it went to and what it carried. */
  datatype Call =
    | GetChainId(provider: string)
    | GetNonce(provider: string, registry: Address, device: string)
    | GetDid(url: string)
    | PostSign(url: string, hex: string)
    | GetDidDoc(url: string)
    | PostUpload(url: string, document: JsValue)
    | EstimateGas(provider: string, registry: Address, call: RegisterCall, from: Address)
    | GetGasPrice(provider: string)
    | SendTransaction(provider: string, registry: Address, call: RegisterCall, from: Address, gas: nat, gasPrice: nat)

  datatype CallKind = ChainIdKind | NonceKind | DidKind | SignKind | DidDocKind | UploadKind
                    | EstimateKind | GasPriceKind | SendKind

  function KindOf(c: Call): CallKind
  {
    match c
    case GetChainId(_) => ChainIdKind
    case GetNonce(_, _, _) => NonceKind
    case GetDid(_) => DidKind
    case PostSign(_, _) => SignKind
    case GetDidDoc(_) => DidDocKind
    case PostUpload(_, _) => UploadKind
    case EstimateGas(_, _, _, _) => EstimateKind
    case GetGasPrice(_) => GasPriceKind
    case SendTransaction(_, _, _, _, _, _) => SendKind
  }

  /**
   * What the outside world answers. Device endpoints give the value of the named
   * field of the response body (`data.did`, `data.sign`, `data.diddoc`); the IPFS
   * gateway gives `data.cid`; the ledger gives numbers and a transaction hash.
   */
  datatype Env = Env(
    chainId: string -> Remote<Uint256>,
    nonces: (string, Address, string) -> Remote<Uint256>,
    did: string -> Remote<JsValue>,
    sign: (string, string) -> Remote<JsValue>,
    didDoc: string -> Remote<JsValue>,
    upload: (string, JsValue) -> Remote<JsValue>,
    estimateGas: (string, Address, RegisterCall, Address) -> Remote<nat>,
    gasPrice: string -> Remote<nat>,
    send: (string, Address, RegisterCall, Address, nat, nat) -> Remote<string>)

  /** Where a `TypeError` arises: a method called on a value that is not a string. */
  datatype Site = DidValue | SignatureValue

  /** The exceptions the flow can end with. */
  datatype Failure =
    | Transport(kind: CallKind)   // the remote call at that step was rejected
    | NoDevice                    // "No device found at the provided device service URL."
    | NoDidDoc                    // "No DID doc found at the provided device service URL."
    | SigningFailed               // the signature field of the reply is missing or falsy
    | NotAString(site: Site)      // `replace`/`substring` on a value that is not a string
    | RecoveryThrew               // `recover` threw inside `decodeSignature`
    | NullDestructure             // destructuring the `null` that `decodeSignature` returned
    | InvalidSignature            // "Invalid signature": one of r, s, v is empty

  datatype Result<T> = Ok(value: T) | Fail(failure: Failure)

  /** One step's remote calls, in order, and its value or exception. */
  datatype Step<T> = Step(calls: seq<Call>, result: Result<T>)

  /** Regrouping a call log: the solver finds this slowly on its own. */
  lemma AppendCalls(log: seq<Call>, first: seq<Call>, second: seq<Call>)
    ensures log + (first + second) == (log + first) + second
  {
  }

  /** The device record `fetchDevice` returns; the flow reads only its `did` field. */
  datatype DeviceInfo = DeviceInfo(did: JsValue)

  /** A DID's address part: the text with the first `did:io:` removed. */
  const DID_PREFIX := "did:io:"

  function DidAddress(did: string): string
  {
    RemoveFirst(did, DID_PREFIX)
  }

  /** A DID of the form `did:io:` + a yields a. */
  lemma DidAddressOfCanonical(a: string)
    ensures DidAddress(DID_PREFIX + a) == a
  {
    RemoveFirstOfPrefixed(DID_PREFIX, a);
  }

  /** A DID that does not contain `did:io:` is its own address. */
  lemma DidAddressWithoutPrefix(did: string)
    requires forall j :: 0 <= j <= |did| ==> !OccursAt(did, DID_PREFIX, j)
    ensures DidAddress(did) == did
  {
    RemoveFirstAbsent(did, DID_PREFIX);
  }
}
