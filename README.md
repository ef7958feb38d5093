# ioID device registration, modelled in Dafny

This project models the registration kernel of the ioID device registration tool.

`IoTDeviceRegistrar` builds an EIP-712 typed-data digest from the chain id, the ioID
registry address, the owner and the device's nonce. It then:

1. asks the device to sign the digest;
2. works out which of the two recovery values (0x1c, 0x1b) the signature needs, by
   recovering the signer and comparing it with the address in the device's DID;
3. fetches the device's DID document and uploads it to IPFS;
4. estimates gas, reads the gas price and sends `ioIDRegistry.register` with the
   signed values.

The standalone `signDigest` tool repeats the signing and decoding against a local
device service.

The modules follow the program:

- `Abi`: the static 32-byte words of the Solidity contract ABI.
- `Hex`: the `0x` hex strings web3 uses for byte values.
- `Js`: the JavaScript string and value semantics the code relies on: truthiness,
  `${}`, `substring`, first-occurrence `replace`, and ASCII `toLowerCase`.
- `Protocol`: the remote calls, their outcomes and the failures.
- `Digest`: `computeDigest`.
- `SignatureDecoding`: `decodeSignature`.
- `Registration`: each step of `registerDevice` as a function of the configuration
  and of what the outside world answers. A step gives the calls it makes, in order,
  and how it ends.
- `Registrar`: the class. Its setters overwrite its fields. Its remote methods append
  each call to a `trace` field and are proved to produce exactly the trace and the
  outcome of the matching `Registration` function.
- `SignDigest`: `signDigest.js`.

Inputs to the model:

- Keccak-256 and secp256k1 public-key recovery are function-typed parameters (`Crypto`).
- Every device, IPFS and ledger request is a function-typed field of `Env`. It answers
  or is rejected, and is keyed by its endpoint and arguments.

Nothing is assumed about these inputs, so every property holds for every hash function
and every answer the outside world can give.

Behaviour of the code worth noting, which the model keeps:

- `requestSignature` returns `data.sign` without checking it.
- The IPFS cid is used without a check, so it can become `ipfs://undefined`.
- A `null` decode throws the `TypeError` of destructuring `null` before the
  "Invalid signature" check.
- The signed permit does not contain the device address. The address is only the key
  of the nonce lookup.
- A failed ledger read propagates the thrown error itself.

## Model

| member | source | states |
|---|---|---|
| Abi.FromBigEndianOfBigEndian | ioIDDeviceRegistrar.js:95-105 | reading back the len-byte big-endian encoding of any n below 256^len gives n |
| Abi.BigEndianOfFromBigEndian | ioIDDeviceRegistrar.js:95-105 | writing the value of a byte string back in its own length gives the same bytes |
| Abi.UintWordValue | ioIDDeviceRegistrar.js:103 | the `uint256` word of a value below 2^256 holds exactly that value |
| Abi.AddressWord | ioIDDeviceRegistrar.js:104 | an `address` word is twelve zero bytes followed by the 20 address bytes |
| Abi.DecodeEncode | ioIDDeviceRegistrar.js:95-106 | splitting a static-tuple encoding into 32-byte words gives back the tuple |
| Abi.EncodeSlot | ioIDDeviceRegistrar.js:95-106 | word i of an encoding sits at bytes 32i to 32i+32 |
| Abi.EncodeInjective | ioIDDeviceRegistrar.js:95-106 | equal encodings come only from equal word tuples |
| Abi.UintWordInjective | ioIDDeviceRegistrar.js:103 | distinct `uint256` values have distinct words |
| Abi.AddressWordInjective | ioIDDeviceRegistrar.js:104 | distinct addresses have distinct words |
| Hex.Encode | ioIDDeviceRegistrar.js:133 | the lower-case `0x` rendering of a byte string is `0x` plus two digits per byte; see Hex.ParseEncode and Hex.EncodeInjective |
| Hex.ParseDigitsOfDigits | ioIDDeviceRegistrar.js:133 | parsing the hex digits of a byte string gives back the bytes |
| Hex.ParseEncode | ioIDDeviceRegistrar.js:133 | the `0x` hex string of the digest parses back to exactly the digest bytes |
| Hex.EncodeInjective | ioIDDeviceRegistrar.js:133 | distinct byte strings have distinct hex strings |
| Js.Truthy | ioIDDeviceRegistrar.js:81 | no contract; JavaScript truthiness of a field value, used by Registration.FetchDevicePhase, Registration.DidDocPhaseSteps and SignDigest.DeviceServiceChecks |
| Js.ToText | ioIDDeviceRegistrar.js:231 | a template literal inserts a string as itself, and `undefined`/`null` as their names |
| Js.Substring | ioIDDeviceRegistrar.js:196-205 | `substring` never lengthens its string; for 0 <= start <= end it is the slice between the clamped bounds |
| Js.SubstringSwaps | ioIDDeviceRegistrar.js:196-205 | the bounds of `substring` may come in either order |
| Js.IndexOf | ioIDDeviceRegistrar.js:222 | -1 or an index within the text; -1 exactly when the pattern occurs nowhere; otherwise the first index where it occurs |
| Js.RemoveFirst | ioIDDeviceRegistrar.js:222 | `replace(p, "")` leaves text without p unchanged and otherwise shortens it by the length of p |
| Js.RemoveFirstOfPrefixed | ioIDDeviceRegistrar.js:222 | removing a leading occurrence leaves exactly what follows it |
| Js.RemoveFirstAbsent | ioIDDeviceRegistrar.js:222 | a text that does not contain the pattern is unchanged |
| Js.RemoveFirstAt | ioIDDeviceRegistrar.js:222 | with its first occurrence at k, the pattern is cut out at k and the rest is kept |
| Js.RemoveFirstNotAnchored | ioIDDeviceRegistrar.js:222 | an occurrence that is not at the front is removed too ("x-did:io:y" gives "x-y") |
| Js.RemoveFirstOnlyFirst | ioIDDeviceRegistrar.js:222 | only the first occurrence goes ("did:io:did:io:y" gives "did:io:y") |
| Js.ToLowerAt | ioIDDeviceRegistrar.js:207-209 | each character of the lower-cased text is the lower case of the character in its place |
| Js.ToLowerIdempotent | ioIDDeviceRegistrar.js:207-209 | lower-casing twice is lower-casing once |
| Js.EqualsIgnoringCaseMeaning | ioIDDeviceRegistrar.js:207-209 | the comparison holds exactly for equal lengths and characters equal up to letter case, both directions |
| Protocol.DidAddress | ioIDDeviceRegistrar.js:222 | no contract; `did.replace("did:io:", "")` as Js.RemoveFirst, see Protocol.DidAddressOfCanonical and Protocol.DidAddressWithoutPrefix |
| Protocol.DidAddressOfCanonical | ioIDDeviceRegistrar.js:222 | the address of the DID `did:io:` + a is a |
| Protocol.DidAddressWithoutPrefix | signDigest.js:11 | a DID that does not contain `did:io:` is its own signer address |
| Digest.Utf8 | ioIDDeviceRegistrar.js:98-102 | each ASCII character of a hashed type string, name or version is one byte of the same value |
| Digest.DomainLayout | ioIDDeviceRegistrar.js:94-107 | the domain encoding is the type hash, name hash, version hash, chain id word and registry word, 32 bytes each, in that order |
| Digest.StructLayout | ioIDDeviceRegistrar.js:117-126 | the permit encoding is the `Permit(address owner,uint256 nonce)` hash, then the owner word, then the nonce word |
| Digest.Packed | ioIDDeviceRegistrar.js:128-132 | the packed data is 66 bytes starting 0x19 0x01 |
| Digest.Unpack | ioIDDeviceRegistrar.js:128-132 | any words read back from packed data pack again to that same data |
| Digest.UnpackPacked | ioIDDeviceRegistrar.js:128-132 | unpacking packed data recovers the domain separator and the struct hash |
| Digest.ComputeDigest | ioIDDeviceRegistrar.js:93-137 | no contract; see Digest.ComputeDigestLayout, Digest.DomainLayout and Digest.StructLayout |
| Digest.ComputeDigestLayout | ioIDDeviceRegistrar.js:128-136 | `data` is 0x19 0x01, the domain separator, then the struct hash; `digest` is keccak of exactly `data`; both are returned |
| Digest.DomainEncodingInjective | ioIDDeviceRegistrar.js:94-107 | equal domain encodings have equal chain id and registry |
| Digest.StructEncodingInjective | ioIDDeviceRegistrar.js:117-126 | equal permit encodings have equal owner and nonce |
| Digest.PackedInjective | ioIDDeviceRegistrar.js:128-132 | equal packed data have equal separator and struct hash |
| SignatureDecoding.DecodeSignature | ioIDDeviceRegistrar.js:193-214 | throws exactly for a non-string signature or a throwing recovery; a triple carries the r and s slices and a v among 0x1c, 0x1b that recovers to the signer; 0x1c wins whenever it matches; 0x1b only when 0x1c does not; `null` exactly when neither matches |
| SignatureDecoding.SlicesOfFullSignature | ioIDDeviceRegistrar.js:204-205 | with at least 130 characters, r is the first 66 and s is `0x` and characters 66 to 130, both 66 long |
| SignatureDecoding.SlicesClamp | ioIDDeviceRegistrar.js:196-205 | for any length, r and s are the slices clamped to the string |
| SignatureDecoding.SlicesRejoin | ioIDDeviceRegistrar.js:204-205 | r followed by s without its `0x` is the first 130 characters |
| SignatureDecoding.TrailingCharactersIgnored | ioIDDeviceRegistrar.js:194-205 | characters from index 130 on do not change the decoding |
| SignatureDecoding.SignerCaseIrrelevant | ioIDDeviceRegistrar.js:207-213 | signers equal up to letter case give the same decoding |
| SignatureDecoding.MatchingSignatureAccepted | ioIDDeviceRegistrar.js:207-213 | when neither recovery throws and 0x1c or 0x1b recovers to the signer, a triple is returned |
| Registration.FetchDevicePhase | ioIDDeviceRegistrar.js:70-91 | one GET of /did; the device is returned exactly when the answer's `did` is truthy, and otherwise the attempt throws |
| Registration.DigestPhase | ioIDDeviceRegistrar.js:93-137 | a digest is produced only for a string DID; see Registration.DigestPhaseSteps |
| Registration.DigestPhaseSteps | ioIDDeviceRegistrar.js:93-137 | chain id then nonce, stopping at the first rejection; a non-string DID throws with the chain id read as the only call; success exactly when both answer; the result is the digest of (chain id, registry, owner, nonce of the DID's address) |
| Registration.SignaturePhase | ioIDDeviceRegistrar.js:154-169 | no contract; see Registration.SignaturePhaseSteps |
| Registration.SignaturePhaseSteps | ioIDDeviceRegistrar.js:154-169 | one POST of the digest; any answered `sign` value is returned unchecked |
| Registration.DidDocPhase | ioIDDeviceRegistrar.js:171-190 | no contract; see Registration.DidDocPhaseSteps |
| Registration.DidDocPhaseSteps | ioIDDeviceRegistrar.js:171-190 | one GET of /diddoc; the document is returned exactly when it is truthy |
| Registration.UploadPhase | ioIDDeviceRegistrar.js:139-152 | no contract; see Registration.UploadPhaseSteps |
| Registration.UploadPhaseSteps | ioIDDeviceRegistrar.js:139-152 | one POST of the document; the answered cid is returned unchecked |
| Registration.SubmitPhase | ioIDDeviceRegistrar.js:249-256 | no contract; see Registration.SubmitPhaseSteps |
| Registration.SubmitPhaseSteps | ioIDDeviceRegistrar.js:249-256 | estimate, gas price, send in that order; the send carries the same call with the estimated gas and quoted price; success exactly when all three answer, with the send's answer as the result |
| Registration.AcceptSignature | ioIDDeviceRegistrar.js:223-227 | no contract; see Registration.AcceptSignatureMeaning and Registration.SignatureFailures |
| Registration.AcceptSignatureMeaning | ioIDDeviceRegistrar.js:223-227 | accepted exactly when the decoding is a triple with no empty part, whose v then recovers to the DID's address; `null` fails to destructure; a throw propagates |
| Registration.SignatureFailures | ioIDDeviceRegistrar.js:223-227 | the signature check fails only with the decoding's TypeErrors, a recovery error or "Invalid signature" |
| Registration.AnchorAndSubmit | ioIDDeviceRegistrar.js:229-256 | no contract; see Registration.AnchorAndSubmitOrder and Registration.AnchorAndSubmitBinding |
| Registration.AnchorAndSubmitOrder | ioIDDeviceRegistrar.js:229-256 | DID document, upload, estimate, gas price, send in that order; all five when it succeeds; a failure's last call is the step it is raised at |
| Registration.AnchorAndSubmitBinding | ioIDDeviceRegistrar.js:229-247 | the estimated call is `register` with the uploaded document's cid and the accepted v, r, s, and the sent call is the same |
| Registration.SignAndRegister | ioIDDeviceRegistrar.js:219-256 | no contract; see Registration.SignAndRegisterOrder, Registration.SignAndRegisterFailures and Registration.SignAndRegisterBinding |
| Registration.SignAndRegisterOrder | ioIDDeviceRegistrar.js:219-256 | the signing request comes first and the rest follows in protocol order; all six calls on success; a failure's last call is the step it is raised at |
| Registration.SignAndRegisterFailures | ioIDDeviceRegistrar.js:219-227 | a signature that does not decode to a triple stops right after the signing request, and `null` ends in the destructuring TypeError |
| Registration.SignAndRegisterBinding | ioIDDeviceRegistrar.js:219-247 | once the estimate is made, its call carries the accepted decoding of the device's answer and the uploaded cid |
| Registration.RegisterRun | ioIDDeviceRegistrar.js:216-260 | no contract; see Registration.RegisterRunOrder, Registration.RejectedSignatureAborts, Registration.FailureEndsAttempt, Registration.InvalidSignatureOnlyForEmpty, Registration.TransportFailureIsLastCall and Registration.RegisterCallBound |
| Registration.RegisterRunOrder | ioIDDeviceRegistrar.js:216-260 | every attempt makes a prefix of chain id, nonce, sign, DID document, upload, estimate, gas price, send; a successful one makes all eight |
| Registration.RejectedSignatureAborts | ioIDDeviceRegistrar.js:223-230 | a signature that fails the check (a throwing decode, `null`, or an empty part) ends the attempt right after the signing request with that exception, with no DID document, upload or transaction; `null` ends in the TypeError, not in "Invalid signature" |
| Registration.FailureEndsAttempt | ioIDDeviceRegistrar.js:216-260 | every exception ends the attempt at its own step: the last call is the rejected one, the /diddoc request for a falsy document, the signing request for a signature error, the chain id read for a non-string DID |
| Registration.InvalidSignatureOnlyForEmpty | ioIDDeviceRegistrar.js:225-227 | "Invalid signature" arises only when the device signs with the empty string |
| Registration.TransportFailureIsLastCall | ioIDDeviceRegistrar.js:216-260 | a rejected remote call is the last call of the attempt |
| Registration.RegisterCallBound | ioIDDeviceRegistrar.js:218-247 | the `register` call takes the NFT contract, token id and owner given; the DID's address as the device and the expected signer; the very digest sent for signing, which parses back to the EIP-712 digest; `ipfs://` + cid; the accepted v, r, s; the sent call is the estimated one |
| Registration.DigestIgnoresDevice | ioIDDeviceRegistrar.js:113-126 | two DIDs whose addresses have the same nonce get the same digest |
| Registrar.IoTDeviceRegistrar.constructor | ioIDDeviceRegistrar.js:40-51 | the four defaults, the private key, the account derived from it, and an empty trace |
| Registrar.IoTDeviceRegistrar.SetDeviceServiceUrl | ioIDDeviceRegistrar.js:53-55 | sets the device service URL and nothing else |
| Registrar.IoTDeviceRegistrar.SetProviderUrl | ioIDDeviceRegistrar.js:57-60 | sets the provider URL; points the web3 client at it exactly when the foreign provider constructor accepts the URL, and otherwise fails with the client still on its old provider; nothing else changes |
| Registrar.IoTDeviceRegistrar.SetIoIDRegistryAddress | ioIDDeviceRegistrar.js:62-64 | sets the registry address and nothing else |
| Registrar.IoTDeviceRegistrar.SetIpfsServiceUrl | ioIDDeviceRegistrar.js:66-68 | sets the IPFS service URL and nothing else |
| Registrar.IoTDeviceRegistrar.FetchDevice | ioIDDeviceRegistrar.js:70-91 | appends the /did call to the trace and ends as the fetch step does |
| Registrar.IoTDeviceRegistrar.ComputeDigest | ioIDDeviceRegistrar.js:93-137 | appends the chain id and nonce calls and returns the digest step's result, for the current registry and provider |
| Registrar.IoTDeviceRegistrar.RequestSignature | ioIDDeviceRegistrar.js:154-169 | appends the signing call and returns the device's answer |
| Registrar.IoTDeviceRegistrar.RequestDidDoc | ioIDDeviceRegistrar.js:171-190 | appends the /diddoc call and ends as the DID document step does |
| Registrar.IoTDeviceRegistrar.UploadDidDocToIpfs | ioIDDeviceRegistrar.js:139-152 | appends the upload call and returns the answered cid |
| Registrar.IoTDeviceRegistrar.RegisterDevice | ioIDDeviceRegistrar.js:216-260 | appends exactly the calls of a registration attempt, in order, and ends exactly as it does |
| Registrar.IoTDeviceRegistrar.SignAndRegister | ioIDDeviceRegistrar.js:219-256 | from the signing request on: the trace and outcome of that part of the attempt |
| Registrar.IoTDeviceRegistrar.AnchorAndSubmit | ioIDDeviceRegistrar.js:229-256 | from the DID document request on: the trace and outcome of that part of the attempt |
| Registrar.IoTDeviceRegistrar.Submit | ioIDDeviceRegistrar.js:249-256 | the estimate, gas price and send calls from the registrar's account, and their outcome |
| SignDigest.FetchDevice | deviceService.js:9-22 | no contract; see SignDigest.DeviceServiceChecks |
| SignDigest.RequestSignature | deviceService.js:24-38 | no contract; see SignDigest.DeviceServiceChecks |
| SignDigest.DeviceServiceChecks | deviceService.js:9-38 | one request each; the DID and the signature are returned exactly when answered and truthy, and otherwise the call throws |
| SignDigest.Decode | signDigest.js:21-50 | no contract; see SignDigest.DecodeAgreesWithRegistrar |
| SignDigest.DecodeAgreesWithRegistrar | signDigest.js:21-50 | the tool's own `decodeSignature` decodes exactly as the registrar's, for every input |
| SignDigest.SignDigestRun | signDigest.js:8-18 | no contract; see SignDigest.EmitsOnlyVerified, SignDigest.NullDecodeEmitsNothing, SignDigest.MatchingSignatureEmitted and SignDigest.SignDigestCalls |
| SignDigest.EmitsOnlyVerified | signDigest.js:8-18 | an emitted v, r, s comes from a string DID and a string signature; r and s are its slices; v is 0x1c or 0x1b and recovers to the DID's address, and 0x1b only when 0x1c does not |
| SignDigest.NullDecodeEmitsNothing | signDigest.js:13-17 | when neither v recovers to the DID's address, the tool ends in the destructuring TypeError after its two requests |
| SignDigest.MatchingSignatureEmitted | signDigest.js:43-49 | when the device answers a non-empty DID string and a non-empty signature string, neither recovery throws, and the signature recovers to the DID's address under 0x1c or 0x1b, it is emitted with its r slice |
| SignDigest.SignDigestCalls | signDigest.js:8-12 | the DID request always comes first; the signing request follows exactly when a truthy string DID came back, and nothing else is requested |

## Left out

- HTTP and TLS are not modelled: the relaxed certificate check, the timeouts, response bodies other than the one field read. Each request is an answer-or-rejection input, and a rejection stands for every way axios or web3 can throw.
- Ledger RPC (`getChainId`, `nonces`, `estimateGas`, `getGasPrice`, `send` and waiting for the receipt) is an input. Reverts and receipts are not modelled beyond "answered with a transaction hash" or "rejected".
- Keccak-256 and secp256k1 recovery are uninterpreted. No collision resistance is assumed, so "a different nonce gives a different digest" is not proved. What is proved is that the hashed preimages are injective.
- Key handling: `privateKeyToAccount` is a constructor parameter. `wallet.add` and signing with the key are done by web3 and are not modelled.
- Addresses given as strings are taken as their 20 bytes. Hex parsing and checksum validation of the registry address and owner, which web3's ABI encoder does, are not modelled.
- Registrar.IoTDeviceRegistrar.RegisterDevice: the source resolves to `undefined` and only logs the transaction hash. The model's successful outcome carries that logged hash.
- Js.ToLowerAt, Js.EqualsIgnoringCaseMeaning: `toLowerCase` is modelled for ASCII letters only. Unicode case mapping is left out because addresses are hex text.
- Digest.Utf8: its contract holds for ASCII text only, which suffices for the four constant strings hashed. Non-ASCII UTF-8 is left out.
- JavaScript numbers (token id, gas, gas price) are mathematical integers. Non-string values other than `undefined` and `null` are abstract (`Other`).
- Strings are sequences of Unicode scalar values, not of UTF-16 code units as in JavaScript. A character outside the Basic Multilingual Plane is one `char` here but two code units in JavaScript, so on such text the indices of `substring(0, 66)` and `substring(66, 130)` (lines 196-205) differ from the source's.
- A missing `data` body in the answer to the signing request (lines 163-164) or to the upload (line 145) is folded into a rejection, since reading a field of `undefined` throws there as well. At /did and /diddoc a missing body is an `Undefined` answer, which the `response.data &&` guards (lines 81 and 180) refuse with "No device found…" and "No DID doc found…".
- Console logging and async scheduling are left out. The flow is strictly sequential and its logs have no effect.
- The unused `deviceAddress` local of `registerDevice` (line 220) computes the same value as `didAddress` and is not modelled.
- The implicit global `web3` that `signDigest.js` assigns at line 22 is not modelled.
- `process.argv[2]` is left out. The digest is a parameter of `SignDigest.SignDigestRun`, so a missing argument is not modelled.
- `deviceService.js` is modelled only for the `fetchDevice` and `requestSignature` calls that `signDigest` makes. `fetchDidDoc` and `handleError`'s logging are left out. `handleError` is taken to rethrow.
- index.js, DEVICE_NFT.js, ERC721.js, constants.js, ipfsService.js and utils.js are not part of this model. They are process bootstrap, contract wrappers and static data with no registration logic.
