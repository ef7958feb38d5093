/**
 * `IoTDeviceRegistrar`: the configuration fields its setters overwrite and the remote
 * steps of a registration, each appending the calls it makes to `trace`. Every method
 * is proved to make exactly the calls, and end exactly as, the matching function of
 * module Registration, whose properties are proved there.
 */
module Registrar {
  import opened Abi
  import opened Js
  import opened Protocol
  import opened Digest
  import opened SignatureDecoding
  import opened Registration
  import Hex

  const DEFAULT_DEVICE_SERVICE_URL := "https://192.168.1.1:8000"
  const DEFAULT_PROVIDER_URL := "https://babel-api.testnet.iotex.io"
  /** 0x0A7e595C7889dF3652A19aF52C18377bF17e027D */
  const DEFAULT_IOID_REGISTRY_ADDRESS: Address :=
    [0x0A, 0x7e, 0x59, 0x5C, 0x78, 0x89, 0xdF, 0x36, 0x52, 0xA1,
     0x9a, 0xF5, 0x2C, 0x18, 0x37, 0x7b, 0xF1, 0x7e, 0x02, 0x7D]
  const DEFAULT_IPFS_SERVICE_URL := ""

  class IoTDeviceRegistrar {
    var deviceServiceUrl: string
    var providerUrl: string
    /** The endpoint the web3 client sends ledger calls to. */
    var web3Provider: string
    var ioIDRegistryAddress: Address
    var ipfsServiceUrl: string
    var privateKey: string
    /** The address of the account derived from privateKey; transactions are sent from it. */
    var account: Address
    /** Every remote call made so far, oldest first. */
    var trace: seq<Call>

    /** The account derivation is a foreign call, given here as privateKeyToAccount. */
    constructor (privateKey: string, privateKeyToAccount: string -> Address)
      ensures deviceServiceUrl == DEFAULT_DEVICE_SERVICE_URL
      ensures providerUrl == DEFAULT_PROVIDER_URL && web3Provider == DEFAULT_PROVIDER_URL
      ensures ioIDRegistryAddress == DEFAULT_IOID_REGISTRY_ADDRESS
      ensures ipfsServiceUrl == DEFAULT_IPFS_SERVICE_URL
      ensures this.privateKey == privateKey && account == privateKeyToAccount(privateKey)
      ensures trace == []
    {
      deviceServiceUrl := DEFAULT_DEVICE_SERVICE_URL;
      providerUrl := DEFAULT_PROVIDER_URL;
      ioIDRegistryAddress := DEFAULT_IOID_REGISTRY_ADDRESS;
      ipfsServiceUrl := DEFAULT_IPFS_SERVICE_URL;
      this.privateKey := privateKey;
      web3Provider := DEFAULT_PROVIDER_URL;
      account := privateKeyToAccount(privateKey);
      trace := [];
    }

    method SetDeviceServiceUrl(url: string)
      modifies this`deviceServiceUrl
      ensures deviceServiceUrl == url
    {
      deviceServiceUrl := url;
    }

    /**
     * Records the new provider URL, then points the web3 client at a new HTTP provider
     * for it. Building that provider is a foreign call, given here as accepts: for a URL
     * it refuses the call throws (ok is false), after the URL field has changed and with
     * the client still on its old provider.
     */
    method SetProviderUrl(url: string, accepts: string -> bool) returns (ok: bool)
      modifies this`providerUrl, this`web3Provider
      ensures providerUrl == url
      ensures ok == accepts(url)
      ensures web3Provider == if ok then url else old(web3Provider)
    {
      providerUrl := url;
      if !accepts(providerUrl) {
        return false;
      }
      web3Provider := providerUrl;
      ok := true;
    }

    method SetIoIDRegistryAddress(address: Address)
      modifies this`ioIDRegistryAddress
      ensures ioIDRegistryAddress == address
    {
      ioIDRegistryAddress := address;
    }

    method SetIpfsServiceUrl(url: string)
      modifies this`ipfsServiceUrl
      ensures ipfsServiceUrl == url
    {
      ipfsServiceUrl := url;
    }

    method FetchDevice(env: Env) returns (device: Result<DeviceInfo>)
      modifies this`trace
      ensures var cfg := Registration.Config(deviceServiceUrl, web3Provider, ioIDRegistryAddress, ipfsServiceUrl, account);
        && trace == old(trace) + FetchDevicePhase(cfg, env).calls
        && device == FetchDevicePhase(cfg, env).result
    {
      var url := deviceServiceUrl + "/did";
      trace := trace + [GetDid(url)];
      var response := env.did(url);
      if response.Rejected? {
        device := Fail(Transport(DidKind));
      } else if Truthy(response.value) {
        device := Ok(DeviceInfo(response.value));
      } else {
        device := Fail(NoDevice);
      }
    }

    method ComputeDigest(did: JsValue, owner: Address, env: Env, keccak: seq<byte> -> Word)
      returns (result: Result<DigestResult>)
      modifies this`trace
      ensures var cfg := Registration.Config(deviceServiceUrl, web3Provider, ioIDRegistryAddress, ipfsServiceUrl, account);
        && trace == old(trace) + DigestPhase(cfg, did, owner, env, keccak).calls
        && result == DigestPhase(cfg, did, owner, env, keccak).result
    {
      trace := trace + [GetChainId(web3Provider)];
      var chainId := env.chainId(web3Provider);
      if chainId.Rejected? {
        return Fail(Transport(ChainIdKind));
      }
      var domainSeparator := DomainSeparator(keccak, chainId.value, ioIDRegistryAddress);
      if !did.Str? {
        return Fail(NotAString(DidValue));
      }
      var key := DidAddress(did.s);
      trace := trace + [GetNonce(web3Provider, ioIDRegistryAddress, key)];
      var nonce := env.nonces(web3Provider, ioIDRegistryAddress, key);
      if nonce.Rejected? {
        return Fail(Transport(NonceKind));
      }
      var dataHash := StructHash(keccak, owner, nonce.value);
      var data := Packed(domainSeparator, dataHash);
      result := Ok(DigestResult(data, keccak(data)));
    }

    method RequestSignature(digest: string, env: Env) returns (sign: Result<JsValue>)
      modifies this`trace
      ensures var cfg := Registration.Config(deviceServiceUrl, web3Provider, ioIDRegistryAddress, ipfsServiceUrl, account);
        && trace == old(trace) + SignaturePhase(cfg, digest, env).calls
        && sign == SignaturePhase(cfg, digest, env).result
    {
      var url := deviceServiceUrl + "/sign";
      trace := trace + [PostSign(url, digest)];
      var response := env.sign(url, digest);
      if response.Rejected? {
        sign := Fail(Transport(SignKind));
      } else {
        sign := Ok(response.value);
      }
    }

    method RequestDidDoc(env: Env) returns (diddoc: Result<JsValue>)
      modifies this`trace
      ensures var cfg := Registration.Config(deviceServiceUrl, web3Provider, ioIDRegistryAddress, ipfsServiceUrl, account);
        && trace == old(trace) + DidDocPhase(cfg, env).calls
        && diddoc == DidDocPhase(cfg, env).result
    {
      var url := deviceServiceUrl + "/diddoc";
      trace := trace + [GetDidDoc(url)];
      var response := env.didDoc(url);
      if response.Rejected? {
        diddoc := Fail(Transport(DidDocKind));
      } else if Truthy(response.value) {
        diddoc := Ok(response.value);
      } else {
        diddoc := Fail(NoDidDoc);
      }
    }

    method UploadDidDocToIpfs(diddoc: JsValue, env: Env) returns (cid: Result<JsValue>)
      modifies this`trace
      ensures var cfg := Registration.Config(deviceServiceUrl, web3Provider, ioIDRegistryAddress, ipfsServiceUrl, account);
        && trace == old(trace) + UploadPhase(cfg, diddoc, env).calls
        && cid == UploadPhase(cfg, diddoc, env).result
    {
      var url := ipfsServiceUrl + "/upload";
      trace := trace + [PostUpload(url, diddoc)];
      var response := env.upload(url, diddoc);
      if response.Rejected? {
        cid := Fail(Transport(UploadKind));
      } else {
        cid := Ok(response.value);
      }
    }

    /**
     * Ends with the hash of the confirmed transaction, which the source logs, or with the
     * exception the attempt throws.
     */
    method RegisterDevice(device: DeviceInfo, owner: Address, deviceNFTContractAddress: string,
                          tokenId: int, env: Env, crypto: Crypto) returns (outcome: Result<string>)
      modifies this`trace
      ensures var cfg := Registration.Config(deviceServiceUrl, web3Provider, ioIDRegistryAddress, ipfsServiceUrl, account);
        && trace == old(trace) + RegisterRun(cfg, device, owner, deviceNFTContractAddress, tokenId, env, crypto).calls
        && outcome == RegisterRun(cfg, device, owner, deviceNFTContractAddress, tokenId, env, crypto).result
    {
      ghost var before := trace;
      ghost var cfg := Registration.Config(deviceServiceUrl, web3Provider, ioIDRegistryAddress, ipfsServiceUrl, account);
      var digestResult := ComputeDigest(device.did, owner, env, crypto.keccak);
      if digestResult.Fail? {
        return Fail(digestResult.failure);
      }
      var digest := Hex.Encode(digestResult.value.digest);
      var didAddress := DidAddress(device.did.s);
      AppendCalls(before, DigestPhase(cfg, device.did, owner, env, crypto.keccak).calls,
                  Registration.SignAndRegister(cfg, owner, deviceNFTContractAddress, tokenId, didAddress, digest, env, crypto.recover).calls);
      outcome := SignAndRegister(owner, deviceNFTContractAddress, tokenId, didAddress, digest, env, crypto.recover);
    }

    /** `registerDevice` from the signing request on. */
    method SignAndRegister(owner: Address, deviceNFTContractAddress: string, tokenId: int,
                           didAddress: string, digest: string, env: Env,
                           recover: (string, string, string, string) -> Recovered)
      returns (outcome: Result<string>)
      modifies this`trace
      ensures var cfg := Registration.Config(deviceServiceUrl, web3Provider, ioIDRegistryAddress, ipfsServiceUrl, account);
        && trace == old(trace) + Registration.SignAndRegister(cfg, owner, deviceNFTContractAddress, tokenId, didAddress, digest, env, recover).calls
        && outcome == Registration.SignAndRegister(cfg, owner, deviceNFTContractAddress, tokenId, didAddress, digest, env, recover).result
    {
      ghost var before := trace;
      ghost var cfg := Registration.Config(deviceServiceUrl, web3Provider, ioIDRegistryAddress, ipfsServiceUrl, account);
      var signature := RequestSignature(digest, env);
      if signature.Fail? {
        return Fail(signature.failure);
      }
      // decode against the DID's address, destructure the result and refuse an empty part
      var accepted := AcceptSignature(recover, digest, signature.value, didAddress);
      if accepted.Fail? {
        return Fail(accepted.failure);
      }
      AppendCalls(before, SignaturePhase(cfg, digest, env).calls,
                  Registration.AnchorAndSubmit(cfg, owner, deviceNFTContractAddress, tokenId, didAddress, digest, accepted.value, env).calls);
      outcome := AnchorAndSubmit(owner, deviceNFTContractAddress, tokenId, didAddress, digest, accepted.value, env);
    }

    /**
     * The part of `registerDevice` after the signature check: DID document, upload,
     * then estimateGas, getGasPrice and send of the `register` call.
     */
    method AnchorAndSubmit(owner: Address, deviceNFTContractAddress: string, tokenId: int,
                           didAddress: string, digest: string, sig: Decoded, env: Env)
      returns (outcome: Result<string>)
      modifies this`trace
      ensures var cfg := Registration.Config(deviceServiceUrl, web3Provider, ioIDRegistryAddress, ipfsServiceUrl, account);
        && trace == old(trace) + Registration.AnchorAndSubmit(cfg, owner, deviceNFTContractAddress, tokenId, didAddress, digest, sig, env).calls
        && outcome == Registration.AnchorAndSubmit(cfg, owner, deviceNFTContractAddress, tokenId, didAddress, digest, sig, env).result
    {
      ghost var before := trace;
      ghost var cfg := Registration.Config(deviceServiceUrl, web3Provider, ioIDRegistryAddress, ipfsServiceUrl, account);
      var diddoc := RequestDidDoc(env);
      if diddoc.Fail? {
        return Fail(diddoc.failure);
      }
      var cid := UploadDidDocToIpfs(diddoc.value, env);
      ghost var anchored := DidDocPhase(cfg, env).calls + UploadPhase(cfg, diddoc.value, env).calls;
      AppendCalls(before, DidDocPhase(cfg, env).calls, UploadPhase(cfg, diddoc.value, env).calls);
      if cid.Fail? {
        return Fail(cid.failure);
      }
      var uri := "ipfs://" + ToText(cid.value);
      var call := RegisterCall(deviceNFTContractAddress, tokenId, owner, didAddress, digest, uri, sig.v, sig.r, sig.s);
      assert call == RegisterArguments(deviceNFTContractAddress, tokenId, owner, didAddress, digest, cid.value, sig);
      AppendCalls(before, anchored, SubmitPhase(cfg, call, env).calls);
      outcome := Submit(call, env);
    }

    /** estimateGas, getGasPrice and send of the `register` call, from the registrar's account. */
    method Submit(call: RegisterCall, env: Env) returns (outcome: Result<string>)
      modifies this`trace
      ensures var cfg := Registration.Config(deviceServiceUrl, web3Provider, ioIDRegistryAddress, ipfsServiceUrl, account);
        && trace == old(trace) + SubmitPhase(cfg, call, env).calls
        && outcome == SubmitPhase(cfg, call, env).result
    {
      trace := trace + [EstimateGas(web3Provider, ioIDRegistryAddress, call, account)];
      var gas := env.estimateGas(web3Provider, ioIDRegistryAddress, call, account);
      if gas.Rejected? {
        return Fail(Transport(EstimateKind));
      }
      trace := trace + [GetGasPrice(web3Provider)];
      var gasPrice := env.gasPrice(web3Provider);
      if gasPrice.Rejected? {
        return Fail(Transport(GasPriceKind));
      }
      trace := trace + [SendTransaction(web3Provider, ioIDRegistryAddress, call, account, gas.value, gasPrice.value)];
      var receipt := env.send(web3Provider, ioIDRegistryAddress, call, account, gas.value, gasPrice.value);
      if receipt.Rejected? {
        return Fail(Transport(SendKind));
      }
      outcome := Ok(receipt.value);
    }
  }
}
