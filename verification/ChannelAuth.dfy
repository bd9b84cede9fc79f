/** The account contract behind every bundle: a provider's signature over the authorization entry,
    each spent UTXO's P256 signature over its own conditions, and the provider registry. */
module ChannelAuth {
  import opened Types
  import Payload

  datatype SignerKey = P256(utxo: Utxo) | Ed25519(pk: seq<byte>) | Provider(pk: seq<byte>)
  datatype Signature =
    | P256Sig(bytes: seq<byte>) | Ed25519Sig(bytes: seq<byte>)
    | Secp256k1Sig(bytes: seq<byte>) | Bls12381Sig(bytes: seq<byte>)
  datatype SignatureEntry = SignatureEntry(signature: Signature, validUntil: U32)
  type Signatures = map<SignerKey, SignatureEntry>
  type AuthRequirements = map<SignerKey, seq<Condition>>

  datatype Arg = Requirements(req: AuthRequirements) | OtherArg
  datatype Context = ContractCall(contract: Address, args: seq<Arg>) | OtherContext

  /** The host's cryptography, left uninterpreted. */
  datatype Host = Host(
    sha256: seq<byte> -> Digest,
    secp256r1: (Utxo, Digest, seq<byte>) -> bool,
    ed25519: (seq<byte>, Digest, seq<byte>) -> bool,
    account: seq<byte> -> Address)

  /** A bad signature traps; a signature of the wrong kind is an error. */
  function VerifySignature(h: Host, signer: SignerKey, signature: Signature, digest: Digest): Result<Unit>
  {
    match (signer, signature)
    case (P256(u), P256Sig(b)) => if h.secp256r1(u, digest, b) then Ok(Unit) else Err(Trap)
    case (Provider(pk), Ed25519Sig(b)) => if h.ed25519(pk, digest, b) then Ok(Unit) else Err(Trap)
    case (Ed25519(pk), Ed25519Sig(b)) => if h.ed25519(pk, digest, b) then Ok(Unit) else Err(Trap)
    case _ => Err(InvalidSignatureFormat)
  }

  // ----- What acceptance means -----

  /** An unexpired signature under `u` verifies over the payload of these conditions, its expiry and
      that contract. Which lists have that payload is the subject of `Payload` and `Signatures`. */
  ghost predicate OwnerSigned(h: Host, sigs: Signatures, now: nat, contract: Address, u: Utxo, conds: seq<Condition>)
  {
    && P256(u) in sigs
    && now <= sigs[P256(u)].validUntil
    && sigs[P256(u)].signature.P256Sig?
    && h.secp256r1(u, h.sha256(Payload.Preimage(conds, sigs[P256(u)].validUntil, contract.strkey)),
                   sigs[P256(u)].signature.bytes)
  }

  ghost predicate RequirementMet(
    h: Host, sigs: Signatures, now: nat, contract: Address, signer: SignerKey, conds: seq<Condition>)
  {
    conds != [] && (signer.P256? ==> OwnerSigned(h, sigs, now, contract, signer.utxo, conds))
  }

  ghost predicate ContextMet(h: Host, sigs: Signatures, now: nat, c: Context)
  {
    && c.ContractCall?
    && (c.args != [] ==>
      && c.args[0].Requirements?
      && forall s :: s in c.args[0].req ==> RequirementMet(h, sigs, now, c.contract, s, c.args[0].req[s]))
  }

  ghost predicate ProviderSigned(
    h: Host, providers: set<Address>, sigs: Signatures, now: nat, payload: Digest, s: SignerKey)
    requires s in sigs
  {
    && s.Provider?
    && h.account(s.pk) in providers
    && now <= sigs[s].validUntil
    && sigs[s].signature.Ed25519Sig?
    && h.ed25519(s.pk, payload, sigs[s].signature.bytes)
  }

  ghost predicate ProvidersMet(h: Host, providers: set<Address>, sigs: Signatures, now: nat, payload: Digest)
  {
    && (exists s :: s in sigs && s.Provider?)
    && forall s :: s in sigs && s.Provider? ==> ProviderSigned(h, providers, sigs, now, payload, s)
  }

  ghost predicate AuthAccepted(
    h: Host, providers: set<Address>, sigs: Signatures, now: nat, payload: Digest, contexts: seq<Context>)
  {
    && ProvidersMet(h, providers, sigs, now, payload)
    && forall c :: c in contexts ==> ContextMet(h, sigs, now, c)
  }

  /** The provider requirement in the host's terms. */
  lemma ProvidersMean(h: Host, providers: set<Address>, sigs: Signatures, now: nat, payload: Digest)
    ensures ProvidersMet(h, providers, sigs, now, payload) <==>
      && (exists pk :: Provider(pk) in sigs)
      && forall pk :: Provider(pk) in sigs ==>
          && h.account(pk) in providers
          && now <= sigs[Provider(pk)].validUntil
          && exists b :: sigs[Provider(pk)].signature == Ed25519Sig(b) && h.ed25519(pk, payload, b)
  {
    assert forall s: SignerKey :: s.Provider? ==> s == Provider(s.pk);
    forall pk | Provider(pk) in sigs
      ensures ProviderSigned(h, providers, sigs, now, payload, Provider(pk)) <==>
        && h.account(pk) in providers
        && now <= sigs[Provider(pk)].validUntil
        && exists b :: sigs[Provider(pk)].signature == Ed25519Sig(b) && h.ed25519(pk, payload, b)
    {
      var sig := sigs[Provider(pk)].signature;
      assert sig.Ed25519Sig? ==> sig == Ed25519Sig(sig.bytes);
    }
  }

  /** All of `__check_auth` in the host's terms. */
  lemma AuthMeans(
    h: Host, providers: set<Address>, sigs: Signatures, now: nat, payload: Digest, contexts: seq<Context>)
    ensures AuthAccepted(h, providers, sigs, now, payload, contexts) <==>
      && (exists pk :: Provider(pk) in sigs)
      && (forall pk :: Provider(pk) in sigs ==>
          && h.account(pk) in providers
          && now <= sigs[Provider(pk)].validUntil
          && exists b :: sigs[Provider(pk)].signature == Ed25519Sig(b) && h.ed25519(pk, payload, b))
      && (forall c :: c in contexts ==> c.ContractCall? && (c.args == [] || c.args[0].Requirements?))
      && (forall c, s :: c in contexts && c.args != [] && s in c.args[0].req ==> c.args[0].req[s] != [])
      && (forall c, u :: c in contexts && c.args != [] && P256(u) in c.args[0].req ==>
          && P256(u) in sigs && now <= sigs[P256(u)].validUntil
          && exists b :: sigs[P256(u)].signature == P256Sig(b)
              && h.secp256r1(u, h.sha256(Payload.Preimage(
                   c.args[0].req[P256(u)], sigs[P256(u)].validUntil, c.contract.strkey)), b))
  {
    ProvidersMean(h, providers, sigs, now, payload);
  }

  // ----- The contract -----

  datatype RegistryEvent = Added(provider: Address) | Removed(provider: Address)

  datatype Registry = Registry(providers: set<Address>, log: seq<RegistryEvent>)

  /** `byOwner` says whether the owner's authorization is present. */
  function AddSpec(g: Registry, p: Address, byOwner: bool): Result<Registry>
  {
    if !byOwner then Err(AuthRejected)
    else if p in g.providers then Err(ProviderAlreadyRegistered)
    else Ok(Registry(g.providers + {p}, g.log + [Added(p)]))
  }

  function RemoveSpec(g: Registry, p: Address, byOwner: bool): Result<Registry>
  {
    if !byOwner then Err(AuthRejected)
    else if p !in g.providers then Err(ProviderNotRegistered)
    else Ok(Registry(g.providers - {p}, g.log + [Removed(p)]))
  }

  class AuthContract {
    const host: Host
    var providers: set<Address>
    var log: seq<RegistryEvent>

    constructor (host: Host)
      ensures this.host == host && providers == {} && log == []
    {
      this.host := host;
      providers, log := {}, [];
    }

    function State(): Registry
      reads this
    {
      Registry(providers, log)
    }

    method AddProvider(p: Address, byOwner: bool) returns (r: Result<Unit>)
      modifies this
      ensures r.Ok? <==> byOwner && p !in old(providers)
      ensures r.Ok? ==> providers == old(providers) + {p} && log == old(log) + [Added(p)]
      ensures r.Err? ==> providers == old(providers) && log == old(log)
      ensures r.Err? ==> r.error == if byOwner then ProviderAlreadyRegistered else AuthRejected
      ensures AddSpec(old(State()), p, byOwner) == if r.Ok? then Ok(State()) else Err(r.error)
    {
      if !byOwner {
        return Err(AuthRejected);
      }
      if p in providers {
        return Err(ProviderAlreadyRegistered);
      }
      providers := providers + {p};
      log := log + [Added(p)];
      return Ok(Unit);
    }

    method RemoveProvider(p: Address, byOwner: bool) returns (r: Result<Unit>)
      modifies this
      ensures r.Ok? <==> byOwner && p in old(providers)
      ensures r.Ok? ==> providers == old(providers) - {p} && log == old(log) + [Removed(p)]
      ensures r.Err? ==> providers == old(providers) && log == old(log)
      ensures r.Err? ==> r.error == if byOwner then ProviderNotRegistered else AuthRejected
      ensures RemoveSpec(old(State()), p, byOwner) == if r.Ok? then Ok(State()) else Err(r.error)
    {
      if !byOwner {
        return Err(AuthRejected);
      }
      if p !in providers {
        return Err(ProviderNotRegistered);
      }
      providers := providers - {p};
      log := log + [Removed(p)];
      return Ok(Unit);
    }

    /** Every provider entry must check out, and there must be one. */
    method RequireProvider(payload: Digest, sigs: Signatures, now: nat) returns (r: Result<Unit>)
      ensures r.Ok? <==> ProvidersMet(host, providers, sigs, now, payload)
      ensures r.Ok? <==>
        && (exists pk :: Provider(pk) in sigs)
        && forall pk :: Provider(pk) in sigs ==>
            && host.account(pk) in providers
            && now <= sigs[Provider(pk)].validUntil
            && exists b :: sigs[Provider(pk)].signature == Ed25519Sig(b) && host.ed25519(pk, payload, b)
      ensures r.Err? && r.error == ProviderThresholdNotMet ==> forall s :: s in sigs ==> !s.Provider?
      ensures r.Err? && r.error == ProviderNotRegistered ==>
        exists s :: s in sigs && s.Provider? && host.account(s.pk) !in providers
      ensures r.Err? && r.error == SignatureExpired ==>
        exists s :: s in sigs && s.Provider? && sigs[s].validUntil < now
      ensures r.Err? && r.error == InvalidSignatureFormat ==>
        exists s :: s in sigs && s.Provider? && !sigs[s].signature.Ed25519Sig?
      ensures r.Err? && r.error == Trap ==>
        exists s :: s in sigs && s.Provider? && sigs[s].signature.Ed25519Sig?
          && !host.ed25519(s.pk, payload, sigs[s].signature.bytes)
    {
      ProvidersMean(host, providers, sigs, now, payload);
      var quorum := 0;
      var remaining := sigs.Keys;
      while remaining != {}
        invariant remaining <= sigs.Keys
        invariant forall s :: s in sigs.Keys - remaining && s.Provider? ==>
          ProviderSigned(host, providers, sigs, now, payload, s)
        invariant 0 <= quorum
        invariant 0 < quorum <==> exists s :: s in sigs.Keys - remaining && s.Provider?
      {
        var signer :| signer in remaining;
        if signer.Provider? {
          if host.account(signer.pk) !in providers {
            return Err(ProviderNotRegistered);
          }
          if sigs[signer].validUntil < now {
            return Err(SignatureExpired);
          }
          var v := VerifySignature(host, signer, sigs[signer].signature, payload);
          if v.Err? {
            return v;
          }
          quorum := quorum + 1;
          assert signer in sigs.Keys - (remaining - {signer});
        }
        remaining := remaining - {signer};
      }
      if quorum < 1 {
        return Err(ProviderThresholdNotMet);
      }
      return Ok(Unit);
    }

    /** A context without arguments is skipped and nothing more: the loop goes on. */
    method HandleUtxoAuth(sigs: Signatures, contexts: seq<Context>, now: nat) returns (r: Result<Unit>)
      ensures r.Ok? <==> forall c :: c in contexts ==> ContextMet(host, sigs, now, c)
      ensures r.Err? && r.error == UnexpectedContext ==> OtherContext in contexts
    {
      for i := 0 to |contexts|
        invariant forall j :: 0 <= j < i ==> ContextMet(host, sigs, now, contexts[j])
      {
        var c := contexts[i];
        assert c in contexts;
        if c.OtherContext? {
          assert !ContextMet(host, sigs, now, c);
          return Err(UnexpectedContext);
        }
        if |c.args| < 1 {
          continue;
        }
        if !c.args[0].Requirements? {
          assert !ContextMet(host, sigs, now, c);
          return Err(BadArg);
        }
        var met := CheckRequirements(sigs, c.contract, c.args[0].req, now);
        if met.Err? {
          return met;
        }
      }
      return Ok(Unit);
    }

    method CheckRequirements(sigs: Signatures, contract: Address, req: AuthRequirements, now: nat)
      returns (r: Result<Unit>)
      ensures r.Ok? <==> forall s :: s in req ==> RequirementMet(host, sigs, now, contract, s, req[s])
      ensures r.Err? ==> r.error != UnexpectedContext
      ensures r.Err? && r.error == NoConditions ==> exists s :: s in req && req[s] == []
      ensures r.Err? && r.error == MissingSignature ==> exists s :: s in req && s.P256? && s !in sigs
      ensures r.Err? && r.error == SignatureExpired ==>
        exists s :: s in req && s.P256? && s in sigs && sigs[s].validUntil < now
      ensures r.Err? && r.error == InvalidSignatureFormat ==>
        exists s :: s in req && s.P256? && s in sigs && !sigs[s].signature.P256Sig?
    {
      var remaining := req.Keys;
      while remaining != {}
        invariant remaining <= req.Keys
        invariant forall s :: s in req.Keys - remaining ==> RequirementMet(host, sigs, now, contract, s, req[s])
      {
        var signer :| signer in remaining;
        var conds := req[signer];
        if conds == [] {
          return Err(NoConditions);
        }
        if signer.P256? {
          if signer !in sigs {
            return Err(MissingSignature);
          }
          var entry := sigs[signer];
          if entry.validUntil < now {
            return Err(SignatureExpired);
          }
          var digest := Payload.HashPayload(host.sha256, conds, entry.validUntil, contract.strkey);
          var v := VerifySignature(host, signer, entry.signature, digest);
          if v.Err? {
            return v;
          }
        }
        remaining := remaining - {signer};
      }
      return Ok(Unit);
    }

    /** `__check_auth` accepts exactly when the provider and the UTXO requirements are met. */
    method CheckAuth(payload: Digest, sigs: Signatures, contexts: seq<Context>, now: nat) returns (r: Result<Unit>)
      ensures r.Ok? <==> AuthAccepted(host, providers, sigs, now, payload, contexts)
      ensures r.Ok? ==>
        && (exists pk :: Provider(pk) in sigs)
        && forall pk :: Provider(pk) in sigs ==>
            && host.account(pk) in providers
            && now <= sigs[Provider(pk)].validUntil
            && exists b :: sigs[Provider(pk)].signature == Ed25519Sig(b) && host.ed25519(pk, payload, b)
    {
      r := RequireProvider(payload, sigs, now);
      if r.Ok? {
        r := HandleUtxoAuth(sigs, contexts, now);
      }
    }
  }

  /** The order of the contexts does not matter, and contexts without arguments neither help nor
      hurt, wherever they stand. */
  lemma AuthIsOrderFree(h: Host, providers: set<Address>, sigs: Signatures, now: nat, payload: Digest,
                        contexts: seq<Context>, contexts': seq<Context>)
    requires forall c :: c in contexts && !(c.ContractCall? && c.args == []) ==> c in contexts'
    requires forall c :: c in contexts' && !(c.ContractCall? && c.args == []) ==> c in contexts
    ensures AuthAccepted(h, providers, sigs, now, payload, contexts)
       <==> AuthAccepted(h, providers, sigs, now, payload, contexts')
  {
    assert forall c: Context :: c.ContractCall? && c.args == [] ==> ContextMet(h, sigs, now, c);
    assert (forall c :: c in contexts ==> ContextMet(h, sigs, now, c))
      <==> (forall c :: c in contexts' ==> ContextMet(h, sigs, now, c));
  }
}
