/** The per-UTXO store: one entry per hashed key, absent, positive (unspent) or zero (spent). */
module Storage {
  import opened Types

  function BalanceOf<K>(s: map<K, I128>, k: K): I128
  {
    if k in s then s[k] else -1
  }

  class Store {
    const sha256: seq<byte> -> Digest
    var entries: map<Digest, I128>

    constructor (sha256: seq<byte> -> Digest)
      ensures this.sha256 == sha256
      ensures entries == map[]
    {
      this.sha256 := sha256;
      entries := map[];
    }

    method Balance(u: Utxo) returns (amount: I128)
      ensures amount == BalanceOf(entries, sha256(u.bytes))
    {
      var k := sha256(u.bytes);
      if k in entries {
        return entries[k];
      }
      return -1;
    }

    method Create(u: Utxo, amount: I128) returns (r: Result<Unit>)
      modifies this
      ensures r.Ok? <==> 0 < amount && sha256(u.bytes) !in old(entries)
      ensures r.Err? ==> r.error == if amount <= 0 then InvalidCreateAmount else UtxoAlreadyExists
      ensures entries == if r.Ok? then old(entries)[sha256(u.bytes) := amount] else old(entries)
    {
      if amount <= 0 {
        return Err(InvalidCreateAmount);
      }
      var k := sha256(u.bytes);
      if k in entries {
        return Err(UtxoAlreadyExists);
      }
      entries := entries[k := amount];
      return Ok(Unit);
    }

    /** A spent entry stays, at zero: it blocks both a second spend and a second creation. */
    method Spend(u: Utxo) returns (r: Result<I128>)
      modifies this
      ensures r.Ok? <==> 0 < BalanceOf(old(entries), sha256(u.bytes))
      ensures r.Ok? ==> r.value == old(entries)[sha256(u.bytes)]
      ensures r.Err? ==> r.error == if sha256(u.bytes) in old(entries) then UtxoAlreadySpent else UtxoDoesNotExist
      ensures entries == if r.Ok? then old(entries)[sha256(u.bytes) := 0] else old(entries)
    {
      var k := sha256(u.bytes);
      if k !in entries {
        return Err(UtxoDoesNotExist);
      }
      var amount := entries[k];
      if amount <= 0 {
        return Err(UtxoAlreadySpent);
      }
      entries := entries[k := 0];
      return Ok(amount);
    }
  }
}
