/** The bundle engine: authorization and the two loops over the stored UTXOs. */
module UtxoCore {
  import opened Types
  import opened Primitives
  import opened Storage
  import opened Settlement
  import opened ChannelAuth
  import opened Channel

  method CalculateAuthRequirements(es: seq<SpendEntry>) returns (req: AuthRequirements)
    ensures req == AddRequirements(map[], es)
  {
    req := map[];
    for i := 0 to |es|
      invariant AddRequirements(req, es[i..]) == AddRequirements(map[], es)
    {
      assert es[i..][1..] == es[i + 1..];
      req := req[P256(es[i].utxo) := es[i].conditions];
    }
  }

  method SpendUtxos(d: Deployment, store: Store, op: Operation, incoming: I128) returns (r: Result<I128>)
    requires store.sha256 == d.host.sha256
    modifies store
    ensures SpendLoop(old(store.entries), SpendDigests(d, op), incoming) ==
      if r.Ok? then Ok(Accum(store.entries, r.value)) else Err(r.error)
  {
    var available: I128 := incoming;
    ghost var ds := SpendDigests(d, op);
    for i := 0 to |op.spend|
      invariant SpendLoop(old(store.entries), ds, incoming) == SpendLoop(store.entries, ds[i..], available)
    {
      assert ds[i..][0] == ds[i] && ds[i..][1..] == ds[i + 1..];
      var amount := store.Balance(op.spend[i].utxo);
      if amount == 0 {
        return Err(UtxoAlreadySpent);
      }
      if amount < 0 {
        return Err(UtxoDoesNotExist);
      }
      var _ := store.Spend(op.spend[i].utxo);
      if available + amount > I128_MAX {
        return Err(Trap);
      }
      available := available + amount;
    }
    return Ok(available);
  }

  method CreateUtxos(d: Deployment, store: Store, op: Operation, incoming: I128) returns (r: Result<I128>)
    requires store.sha256 == d.host.sha256
    modifies store
    ensures CreateLoop(old(store.entries), CreateDigests(d, op), incoming) ==
      if r.Ok? then Ok(Accum(store.entries, r.value)) else Err(r.error)
  {
    var available: I128 := incoming;
    ghost var ds := CreateDigests(d, op);
    for i := 0 to |op.create|
      invariant CreateLoop(old(store.entries), ds, incoming) == CreateLoop(store.entries, ds[i..], available)
    {
      assert ds[i..][0] == ds[i] && ds[i..][1..] == ds[i + 1..];
      var amount := op.create[i].amount;
      var balance := store.Balance(op.create[i].utxo);
      if balance != -1 {
        return Err(UtxoAlreadyExists);
      }
      if amount <= 0 {
        return Err(InvalidCreateAmount);
      }
      var created := store.Create(op.create[i].utxo, amount);
      if created.Err? {
        return Err(created.error);
      }
      if available - amount < I128_MIN {
        return Err(Trap);
      }
      available := available - amount;
    }
    return Ok(available);
  }

  /** `process_bundle`; `w` is the ledger on entry. */
  method ProcessBundleOn(d: Deployment, store: Store, auth: AuthContract, op: Operation, tx: Tx,
                         incoming: I128, outgoing: I128, now: nat, ghost w: World) returns (r: Result<Unit>)
    requires store.sha256 == d.host.sha256 && auth.host == d.host
    requires w.store == store.entries && w.providers == auth.providers && w.now == now
    modifies store
    ensures ProcessBundle(d, w, op, tx, incoming, outgoing) ==
      if r.Ok? then Ok(store.entries) else Err(r.error)
  {
    var distinct := NoDuplicates(SpendKeys(op));
    if !distinct {
      return Err(RepeatedSpendUtxo);
    }
    distinct := NoDuplicates(CreateKeys(op));
    if !distinct {
      return Err(RepeatedCreateUtxo);
    }
    var req := CalculateAuthRequirements(op.spend);
    var args := if req == map[] then [] else [Requirements(req)];
    var authorized := auth.CheckAuth(tx.payload, tx.sigs, tx.before + [ContractCall(d.self, args)] + tx.after, now);
    if authorized.Err? {
      return Err(AuthRejected);
    }
    var spent := SpendUtxos(d, store, op, incoming);
    if spent.Err? {
      return Err(spent.error);
    }
    var created := CreateUtxos(d, store, op, spent.value);
    if created.Err? {
      return Err(created.error);
    }
    if created.value != outgoing {
      return Err(UnbalancedBundle);
    }
    return Ok(Unit);
  }
}
