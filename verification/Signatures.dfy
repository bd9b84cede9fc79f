/** What an owner who signed a payload can rely on, whatever condition list is submitted under that
    signature. The contract verifies a signature over bytes, and acts on the submitted list. */
module Signatures {
  import opened Types
  import opened Primitives
  import opened Settlement
  import opened ChannelAuth
  import opened Channel
  import opened Accounting
  import opened Authorization
  import Payload

  /** One thing an owner signed: a list of conditions and an expiry. */
  datatype Signed = Signed(conditions: seq<Condition>, live: U32)

  function PayloadOf(contract: Address, s: Signed): seq<byte>
  {
    Payload.Preimage(s.conditions, s.live, contract.strkey)
  }

  /** Signatures under `u` verify only for payloads the owner signed: unforgeability of the scheme
      together with collision resistance of the hash, for this contract. */
  ghost predicate SignsOnly(h: Host, contract: Address, u: Utxo, signed: iset<Signed>)
  {
    forall p: seq<byte>, b: seq<byte> :: h.secp256r1(u, h.sha256(p), b) ==>
      exists s :: s in signed && PayloadOf(contract, s) == p
  }

  lemma PayloadFound(h: Host, contract: Address, u: Utxo, signed: iset<Signed>, p: seq<byte>, b: seq<byte>)
    requires SignsOnly(h, contract, u, signed) && h.secp256r1(u, h.sha256(p), b)
    ensures exists s :: s in signed && PayloadOf(contract, s) == p
  {
  }

  /** Everything signed that a bundle can execute is executed, with its key and amount. */
  ghost predicate AllExecuted(op: Operation, conditions: seq<Condition>)
  {
    forall c :: c in conditions ==> Executes(op, c)
  }

  /** For every UTXO spent in an accepted call its owner signed some list, still unexpired, whose
      creates are all executed; if that list contains no withdrawal, all its effects are. */
  lemma OwnersCreatesHappen(
    d: Deployment, w: World, op: Operation, tx: Tx, script: Script, e: SpendEntry, signed: iset<Signed>)
    returns (s: Signed)
    requires Transact(d, w, op, tx, script).Ok? && e in op.spend
    requires SignsOnly(d.host, d.self, e.utxo, signed)
    requires forall s :: s in signed ==> Payload.Sec1Creates(s.conditions)
    ensures s in signed && w.now <= s.live
    ensures PayloadOf(d.self, s) == PayloadOf(d.self, Signed(e.conditions, s.live))
    ensures forall c :: c in s.conditions && c.Create? ==> Output(c.utxo, c.amount) in op.create
    ensures (forall c :: c in s.conditions ==> !c.ExtWithdraw?) ==> AllExecuted(op, s.conditions)
  {
    OwnersAuthorize(d, w, op, tx, script);
    ListedEffectsHappen(d, w, op, tx, script);
    assert OwnerSigned(d.host, tx.sigs, w.now, d.self, e.utxo, e.conditions);
    var entry := tx.sigs[P256(e.utxo)];
    var p := Payload.Preimage(e.conditions, entry.validUntil, d.self.strkey);
    PayloadFound(d.host, d.self, e.utxo, signed, p, entry.signature.bytes);
    s :| s in signed && PayloadOf(d.self, s) == p;
    Payload.PayloadFixesCreates(s.conditions, e.conditions, s.live, entry.validUntil, d.self.strkey);
    Payload.PrefixCarriesCreates(s.conditions, e.conditions);
    forall c | c in s.conditions && c.Create?
      ensures Output(c.utxo, c.amount) in op.create
    {
      assert c in e.conditions && Executes(op, c);
    }
  }

  /** A depositor authorizes the condition list itself, so all of its creates and withdrawals are
      executed. */
  lemma DepositorsEffectsHappen(d: Deployment, w: World, op: Operation, tx: Tx, script: Script, e: External)
    requires Transact(d, w, op, tx, script).Ok? && e in op.deposit
    ensures (e.addr, e.conditions) in tx.consents && AllExecuted(op, e.conditions)
  {
    DepositorsAuthorize(d, w, op, tx, script);
    ListedEffectsHappen(d, w, op, tx, script);
  }

  // ----- Withdrawals are not bound by an owner's signature -----

  /** Spend `u`, listed with `listed`, into one new UTXO `v`. */
  function Respent(u: Utxo, listed: seq<Condition>, v: Utxo, amount: I128): Operation
  {
    Operation([SpendEntry(u, listed)], [Output(v, amount)], [], [])
  }

  lemma RespentIsAdmissible(d: Deployment, w: World, u: Utxo, a: Address, x: I128, v: Utxo, tx: Tx)
    requires Books(w) && 0 < x
    requires BalanceOf(w, d, u) == x && BalanceOf(w, d, v) == -1
    requires tx.before == [] && tx.after == []
    requires ProvidersMet(d.host, w.providers, tx.sigs, w.now, tx.payload)
    requires OwnerSigned(d.host, tx.sigs, w.now, d.self, u, [ExtDeposit(a, x)])
    ensures var op := Respent(u, [ExtDeposit(a, x)], v, x);
      && Admissible(d, w, op, tx) && Balanced(d, w, op)
  {
    var op := Respent(u, [ExtDeposit(a, x)], v, x);
    assert SpendKeys(op) == [u] && CreateKeys(op) == [v];
    assert SpendDigests(d, op) == [d.host.sha256(u.bytes)];
    assert CreateDigests(d, op) == [(d.host.sha256(v.bytes), x)];
    SignersAuthorize(d, w, op, tx);
    OneCondition(op, ExtDeposit(a, x));
    assert Value(w.store, SpendDigests(d, op)) == x by {
      assert SpendDigests(d, op)[1..] == [];
    }
    assert OutValue(CreateDigests(d, op)) == x by {
      assert CreateDigests(d, op)[1..] == [];
    }
  }

  function BalanceOf(w: World, d: Deployment, u: Utxo): int
  {
    var k := d.host.sha256(u.bytes);
    if k in w.store then w.store[k] else -1
  }

  lemma OneCondition(op: Operation, c: Condition)
    requires c.ExtDeposit? && op.deposit == [] && op.withdraw == []
    requires forall e :: e in op.spend ==> e.conditions == [c]
    ensures PairwiseCompatible(AllConditions(op)) && ListedEffects(op) == {}
  {
    assert forall x :: x in AllConditions(op) ==> x == c;
    CompatibilityIsOrderFree(AllConditions(op));
  }

  /** An owner who signs one withdrawal of a whole UTXO is not guaranteed that withdrawal: with the
      same signature, a bundle that lists the deposit of the same spelling and creates any fresh
      UTXO for the amount is accepted, and withdraws nothing. */
  lemma SignedWithdrawalNeedNotHappen(d: Deployment, w: World, u: Utxo, a: Address, x: I128, v: Utxo, tx: Tx)
    requires Books(w) && 0 < x
    requires BalanceOf(w, d, u) == x && BalanceOf(w, d, v) == -1
    requires tx.before == [] && tx.after == []
    requires ProvidersMet(d.host, w.providers, tx.sigs, w.now, tx.payload)
    requires OwnerSigned(d.host, tx.sigs, w.now, d.self, u, [ExtWithdraw(a, x)])
    ensures var op := Respent(u, [ExtDeposit(a, x)], v, x);
      && Transact(d, w, op, tx, Honest).Ok?
      && !Executes(op, ExtWithdraw(a, x))
  {
    var op := Respent(u, [ExtDeposit(a, x)], v, x);
    Payload.DepositSpellsLikeWithdrawal(a, x, tx.sigs[P256(u)].validUntil, d.self.strkey);
    RespentIsAdmissible(d, w, u, a, x, v, tx);
    TransactExact(d, w, op, tx, Honest);
  }
}
