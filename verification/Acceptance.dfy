/** Exactly which calls of `transact` are accepted and what they leave behind, said of the lists of the
    operation, the ledger, and what the submitter attaches, not of the way the checks are carried out. */
module Acceptance {
  import opened Types
  import opened Sums
  import opened Primitives
  import opened Settlement
  import opened ChannelAuth
  import opened Token
  import opened Channel
  import opened Noninterference
  import opened Accounting
  import opened Authorization
  import opened Transfers
  import opened Runs
  import Payload

  // ----- What is asked of the lists -----

  /** No two conditions conflict; amounts are positive; no account deposits twice or is paid twice;
      an account on both sides carries one list; and every create and withdrawal listed with a spend
      or a deposit is executed. The lists of withdrawals bind nothing. */
  ghost predicate ListsAgree(op: Operation)
  {
    && (forall a, b :: Listed(op, a) && Listed(op, b) ==> !ConflictsWith(a, b))
    && (forall e :: e in op.deposit || e in op.withdraw ==> 0 < e.amount)
    && (forall i, j :: 0 <= i < j < |op.deposit| ==> op.deposit[i].addr != op.deposit[j].addr)
    && (forall i, j :: 0 <= i < j < |op.withdraw| ==> op.withdraw[i].addr != op.withdraw[j].addr)
    && (forall e, f :: e in op.deposit && f in op.withdraw && e.addr == f.addr ==> e.conditions == f.conditions)
    && (forall e, c :: e in op.spend && c in e.conditions ==> Executes(op, c))
    && (forall e, c :: e in op.deposit && c in e.conditions ==> Executes(op, c))
  }

  lemma ListsMean(op: Operation)
    ensures ListsAgree(op) <==>
      && PairwiseCompatible(AllConditions(op))
      && AllPositive(op.deposit) && AllPositive(op.withdraw)
      && NoDup(Addresses(op.deposit)) && NoDup(Addresses(op.withdraw)) && SameConditionsOnBothSides(op)
      && ListedEffects(op) <= ExecutedEffects(op)
  {
    ScanFindsConflicts(op);
    DistinctAddresses(op.deposit);
    DistinctAddresses(op.withdraw);
    BindingMeans(op);
  }

  lemma DistinctAddresses(es: seq<External>)
    ensures NoDup(Addresses(es)) <==> forall i, j :: 0 <= i < j < |es| ==> es[i].addr != es[j].addr
  {
    assert forall i :: 0 <= i < |es| ==> Addresses(es)[i] == es[i].addr;
  }

  // ----- What is asked of the store -----

  function KeyOf(d: Deployment, u: Utxo): Digest
  {
    d.host.sha256(u.bytes)
  }

  /** What the spent UTXOs hold. */
  function Held(d: Deployment, w: World, es: seq<SpendEntry>): int
  {
    if es == [] then 0
    else (if KeyOf(d, es[0].utxo) in w.store then w.store[KeyOf(d, es[0].utxo)] else 0) + Held(d, w, es[1..])
  }

  function Made(os: seq<Output>): int
  {
    if os == [] then 0 else os[0].amount + Made(os[1..])
  }

  /** Distinct unspent spends, distinct new positive creates, inputs equal to outputs over the
      integers, and room for the deposits on top of the supply. */
  ghost predicate Settles(d: Deployment, w: World, op: Operation)
  {
    && (forall i, j :: 0 <= i < j < |op.spend| ==> KeyOf(d, op.spend[i].utxo) != KeyOf(d, op.spend[j].utxo))
    && (forall i, j :: 0 <= i < j < |op.create| ==> KeyOf(d, op.create[i].utxo) != KeyOf(d, op.create[j].utxo))
    && (forall e :: e in op.spend ==> KeyOf(d, e.utxo) in w.store && 0 < w.store[KeyOf(d, e.utxo)])
    && (forall o :: o in op.create ==> KeyOf(d, o.utxo) !in w.store && 0 < o.amount)
    && Held(d, w, op.spend) + Total(op.deposit) == Made(op.create) + Total(op.withdraw)
    && w.supply + Total(op.deposit) <= I128_MAX
  }

  lemma {:induction false} HeldIsSpent(d: Deployment, w: World, op: Operation)
    ensures Held(d, w, op.spend) == SpentValue(d, w, op)
    decreases |op.spend|
  {
    if op.spend != [] {
      var rest := op.(spend := op.spend[1..]);
      assert SpendDigests(d, op)[1..] == SpendDigests(d, rest);
      HeldIsSpent(d, w, rest);
    }
  }

  lemma {:induction false} MadeIsCreated(d: Deployment, op: Operation)
    ensures Made(op.create) == CreatedValue(d, op)
    decreases |op.create|
  {
    if op.create != [] {
      var rest := op.(create := op.create[1..]);
      assert CreateDigests(d, op)[1..] == CreateDigests(d, rest);
      MadeIsCreated(d, rest);
    }
  }

  lemma SpendsMean(d: Deployment, w: World, op: Operation)
    ensures SpendsValid(w.store, SpendDigests(d, op)) <==>
      && (forall i, j :: 0 <= i < j < |op.spend| ==> KeyOf(d, op.spend[i].utxo) != KeyOf(d, op.spend[j].utxo))
      && (forall e :: e in op.spend ==> KeyOf(d, e.utxo) in w.store && 0 < w.store[KeyOf(d, e.utxo)])
    ensures SpendsValid(w.store, SpendDigests(d, op)) ==> NoDup(SpendKeys(op))
  {
    var ks := SpendDigests(d, op);
    assert forall i :: 0 <= i < |ks| ==> ks[i] == KeyOf(d, op.spend[i].utxo) && SpendKeys(op)[i] == op.spend[i].utxo;
    SpentDigest(d, op);
  }

  lemma SpentDigest(d: Deployment, op: Operation)
    ensures forall k :: k in SpendDigests(d, op) <==> exists e :: e in op.spend && KeyOf(d, e.utxo) == k
  {
    var ks := SpendDigests(d, op);
    assert forall i :: 0 <= i < |ks| ==> ks[i] == KeyOf(d, op.spend[i].utxo);
    forall e | e in op.spend
      ensures KeyOf(d, e.utxo) in ks
    {
      var i :| 0 <= i < |op.spend| && op.spend[i] == e;
      assert ks[i] in ks;
    }
  }

  lemma CreatesMean(d: Deployment, w: World, op: Operation)
    ensures CreatesValid(w.store, CreateDigests(d, op)) <==>
      && (forall i, j :: 0 <= i < j < |op.create| ==> KeyOf(d, op.create[i].utxo) != KeyOf(d, op.create[j].utxo))
      && (forall o :: o in op.create ==> KeyOf(d, o.utxo) !in w.store && 0 < o.amount)
    ensures CreatesValid(w.store, CreateDigests(d, op)) ==> NoDup(CreateKeys(op))
  {
    var outs := CreateDigests(d, op);
    assert forall i :: 0 <= i < |outs| ==>
      OutKeys(outs)[i] == KeyOf(d, op.create[i].utxo) && CreateKeys(op)[i] == op.create[i].utxo;
    CreatedDigest(d, op);
  }

  lemma CreatedDigest(d: Deployment, op: Operation)
    ensures forall p :: p in CreateDigests(d, op) <==>
      exists o :: o in op.create && KeyOf(d, o.utxo) == p.0 && o.amount == p.1
  {
    var outs := CreateDigests(d, op);
    assert forall i :: 0 <= i < |outs| ==> outs[i] == (KeyOf(d, op.create[i].utxo), op.create[i].amount);
    forall o | o in op.create
      ensures (KeyOf(d, o.utxo), o.amount) in outs
    {
      var i :| 0 <= i < |op.create| && op.create[i] == o;
      assert outs[i] in outs;
    }
  }

  // ----- What is asked of the attachments -----

  /** Every provider entry checks out, and there is one. */
  ghost predicate Vouched(d: Deployment, w: World, tx: Tx)
  {
    && (exists pk :: Provider(pk) in tx.sigs)
    && forall pk :: Provider(pk) in tx.sigs ==>
        && d.host.account(pk) in w.providers
        && w.now <= tx.sigs[Provider(pk)].validUntil
        && exists b :: tx.sigs[Provider(pk)].signature == Ed25519Sig(b) && d.host.ed25519(pk, tx.payload, b)
  }

  /** The owner of the spent UTXO signed its list, which is not empty, for this channel. */
  ghost predicate SpendSigned(d: Deployment, w: World, tx: Tx, e: SpendEntry)
  {
    && e.conditions != []
    && P256(e.utxo) in tx.sigs
    && var entry := tx.sigs[P256(e.utxo)];
    && w.now <= entry.validUntil
    && exists b :: entry.signature == P256Sig(b)
        && d.host.secp256r1(
             e.utxo, d.host.sha256(Payload.Preimage(e.conditions, entry.validUntil, d.self.strkey)), b)
  }

  /** Provider, owners and depositors authorized the call; other contexts of the entry are met too. */
  ghost predicate Authorized(d: Deployment, w: World, op: Operation, tx: Tx)
  {
    && Vouched(d, w, tx)
    && (forall e :: e in op.spend ==> SpendSigned(d, w, tx, e))
    && Consented(d, op, tx)
    && (forall c :: c in tx.before + tx.after ==> ContextMet(d.host, tx.sigs, w.now, c))
  }

  lemma SignatureMeans(d: Deployment, w: World, tx: Tx, e: SpendEntry)
    ensures SpendSigned(d, w, tx, e) <==>
      e.conditions != [] && OwnerSigned(d.host, tx.sigs, w.now, d.self, e.utxo, e.conditions)
  {
    if P256(e.utxo) in tx.sigs {
      var sig := tx.sigs[P256(e.utxo)].signature;
      assert sig.P256Sig? ==> sig == P256Sig(sig.bytes);
    }
  }

  lemma OwnContextMeans(d: Deployment, w: World, op: Operation, tx: Tx)
    requires NoDup(SpendKeys(op))
    ensures ContextMet(d.host, tx.sigs, w.now, ContractCall(d.self, AuthArgs(op))) <==>
      forall e :: e in op.spend ==> SpendSigned(d, w, tx, e)
  {
    forall e
      ensures SpendSigned(d, w, tx, e) <==>
        e.conditions != [] && OwnerSigned(d.host, tx.sigs, w.now, d.self, e.utxo, e.conditions)
    {
      SignatureMeans(d, w, tx, e);
    }
    if forall e :: e in op.spend ==> SpendSigned(d, w, tx, e) {
      OwnContextMet(d, w, op, tx);
    }
    AuthArgsFaithful(op);
    if ContextMet(d.host, tx.sigs, w.now, ContractCall(d.self, AuthArgs(op))) {
      forall e | e in op.spend
        ensures SpendSigned(d, w, tx, e)
      {
        var req := AuthArgs(op)[0].req;
        assert P256(e.utxo) in req;
        assert RequirementMet(d.host, tx.sigs, w.now, d.self, P256(e.utxo), req[P256(e.utxo)]);
      }
    }
  }

  lemma ContextsMean(d: Deployment, w: World, op: Operation, tx: Tx)
    ensures (forall c :: c in Contexts(d, op, tx) ==> ContextMet(d.host, tx.sigs, w.now, c)) <==>
      && ContextMet(d.host, tx.sigs, w.now, ContractCall(d.self, AuthArgs(op)))
      && forall c :: c in tx.before + tx.after ==> ContextMet(d.host, tx.sigs, w.now, c)
  {
    assert forall c :: c in Contexts(d, op, tx) <==>
      c in tx.before + tx.after || c == ContractCall(d.self, AuthArgs(op));
  }

  lemma AuthorizationMeans(d: Deployment, w: World, op: Operation, tx: Tx)
    requires NoDup(SpendKeys(op))
    ensures Authorized(d, w, op, tx) <==>
      && AuthAccepted(d.host, w.providers, tx.sigs, w.now, tx.payload, Contexts(d, op, tx))
      && Consented(d, op, tx)
  {
    ProvidersMean(d.host, w.providers, tx.sigs, w.now, tx.payload);
    ContextsMean(d, w, op, tx);
    OwnContextMeans(d, w, op, tx);
  }

  // ----- The channel's side -----

  ghost predicate ChannelAllows(d: Deployment, w: World, op: Operation, tx: Tx)
  {
    ListsAgree(op) && Settles(d, w, op) && Authorized(d, w, op, tx)
  }

  /** Every spent UTXO is spent, every created one holds its amount, the supply moved by what came in
      minus what went out, and nothing else of the channel changed. */
  ghost predicate Leaves(d: Deployment, w: World, op: Operation, w': World)
  {
    && (forall k :: k in w'.store <==> k in w.store || exists o :: o in op.create && KeyOf(d, o.utxo) == k)
    && (forall o :: o in op.create ==> KeyOf(d, o.utxo) in w'.store && w'.store[KeyOf(d, o.utxo)] == o.amount)
    && (forall k :: k in w.store ==>
         k in w'.store && w'.store[k] == if exists e :: e in op.spend && KeyOf(d, e.utxo) == k then 0 else w.store[k])
    && w'.supply == w.supply + Total(op.deposit) - Total(op.withdraw)
    && w' == w.(store := w'.store, supply := w'.supply, token := w'.token)
  }

  lemma SettlesMeans(d: Deployment, w: World, op: Operation)
    ensures Settles(d, w, op) <==>
      && SpendsValid(w.store, SpendDigests(d, op)) && CreatesValid(w.store, CreateDigests(d, op))
      && Balanced(d, w, op) && w.supply + Total(op.deposit) <= I128_MAX
    ensures Settles(d, w, op) ==> NoDup(SpendKeys(op)) && NoDup(CreateKeys(op))
  {
    HeldIsSpent(d, w, op);
    MadeIsCreated(d, op);
    SpendsMean(d, w, op);
    CreatesMean(d, w, op);
  }

  lemma AllowedMeans(d: Deployment, w: World, op: Operation, tx: Tx)
    ensures ChannelAllows(d, w, op, tx) <==>
      Admissible(d, w, op, tx) && Balanced(d, w, op) && w.supply + Total(op.deposit) <= I128_MAX
  {
    ListsMean(op);
    SettlesMeans(d, w, op);
    if NoDup(SpendKeys(op)) {
      AuthorizationMeans(d, w, op, tx);
    }
  }

  lemma UpdateMeans(d: Deployment, w: World, op: Operation, r: map<Digest, I128>)
    requires AtomicUpdate(w.store, SpendDigests(d, op), CreateDigests(d, op), r)
    ensures forall k :: k in r <==> k in w.store || exists o :: o in op.create && KeyOf(d, o.utxo) == k
    ensures forall o :: o in op.create ==> KeyOf(d, o.utxo) in r && r[KeyOf(d, o.utxo)] == o.amount
    ensures forall k :: k in w.store ==>
      k in r && r[k] == if exists e :: e in op.spend && KeyOf(d, e.utxo) == k then 0 else w.store[k]
  {
    SpentDigest(d, op);
    CreatedDigest(d, op);
    forall o | o in op.create
      ensures KeyOf(d, o.utxo) in r && r[KeyOf(d, o.utxo)] == o.amount
    {
      assert (KeyOf(d, o.utxo), o.amount) in CreateDigests(d, op);
    }
  }

  /** Whatever the asset does, an accepted call met every demand of the channel and left exactly that
      behind; and a call that meets them can only fail because the asset refuses. */
  lemma AcceptedMeans(d: Deployment, w: World, op: Operation, tx: Tx, script: Script)
    requires Books(w)
    ensures Transact(d, w, op, tx, script).Ok? <==>
      ChannelAllows(d, w, op, tx) && AssetRun(d, w.token, tx, Moves(op), script).Ok?
    ensures Transact(d, w, op, tx, script).Ok? ==>
      && Leaves(d, w, op, Transact(d, w, op, tx, script).value)
      && Transact(d, w, op, tx, script).value.token == AssetRun(d, w.token, tx, Moves(op), script).value
  {
    TransactExact(d, w, op, tx, script);
    AllowedMeans(d, w, op, tx);
    if Transact(d, w, op, tx, script).Ok? {
      UpdateMeans(d, w, op, Transact(d, w, op, tx, script).value.store);
    }
  }

  /** With an asset that never refuses, the channel's demands are all there is. */
  lemma ChannelAcceptsExactly(d: Deployment, w: World, op: Operation, tx: Tx)
    requires Books(w)
    ensures var r := Transact(d, w, op, tx, Inert(w.token, |op.deposit| + |op.withdraw|));
      && (r.Ok? <==> ChannelAllows(d, w, op, tx))
      && (r.Ok? ==> Leaves(d, w, op, r.value) && r.value.token == w.token)
  {
    assert |Moves(op)| == |op.deposit| + |op.withdraw|;
    InertAccepts(d, w.token, tx, Moves(op));
    AcceptedMeans(d, w, op, tx, Inert(w.token, |op.deposit| + |op.withdraw|));
  }

  // ----- The token's side -----

  /** Every depositor authorized the payment and can make it, the channel can hold all of them, and
      every recipient can take what is withdrawn to it, after its own deposit. */
  ghost predicate TokenAllows(d: Deployment, t: Ledger, op: Operation, tx: Tx)
  {
    var b := t.balances;
    && (forall e :: e in op.deposit ==> (e.addr, e.amount) in tx.payments && e.amount <= BalanceIn(b, e.addr))
    && BalanceIn(b, d.self) + Total(op.deposit) <= I128_MAX
    && (forall e :: e in op.withdraw && e.addr != d.self ==>
         BalanceIn(b, e.addr) - AmountFor(op.deposit, e.addr) + e.amount <= I128_MAX)
  }

  lemma {:induction false} HonestRunAppend(d: Deployment, t: Ledger, tx: Tx, xs: seq<Move>, ys: seq<Move>)
    ensures var r := AssetRun(d, t, tx, xs, Honest);
      AssetRun(d, t, tx, xs + ys, Honest) == if r.Ok? then AssetRun(d, r.value, tx, ys, Honest) else r
    decreases |xs|
  {
    if xs == [] {
      assert xs + ys == ys;
    } else {
      assert (xs + ys)[1..] == xs[1..] + ys;
      var t' := TokenTransfer(d, t, tx, xs[0]);
      if t'.Ok? {
        HonestRunAppend(d, t'.value, tx, xs[1..], ys);
      }
    }
  }

  lemma FirstStandsAlone(es: seq<External>)
    requires es != [] && AllPositive(es) && NoDup(Addresses(es))
    ensures AllPositive(es[1..]) && NoDup(Addresses(es[1..])) && 0 <= Total(es[1..])
    ensures forall e :: e in es <==> e == es[0] || e in es[1..]
    ensures forall e :: e in es[1..] ==> e.addr != es[0].addr
  {
    assert es == [es[0]] + es[1..];
    assert Addresses(es)[1..] == Addresses(es[1..]);
    NoDupTail(Addresses(es));
    SumExternalsExact(es[1..], 0);
    forall e | e in es[1..]
      ensures e.addr != es[0].addr
    {
      var i :| 0 <= i < |es[1..]| && es[1..][i] == e;
      assert Addresses(es[1..])[i] == e.addr;
    }
  }

  /** Of distinct depositors every one must have authorized and cover its payment, and the channel
      must be able to hold them all. */
  lemma {:induction false} PullsExact(d: Deployment, t: Ledger, tx: Tx, es: seq<External>)
    requires Sound(t) && AllPositive(es) && NoDup(Addresses(es)) && forall e :: e in es ==> e.addr != d.self
    ensures AssetRun(d, t, tx, Pulls(es), Honest).Ok? <==>
      && (forall e :: e in es ==> (e.addr, e.amount) in tx.payments && e.amount <= BalanceIn(t.balances, e.addr))
      && BalanceIn(t.balances, d.self) + Total(es) <= I128_MAX
    decreases |es|
  {
    if es != [] {
      FirstStandsAlone(es);
      assert Pulls(es)[1..] == Pulls(es[1..]);
      TransferMoves(t, es[0].addr, d.self, es[0].amount);
      var r := TransferSpec(t, es[0].addr, d.self, es[0].amount);
      if r.Ok? {
        PullsExact(d, r.value, tx, es[1..]);
      }
    }
  }

  /** What the channel's balance covers is only refused by a recipient that would overflow. */
  lemma {:induction false} PushesExact(d: Deployment, t: Ledger, tx: Tx, es: seq<External>)
    requires Sound(t) && AllPositive(es) && NoDup(Addresses(es)) && Total(es) <= BalanceIn(t.balances, d.self)
    ensures AssetRun(d, t, tx, Pushes(es), Honest).Ok? <==>
      forall e :: e in es && e.addr != d.self ==> BalanceIn(t.balances, e.addr) + e.amount <= I128_MAX
    decreases |es|
  {
    if es != [] {
      FirstStandsAlone(es);
      assert Pushes(es)[1..] == Pushes(es[1..]);
      TransferMoves(t, d.self, es[0].addr, es[0].amount);
      var r := TransferSpec(t, d.self, es[0].addr, es[0].amount);
      if r.Ok? {
        PushesExact(d, r.value, tx, es[1..]);
      }
    }
  }

  lemma AfterDeposits(d: Deployment, t: Ledger, tx: Tx, es: seq<External>)
    requires Sound(t) && AssetRun(d, t, tx, Pulls(es), Honest).Ok?
    ensures var t' := AssetRun(d, t, tx, Pulls(es), Honest).value;
      && Sound(t')
      && forall a :: BalanceIn(t'.balances, a)
           == BalanceIn(t.balances, a) + (if a == d.self then Total(es) else 0) - AmountFor(es, a)
  {
    forall a
      ensures BalanceIn(AssetRun(d, t, tx, Pulls(es), Honest).value.balances, a)
           == BalanceIn(t.balances, a) + (if a == d.self then Total(es) else 0) - AmountFor(es, a)
    {
      HonestRunMoves(d, t, tx, Pulls(es), a);
      GainOfPulls(d, es, a);
    }
    HonestRunMoves(d, t, tx, Pulls(es), d.self);
  }

  lemma TransfersExact(d: Deployment, t: Ledger, tx: Tx, op: Operation)
    requires Sound(t) && AllPositive(op.deposit) && AllPositive(op.withdraw)
    requires NoDup(Addresses(op.deposit)) && NoDup(Addresses(op.withdraw))
    requires forall e :: e in op.deposit ==> e.addr != d.self
    requires Total(op.withdraw) <= BalanceIn(t.balances, d.self) + Total(op.deposit)
    ensures AssetRun(d, t, tx, Moves(op), Honest).Ok? <==> TokenAllows(d, t, op, tx)
  {
    HonestRunAppend(d, t, tx, Pulls(op.deposit), Pushes(op.withdraw));
    PullsExact(d, t, tx, op.deposit);
    var pulled := AssetRun(d, t, tx, Pulls(op.deposit), Honest);
    if pulled.Ok? {
      AfterDeposits(d, t, tx, op.deposit);
      AmountForOthers(op.deposit, d.self);
      PushesExact(d, pulled.value, tx, op.withdraw);
    }
  }

  /** What a call over the token does to its ledger: no token is made or lost, no allowance is touched,
      and every balance changes by exactly what the operation says. */
  ghost predicate Moved(d: Deployment, op: Operation, t: Ledger, t': Ledger)
  {
    && t'.allowances == t.allowances
    && MapSum(t'.balances) == MapSum(t.balances)
    && forall a :: BalanceIn(t'.balances, a) == BalanceIn(t.balances, a)
         - AmountFor(op.deposit, a) + AmountFor(op.withdraw, a)
         + (if a == d.self then Total(op.deposit) - Total(op.withdraw) else 0)
  }

  lemma TokenMoves(d: Deployment, w: World, op: Operation, tx: Tx)
    requires Books(w) && Sound(w.token) && Transact(d, w, op, tx, Honest).Ok?
    ensures Moved(d, op, w.token, Transact(d, w, op, tx, Honest).value.token)
  {
    var t, t' := w.token, Transact(d, w, op, tx, Honest).value.token;
    forall a
      ensures BalanceIn(t'.balances, a) == BalanceIn(t.balances, a)
           - AmountFor(op.deposit, a) + AmountFor(op.withdraw, a)
           + (if a == d.self then Total(op.deposit) - Total(op.withdraw) else 0)
    {
      DepositorsPayRecipientsReceive(d, w, op, tx, a);
    }
    DepositorsPayRecipientsReceive(d, w, op, tx, d.self);
  }

  /** Over the token, if the channel's balance covers the withdrawals, a call is accepted exactly when
      the channel and the token allow it, and then changes store, supply and balances by exactly what
      it says. */
  lemma CoveredCallExact(d: Deployment, w: World, op: Operation, tx: Tx)
    requires Books(w) && Sound(w.token)
    requires Total(op.withdraw) <= BalanceIn(w.token.balances, d.self) + Total(op.deposit)
    ensures Transact(d, w, op, tx, Honest).Ok? <==> ChannelAllows(d, w, op, tx) && TokenAllows(d, w.token, op, tx)
    ensures Transact(d, w, op, tx, Honest).Ok? ==>
      && Leaves(d, w, op, Transact(d, w, op, tx, Honest).value)
      && Moved(d, op, w.token, Transact(d, w, op, tx, Honest).value.token)
  {
    AcceptedMeans(d, w, op, tx, Honest);
    if ChannelAllows(d, w, op, tx) {
      ListsMean(op);
      TransfersExact(d, w.token, tx, op);
    }
    if Transact(d, w, op, tx, Honest).Ok? {
      TokenMoves(d, w, op, tx);
    }
  }

  /** After the deposits the channel holds enough for all withdrawals of a balanced operation. */
  lemma WithdrawalsAreCovered(d: Deployment, w: World, op: Operation, tx: Tx)
    requires Books(w) && Solvent(d, w) && ChannelAllows(d, w, op, tx)
    ensures Total(op.withdraw) <= BalanceIn(w.token.balances, d.self) + Total(op.deposit)
  {
    AllowedMeans(d, w, op, tx);
    SpentWithinSupply(d, w, op);
    CreatedNonnegative(d, w, op);
  }

  /** A solvent channel covers every withdrawal it has to make, so this is exact for all calls. */
  lemma TokenCallExact(d: Deployment, w: World, op: Operation, tx: Tx)
    requires Books(w) && Solvent(d, w)
    ensures Transact(d, w, op, tx, Honest).Ok? <==> ChannelAllows(d, w, op, tx) && TokenAllows(d, w.token, op, tx)
    ensures Transact(d, w, op, tx, Honest).Ok? ==>
      && Leaves(d, w, op, Transact(d, w, op, tx, Honest).value)
      && Moved(d, op, w.token, Transact(d, w, op, tx, Honest).value.token)
  {
    AcceptedMeans(d, w, op, tx, Honest);
    if ChannelAllows(d, w, op, tx) {
      WithdrawalsAreCovered(d, w, op, tx);
      CoveredCallExact(d, w, op, tx);
    }
  }

  /** So it is in every state a run over the token reaches. */
  lemma RunAcceptsExactly(d: Deployment, w: World, calls: seq<Call>, op: Operation, tx: Tx)
    requires Deployed(d, w) && forall c :: c in calls ==> OnToken(c)
    ensures var now := Run(d, w, calls);
      Transact(d, now, op, tx, Honest).Ok? <==> ChannelAllows(d, now, op, tx) && TokenAllows(d, now.token, op, tx)
  {
    DeployedBooks(d, w);
    BooksInEveryRun(d, w, calls);
    SolventInEveryRun(d, w, calls);
    TokenCallExact(d, Run(d, w, calls), op, tx);
  }

  // ----- Deposits -----

  lemma MatchedCreatesAgree(d: Deployment, op: Operation)
    requires op.spend == [] && op.withdraw == []
    requires forall i, j :: 0 <= i < j < |op.create| ==> KeyOf(d, op.create[i].utxo) != KeyOf(d, op.create[j].utxo)
    requires forall e, c :: e in op.deposit && c in e.conditions ==> c.Create? && Output(c.utxo, c.amount) in op.create
    ensures forall a, b :: Listed(op, a) && Listed(op, b) ==> !ConflictsWith(a, b)
  {
    forall a, b | Listed(op, a) && Listed(op, b)
      ensures !ConflictsWith(a, b)
    {
      assert a.Create? && b.Create?;
      var i :| 0 <= i < |op.create| && op.create[i] == Output(a.utxo, a.amount);
      var j :| 0 <= j < |op.create| && op.create[j] == Output(b.utxo, b.amount);
    }
  }

  /** Distinct accounts deposit exactly what the distinct new UTXOs get, among them every create an
      account lists. */
  ghost predicate OnlyDeposits(d: Deployment, w: World, op: Operation)
  {
    && op.spend == [] && op.withdraw == []
    && (forall e :: e in op.deposit ==> 0 < e.amount)
    && (forall i, j :: 0 <= i < j < |op.deposit| ==> op.deposit[i].addr != op.deposit[j].addr)
    && (forall e, c :: e in op.deposit && c in e.conditions ==> c.Create? && Output(c.utxo, c.amount) in op.create)
    && (forall i, j :: 0 <= i < j < |op.create| ==> KeyOf(d, op.create[i].utxo) != KeyOf(d, op.create[j].utxo))
    && (forall o :: o in op.create ==> KeyOf(d, o.utxo) !in w.store && 0 < o.amount)
    && Made(op.create) == Total(op.deposit)
  }

  /** Every depositor authorized its list and its payment and can pay. */
  ghost predicate DepositorsPay(d: Deployment, w: World, op: Operation, tx: Tx)
  {
    forall e :: e in op.deposit ==>
      && e.addr != d.self && e.amount <= BalanceIn(w.token.balances, e.addr)
      && (e.addr, e.conditions) in tx.consents && (e.addr, e.amount) in tx.payments
  }

  lemma DepositListsAgree(d: Deployment, w: World, op: Operation)
    requires OnlyDeposits(d, w, op)
    ensures ListsAgree(op)
  {
    MatchedCreatesAgree(d, op);
    forall e, c | e in op.deposit && c in e.conditions
      ensures Executes(op, c)
    {
    }
  }

  lemma DepositsAllowed(d: Deployment, w: World, op: Operation, tx: Tx)
    requires OnlyDeposits(d, w, op) && DepositorsPay(d, w, op, tx) && Vouched(d, w, tx)
    requires tx.before == [] && tx.after == []
    requires w.supply + Total(op.deposit) <= I128_MAX
    requires BalanceIn(w.token.balances, d.self) + Total(op.deposit) <= I128_MAX
    ensures ChannelAllows(d, w, op, tx) && TokenAllows(d, w.token, op, tx)
  {
    DepositListsAgree(d, w, op);
    assert Settles(d, w, op);
    assert Authorized(d, w, op, tx);
  }

  lemma DepositsAccepted(d: Deployment, w: World, op: Operation, tx: Tx)
    requires Books(w) && Sound(w.token) && op.spend == [] && op.withdraw == []
    requires ChannelAllows(d, w, op, tx) && TokenAllows(d, w.token, op, tx)
    ensures var r := Transact(d, w, op, tx, Honest);
      && r.Ok?
      && Leaves(d, w, op, r.value)
      && (forall k :: k in w.store ==> r.value.store[k] == w.store[k])
      && forall a :: BalanceIn(r.value.token.balances, a) == BalanceIn(w.token.balances, a)
           - AmountFor(op.deposit, a) + if a == d.self then Total(op.deposit) else 0
  {
    SumExternalsExact(op.deposit, 0);
    CoveredCallExact(d, w, op, tx);
  }

  /** Depositors who authorize their lists of creates and their payments, and can pay, get what they
      ask for, one or several in a bundle and with any number of creates each: with one provider's
      signature the bundle is accepted when the supply and the channel's balance have room. */
  lemma DepositsSucceed(d: Deployment, w: World, op: Operation, tx: Tx, pk: seq<byte>, b: seq<byte>)
    requires Books(w) && Sound(w.token)
    requires OnlyDeposits(d, w, op) && DepositorsPay(d, w, op, tx)
    requires tx.before == [] && tx.after == []
    requires w.supply + Total(op.deposit) <= I128_MAX
    requires BalanceIn(w.token.balances, d.self) + Total(op.deposit) <= I128_MAX
    requires forall k :: Provider(k) in tx.sigs <==> k == pk
    requires d.host.account(pk) in w.providers && w.now <= tx.sigs[Provider(pk)].validUntil
    requires tx.sigs[Provider(pk)].signature == Ed25519Sig(b) && d.host.ed25519(pk, tx.payload, b)
    ensures var r := Transact(d, w, op, tx, Honest);
      && r.Ok?
      && Leaves(d, w, op, r.value)
      && (forall k :: k in w.store ==> r.value.store[k] == w.store[k])
      && forall a :: BalanceIn(r.value.token.balances, a) == BalanceIn(w.token.balances, a)
           - AmountFor(op.deposit, a) + if a == d.self then Total(op.deposit) else 0
  {
    OneProviderSuffices(d, w, tx, pk, b);
    ProvidersMean(d.host, w.providers, tx.sigs, w.now, tx.payload);
    DepositsAllowed(d, w, op, tx);
    DepositsAccepted(d, w, op, tx);
  }

  // ----- Withdrawals' lists -----

  lemma {:induction false} SameTransfers(es: seq<External>, es': seq<External>, total: I128)
    requires |es| == |es'| && forall i :: 0 <= i < |es| ==> es[i].addr == es'[i].addr && es[i].amount == es'[i].amount
    ensures SumExternals(es, total) == SumExternals(es', total) && Pushes(es) == Pushes(es')
  {
    if es != [] {
      if total + es[0].amount <= I128_MAX && 0 < es[0].amount {
        SameTransfers(es[1..], es'[1..], total + es[0].amount);
      } else {
        SameTransfers(es[1..], es'[1..], 0);
      }
    }
  }

  lemma BundleReadsSpendsAndCreates(
    d: Deployment, w: World, op: Operation, op': Operation, tx: Tx, incoming: I128, outgoing: I128)
    requires op.spend == op'.spend && op.create == op'.create
    ensures ProcessBundle(d, w, op, tx, incoming, outgoing) == ProcessBundle(d, w, op', tx, incoming, outgoing)
  {
    assert SpendKeys(op') == SpendKeys(op) && CreateKeys(op') == CreateKeys(op);
    assert SpendDigests(d, op') == SpendDigests(d, op) && CreateDigests(d, op') == CreateDigests(d, op);
  }

  lemma OtherListsPreprocess(op: Operation, withdraw: seq<External>)
    requires Preprocess(op).Ok?
    requires |withdraw| == |op.withdraw| && forall i :: 0 <= i < |withdraw| ==>
      withdraw[i].addr == op.withdraw[i].addr && withdraw[i].amount == op.withdraw[i].amount
    requires forall a, b :: Listed(op.(withdraw := withdraw), a) && Listed(op.(withdraw := withdraw), b) ==>
      !ConflictsWith(a, b)
    requires forall e, f :: e in op.deposit && f in withdraw && e.addr == f.addr ==> e.conditions == f.conditions
    ensures Preprocess(op.(withdraw := withdraw)) == Preprocess(op)
  {
    var op' := op.(withdraw := withdraw);
    ScanFindsConflicts(op');
    SameTransfers(op.withdraw, withdraw, 0);
    assert Addresses(op'.withdraw) == Addresses(op.withdraw);
    assert ExecutedList(op') == ExecutedList(op);
    assert ListedEffects(op') == ListedEffects(op);
  }

  /** The list a withdrawal carries is only checked for consistency: any other consistent one gives
      the same result. */
  lemma WithdrawalListsDoNotBind(
    d: Deployment, w: World, op: Operation, withdraw: seq<External>, tx: Tx, script: Script)
    requires Transact(d, w, op, tx, script).Ok?
    requires |withdraw| == |op.withdraw| && forall i :: 0 <= i < |withdraw| ==>
      withdraw[i].addr == op.withdraw[i].addr && withdraw[i].amount == op.withdraw[i].amount
    requires forall a, b :: Listed(op.(withdraw := withdraw), a) && Listed(op.(withdraw := withdraw), b) ==>
      !ConflictsWith(a, b)
    requires forall e, f :: e in op.deposit && f in withdraw && e.addr == f.addr ==> e.conditions == f.conditions
    ensures Transact(d, w, op.(withdraw := withdraw), tx, script) == Transact(d, w, op, tx, script)
  {
    var op' := op.(withdraw := withdraw);
    OtherListsPreprocess(op, withdraw);
    SameTransfers(op.withdraw, withdraw, 0);
    BundleReadsSpendsAndCreates(d, w, op, op', tx, Preprocess(op).value.0, Preprocess(op).value.1);
  }
}
