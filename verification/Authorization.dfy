/** What an accepted `transact` proves about its authorization: owners, depositors and a provider
    authorized it, every listed effect is executed, and what is not listed is exactly the residual. */
module Authorization {
  import opened Types
  import opened Sums
  import opened Primitives
  import opened Settlement
  import opened ChannelAuth
  import opened Channel
  import opened Noninterference
  import opened Accounting

  // ----- Owners -----

  /** The map holds the keys of the list, besides what it held. */
  lemma {:induction false} RequirementKeys(req: AuthRequirements, es: seq<SpendEntry>)
    ensures forall s :: s in AddRequirements(req, es) <==> s in req || exists e :: e in es && s == P256(e.utxo)
    decreases |es|
  {
    if es != [] {
      assert es == [es[0]] + es[1..];
      RequirementKeys(req[P256(es[0].utxo) := es[0].conditions], es[1..]);
    }
  }

  /** What is not in the list is not overwritten. */
  lemma {:induction false} RequirementsFrame(req: AuthRequirements, es: seq<SpendEntry>, s: SignerKey)
    requires s in req && forall e :: e in es ==> s != P256(e.utxo)
    ensures s in AddRequirements(req, es) && AddRequirements(req, es)[s] == req[s]
    decreases |es|
  {
    if es != [] {
      assert es == [es[0]] + es[1..];
      RequirementsFrame(req[P256(es[0].utxo) := es[0].conditions], es[1..], s);
    }
  }

  /** Of several entries under one key the last one counts. */
  lemma {:induction false} LastRequirementCounts(req: AuthRequirements, es: seq<SpendEntry>, i: nat)
    requires i < |es| && forall k :: i < k < |es| ==> es[k].utxo != es[i].utxo
    ensures P256(es[i].utxo) in AddRequirements(req, es)
    ensures AddRequirements(req, es)[P256(es[i].utxo)] == es[i].conditions
    decreases |es|
  {
    var req', rest := req[P256(es[0].utxo) := es[0].conditions], es[1..];
    assert forall j :: 0 <= j < |rest| ==> rest[j] == es[j + 1];
    if i == 0 {
      RequirementsFrame(req', rest, P256(es[0].utxo));
    } else {
      LastRequirementCounts(req', rest, i - 1);
    }
  }

  lemma AuthArgsFaithful(op: Operation)
    requires NoDup(SpendKeys(op))
    ensures AuthArgs(op) == [] <==> op.spend == []
    ensures op.spend != [] ==>
      && AuthArgs(op)[0].Requirements?
      && (forall s :: s in AuthArgs(op)[0].req <==> exists e :: e in op.spend && s == P256(e.utxo))
      && (forall e :: e in op.spend ==> AuthArgs(op)[0].req[P256(e.utxo)] == e.conditions)
  {
    assert forall i :: 0 <= i < |op.spend| ==> SpendKeys(op)[i] == op.spend[i].utxo;
    RequirementKeys(map[], op.spend);
    assert op.spend != [] ==> op.spend[0] in op.spend;
    forall e | e in op.spend
      ensures P256(e.utxo) in AddRequirements(map[], op.spend)
      ensures AddRequirements(map[], op.spend)[P256(e.utxo)] == e.conditions
    {
      var i :| 0 <= i < |op.spend| && op.spend[i] == e;
      LastRequirementCounts(map[], op.spend, i);
    }
  }

  lemma AcceptedChecks(d: Deployment, w: World, op: Operation, tx: Tx, script: Script)
    requires Transact(d, w, op, tx, script).Ok?
    ensures NoDup(SpendKeys(op))
    ensures ProvidersMet(d.host, w.providers, tx.sigs, w.now, tx.payload)
    ensures ContextMet(d.host, tx.sigs, w.now, ContractCall(d.self, AuthArgs(op)))
  {
    assert ContractCall(d.self, AuthArgs(op)) in Contexts(d, op, tx);
  }

  /** In an accepted call the requirement map holds exactly the spent keys with their own
      conditions, although it was built before repetitions were ruled out; it is skipped only when
      nothing is spent; and under each spent key an unexpired signature verifies over the payload of
      its own non-empty list for this channel. */
  lemma OwnersAuthorize(d: Deployment, w: World, op: Operation, tx: Tx, script: Script)
    requires Transact(d, w, op, tx, script).Ok?
    ensures AuthArgs(op) == [] <==> op.spend == []
    ensures op.spend != [] ==>
      && AuthArgs(op)[0].Requirements?
      && (forall s :: s in AuthArgs(op)[0].req <==> exists e :: e in op.spend && s == P256(e.utxo))
      && (forall e :: e in op.spend ==> AuthArgs(op)[0].req[P256(e.utxo)] == e.conditions)
    ensures forall e :: e in op.spend ==>
      e.conditions != [] && OwnerSigned(d.host, tx.sigs, w.now, d.self, e.utxo, e.conditions)
  {
    AcceptedChecks(d, w, op, tx, script);
    AuthArgsFaithful(op);
    forall e | e in op.spend
      ensures e.conditions != [] && OwnerSigned(d.host, tx.sigs, w.now, d.self, e.utxo, e.conditions)
    {
      var req := AuthArgs(op)[0].req;
      assert P256(e.utxo) in req;
      assert RequirementMet(d.host, tx.sigs, w.now, d.self, P256(e.utxo), req[P256(e.utxo)]);
    }
  }

  /** Somebody registered signed the call: there is a provider entry, and every provider entry is of
      a registered account, unexpired, and verifies over the payload of this call. */
  lemma ProvidersVouch(d: Deployment, w: World, op: Operation, tx: Tx, script: Script)
    requires Transact(d, w, op, tx, script).Ok?
    ensures exists pk :: Provider(pk) in tx.sigs
    ensures forall pk :: Provider(pk) in tx.sigs ==>
      && d.host.account(pk) in w.providers
      && w.now <= tx.sigs[Provider(pk)].validUntil
      && exists b :: tx.sigs[Provider(pk)].signature == Ed25519Sig(b) && d.host.ed25519(pk, tx.payload, b)
  {
    AcceptedChecks(d, w, op, tx, script);
    ProvidersMean(d.host, w.providers, tx.sigs, w.now, tx.payload);
  }

  /** Signatures under `pk` verify only for these payloads. */
  ghost predicate ProviderSignsOnly(h: Host, pk: seq<byte>, payloads: iset<Digest>)
  {
    forall p, b :: h.ed25519(pk, p, b) ==> p in payloads
  }

  /** If providers' signatures cannot be forged, a registered provider signed this very call. */
  lemma ProviderSignedThisCall(
    d: Deployment, w: World, op: Operation, tx: Tx, script: Script, signed: map<seq<byte>, iset<Digest>>)
    returns (pk: seq<byte>)
    requires Transact(d, w, op, tx, script).Ok?
    requires forall k :: Provider(k) in tx.sigs ==> k in signed && ProviderSignsOnly(d.host, k, signed[k])
    ensures pk in signed && d.host.account(pk) in w.providers && tx.payload in signed[pk]
  {
    ProvidersVouch(d, w, op, tx, script);
    pk :| Provider(pk) in tx.sigs;
  }

  /** And the signatures suffice: when the entry holds no other contexts, a provider's signature and
      every owner's over a non-empty list authorize the bundle. */
  lemma SignersAuthorize(d: Deployment, w: World, op: Operation, tx: Tx)
    requires NoDup(SpendKeys(op)) && tx.before == [] && tx.after == []
    requires ProvidersMet(d.host, w.providers, tx.sigs, w.now, tx.payload)
    requires forall e :: e in op.spend ==>
      e.conditions != [] && OwnerSigned(d.host, tx.sigs, w.now, d.self, e.utxo, e.conditions)
    ensures AuthAccepted(d.host, w.providers, tx.sigs, w.now, tx.payload, Contexts(d, op, tx))
  {
    OwnContextMet(d, w, op, tx);
    assert Contexts(d, op, tx) == [ContractCall(d.self, AuthArgs(op))];
  }

  /** One entry of a registered provider, unexpired and valid, is all the provider requirement asks. */
  lemma OneProviderSuffices(d: Deployment, w: World, tx: Tx, pk: seq<byte>, b: seq<byte>)
    requires forall k :: Provider(k) in tx.sigs <==> k == pk
    requires d.host.account(pk) in w.providers && w.now <= tx.sigs[Provider(pk)].validUntil
    requires tx.sigs[Provider(pk)].signature == Ed25519Sig(b) && d.host.ed25519(pk, tx.payload, b)
    ensures ProvidersMet(d.host, w.providers, tx.sigs, w.now, tx.payload)
  {
    ProvidersMean(d.host, w.providers, tx.sigs, w.now, tx.payload);
    assert Provider(pk) in tx.sigs;
  }

  lemma OwnContextMet(d: Deployment, w: World, op: Operation, tx: Tx)
    requires NoDup(SpendKeys(op))
    requires forall e :: e in op.spend ==>
      e.conditions != [] && OwnerSigned(d.host, tx.sigs, w.now, d.self, e.utxo, e.conditions)
    ensures ContextMet(d.host, tx.sigs, w.now, ContractCall(d.self, AuthArgs(op)))
  {
    AuthArgsFaithful(op);
    if op.spend != [] {
      var req := AuthArgs(op)[0].req;
      forall s | s in req
        ensures RequirementMet(d.host, tx.sigs, w.now, d.self, s, req[s])
      {
        var e :| e in op.spend && s == P256(e.utxo);
      }
    }
  }

  // ----- Depositors -----

  /** Every deposit of an accepted call was authorized by its account, which is not the channel,
      for exactly the conditions it carries. */
  lemma DepositorsAuthorize(d: Deployment, w: World, op: Operation, tx: Tx, script: Script)
    requires Transact(d, w, op, tx, script).Ok?
    ensures forall e :: e in op.deposit ==> e.addr != d.self && (e.addr, e.conditions) in tx.consents
  {
    var totals := Preprocess(op).value;
    var store := ProcessBundle(d, w, op, tx, totals.0, totals.1).value;
    ExecuteSplits(d, w.(guard := true, store := store), tx, Moves(op), script);
    PullsAre(op.deposit);
    forall e | e in op.deposit
      ensures e.addr != d.self && (e.addr, e.conditions) in tx.consents
    {
      var m := Pull(e.addr, e.amount, e.conditions);
      assert External(m.from, m.amount, m.conditions) == e;
      assert m in Moves(op);
      assert Consents(d, tx, m);
    }
  }

  // ----- Listed effects -----

  function Amounts(cs: set<Condition>): map<Condition, int>
  {
    map c | c in cs :: c.amount
  }

  /** The value of a set of effects. */
  ghost function Worth(cs: set<Condition>): int
  {
    MapSum(Amounts(cs))
  }

  function AmountSum(cs: seq<Condition>): int
  {
    if cs == [] then 0 else cs[0].amount + AmountSum(cs[1..])
  }

  lemma WorthAdd(cs: set<Condition>, c: Condition)
    requires c !in cs
    ensures Worth(cs + {c}) == Worth(cs) + c.amount
  {
    assert Amounts(cs + {c}) == Amounts(cs)[c := c.amount];
    MapSumUpdate(Amounts(cs), c, c.amount);
  }

  lemma {:induction false} WorthOfList(cs: seq<Condition>)
    requires NoDup(cs)
    ensures Worth(set c | c in cs) == AmountSum(cs)
  {
    if cs == [] {
      assert Amounts(set c | c in cs) == map[];
    } else {
      NoDupTail(cs);
      WorthOfList(cs[1..]);
      WorthAdd((set c | c in cs[1..]), cs[0]);
      assert cs == [cs[0]] + cs[1..];
      assert (set c | c in cs) == (set c | c in cs[1..]) + {cs[0]};
    }
  }

  lemma WorthSplit(part: set<Condition>, whole: set<Condition>)
    requires part <= whole
    ensures Worth(whole) == Worth(part) + Worth(whole - part)
  {
    MapSumPart(Amounts(whole), part);
    assert (map c | c in part :: Amounts(whole)[c]) == Amounts(part);
    assert Amounts(whole) - part == Amounts(whole - part);
  }

  lemma WorthlessIsEmpty(cs: set<Condition>)
    requires forall c :: c in cs ==> 0 < c.amount
    ensures Worth(cs) == 0 <==> cs == {}
  {
    if Worth(cs) == 0 {
      MapSumZeroIsEmpty(Amounts(cs));
      assert Amounts(cs).Keys == cs;
    }
    if cs == {} {
      assert Amounts(cs) == map[];
    }
  }

  lemma ExecutedListDistinct(op: Operation)
    requires NoDup(CreateKeys(op)) && NoDup(Addresses(op.withdraw))
    ensures NoDup(ExecutedList(op))
    ensures forall c, c' :: c in ExecutedEffects(op) && c' in ExecutedEffects(op) ==> !ConflictsWith(c, c')
  {
    var cs, n := ExecutedList(op), |op.create|;
    assert forall i :: 0 <= i < n ==> cs[i] == Create(CreateKeys(op)[i], op.create[i].amount);
    assert forall i :: n <= i < |cs| ==> cs[i] == ExtWithdraw(Addresses(op.withdraw)[i - n], op.withdraw[i - n].amount);
    forall c, c' | c in cs && c' in cs
      ensures !ConflictsWith(c, c')
    {
      var i :| 0 <= i < |cs| && cs[i] == c;
      var j :| 0 <= j < |cs| && cs[j] == c';
    }
  }

  lemma {:induction false} AmountSumAppend(xs: seq<Condition>, ys: seq<Condition>)
    ensures AmountSum(xs + ys) == AmountSum(xs) + AmountSum(ys)
  {
    if xs == [] {
      assert xs + ys == ys;
    } else {
      AmountSumAppend(xs[1..], ys);
      assert (xs + ys)[1..] == xs[1..] + ys;
    }
  }

  lemma {:induction false} AmountsMatchOutputs<K>(cs: seq<Condition>, outs: seq<(K, I128)>)
    requires |cs| == |outs| && forall i :: 0 <= i < |cs| ==> cs[i].amount == outs[i].1
    ensures AmountSum(cs) == OutValue(outs)
  {
    if cs != [] {
      AmountsMatchOutputs(cs[1..], outs[1..]);
    }
  }

  lemma {:induction false} AmountsMatchExternals(cs: seq<Condition>, es: seq<External>)
    requires |cs| == |es| && forall i :: 0 <= i < |cs| ==> cs[i].amount == es[i].amount
    ensures AmountSum(cs) == Total(es)
  {
    if cs != [] {
      AmountsMatchExternals(cs[1..], es[1..]);
    }
  }

  lemma WorthOfExecuted(d: Deployment, op: Operation)
    requires NoDup(CreateKeys(op)) && NoDup(Addresses(op.withdraw))
    ensures Worth(ExecutedEffects(op)) == CreatedValue(d, op) + Total(op.withdraw)
  {
    ExecutedListDistinct(op);
    WorthOfList(ExecutedList(op));
    var cs, n := ExecutedList(op), |op.create|;
    assert cs == cs[..n] + cs[n..];
    AmountSumAppend(cs[..n], cs[n..]);
    AmountsMatchOutputs(cs[..n], CreateDigests(d, op));
    AmountsMatchExternals(cs[n..], op.withdraw);
  }

  /** The operation carries out what the condition fixes; conditions of other kinds fix nothing. */
  ghost predicate Executes(op: Operation, c: Condition)
  {
    match c
    case Create(u, x) => Output(u, x) in op.create
    case ExtWithdraw(a, x) => exists e :: e in op.withdraw && e.addr == a && e.amount == x
    case _ => true
  }

  /** Every create and withdrawal listed with a spend or a deposit of the submitted operation is
      executed, with its key and amount. */
  lemma ListedEffectsHappen(d: Deployment, w: World, op: Operation, tx: Tx, script: Script)
    requires Transact(d, w, op, tx, script).Ok?
    ensures forall e, c :: e in op.spend && c in e.conditions ==> Executes(op, c)
    ensures forall e, c :: e in op.deposit && c in e.conditions ==> Executes(op, c)
  {
    assert ListedEffects(op) <= ExecutedEffects(op);
    BoundMeansExecutes(op);
  }

  lemma BoundMeansExecutes(op: Operation)
    requires ListedEffects(op) <= ExecutedEffects(op)
    ensures forall e, c :: e in op.spend && c in e.conditions ==> Executes(op, c)
    ensures forall e, c :: e in op.deposit && c in e.conditions ==> Executes(op, c)
  {
    ExecutedMembers(op);
    forall c | c in SpendConditions(op.spend) + ExternalConditions(op.deposit)
      ensures Executes(op, c)
    {
      assert ExecutionBound(c) ==> c in ListedEffects(op);
    }
    var all := SpendConditions(op.spend) + ExternalConditions(op.deposit);
    assert forall c :: c in SpendConditions(op.spend) ==> c in all;
    assert forall c :: c in ExternalConditions(op.deposit) ==> c in all;
  }

  /** The executed effects that no spend or deposit lists are worth exactly the inputs minus the
      distinct listed ones, although effects are compared as a set and value is summed over lists. */
  lemma UnlistedResidual(d: Deployment, w: World, op: Operation, tx: Tx, script: Script)
    requires Books(w) && Transact(d, w, op, tx, script).Ok?
    ensures ListedEffects(op) <= ExecutedEffects(op)
    ensures Worth(ExecutedEffects(op) - ListedEffects(op))
         == SpentValue(d, w, op) + Total(op.deposit) - Worth(ListedEffects(op))
  {
    TransactExact(d, w, op, tx, script);
    WorthOfExecuted(d, op);
    WorthSplit(ListedEffects(op), ExecutedEffects(op));
  }

  lemma ExecutedMembers(op: Operation)
    ensures forall u, x :: Create(u, x) in ExecutedEffects(op) <==> Output(u, x) in op.create
    ensures forall a, x :: ExtWithdraw(a, x) in ExecutedEffects(op) <==>
      exists e :: e in op.withdraw && e.addr == a && e.amount == x
    ensures forall c :: c in ExecutedEffects(op) ==> ExecutionBound(c)
  {
    var cs, n := ExecutedList(op), |op.create|;
    assert forall i :: 0 <= i < n ==> cs[i] == Create(op.create[i].utxo, op.create[i].amount);
    assert forall i :: 0 <= i < |op.withdraw| ==> cs[n + i] == ExtWithdraw(op.withdraw[i].addr, op.withdraw[i].amount);
    assert forall c :: c in ExecutedEffects(op) <==> c in cs;
    forall u, x | Output(u, x) in op.create
      ensures Create(u, x) in cs
    {
      var i :| 0 <= i < n && op.create[i] == Output(u, x);
      assert cs[i] == Create(u, x);
    }
    forall e | e in op.withdraw
      ensures ExtWithdraw(e.addr, e.amount) in cs
    {
      var i :| 0 <= i < |op.withdraw| && op.withdraw[i] == e;
      assert cs[n + i] == ExtWithdraw(e.addr, e.amount);
    }
  }

  /** Comparing the two sets of effects asks for exactly that, and no more. */
  lemma BindingMeans(op: Operation)
    ensures ListedEffects(op) <= ExecutedEffects(op) <==>
      && (forall e, c :: e in op.spend && c in e.conditions ==> Executes(op, c))
      && (forall e, c :: e in op.deposit && c in e.conditions ==> Executes(op, c))
  {
    if ListedEffects(op) <= ExecutedEffects(op) {
      BoundMeansExecutes(op);
    }
    ExecutedMembers(op);
    forall c | c in ListedEffects(op) && Executes(op, c)
      ensures c in ExecutedEffects(op)
    {
      if c.Create? {
        assert c == Create(c.utxo, c.amount);
      } else {
        assert c == ExtWithdraw(c.addr, c.amount);
      }
    }
  }

  lemma ExecutedPositive(d: Deployment, w: World, op: Operation, tx: Tx)
    requires Admissible(d, w, op, tx)
    ensures forall c :: c in ExecutedEffects(op) ==> 0 < c.amount
  {
    ExecutedMembers(op);
    forall o | o in op.create
      ensures 0 < o.amount
    {
      var i :| 0 <= i < |op.create| && op.create[i] == o;
      assert CreateDigests(d, op)[i] in CreateDigests(d, op);
    }
    forall c | c in ExecutedEffects(op)
      ensures 0 < c.amount
    {
      if c.Create? {
        assert Output(c.utxo, c.amount) in op.create;
      } else {
        assert ExtWithdraw(c.addr, c.amount) in ExecutedEffects(op);
      }
    }
  }

  /** When the listed conditions allocate all of the inputs, nothing is left to choose: the executed
      effects are exactly the listed ones. And only then. */
  lemma FullyListedLeavesNoFreedom(d: Deployment, w: World, op: Operation, tx: Tx, script: Script)
    requires Books(w) && Transact(d, w, op, tx, script).Ok?
    ensures Worth(ListedEffects(op)) == SpentValue(d, w, op) + Total(op.deposit)
       <==> ExecutedEffects(op) == ListedEffects(op)
  {
    TransactExact(d, w, op, tx, script);
    UnlistedResidual(d, w, op, tx, script);
    ExecutedPositive(d, w, op, tx);
    var extra := ExecutedEffects(op) - ListedEffects(op);
    WorthlessIsEmpty(extra);
    assert ListedEffects(op) <= ExecutedEffects(op);
    assert ExecutedEffects(op) == ListedEffects(op) + extra;
  }

  /** Binding makes the conflict scan redundant for the conditions it governs: listed creates and
      withdrawals that are all executed by lists without repeated keys cannot conflict. */
  lemma BindingImpliesConsistency(op: Operation)
    requires ListedEffects(op) <= ExecutedEffects(op)
    requires NoDup(CreateKeys(op)) && NoDup(Addresses(op.withdraw))
    ensures forall c, c' ::
      && c in SpendConditions(op.spend) + ExternalConditions(op.deposit) && ExecutionBound(c)
      && c' in SpendConditions(op.spend) + ExternalConditions(op.deposit) && ExecutionBound(c')
      ==> !ConflictsWith(c, c')
  {
    ExecutedListDistinct(op);
    forall c, c' |
      && c in SpendConditions(op.spend) + ExternalConditions(op.deposit) && ExecutionBound(c)
      && c' in SpendConditions(op.spend) + ExternalConditions(op.deposit) && ExecutionBound(c')
      ensures !ConflictsWith(c, c')
    {
      assert c in ListedEffects(op) && c' in ListedEffects(op);
    }
  }

  // ----- What a conflict means -----

  ghost predicate CanExecuteBoth(op: Operation, c: Condition, c': Condition)
  {
    && NoDup(CreateKeys(op)) && NoDup(Addresses(op.withdraw))
    && c in ExecutedEffects(op) && c' in ExecutedEffects(op)
  }

  /** The least operation that executes both effects. */
  function Executing(c: Condition, c': Condition): Operation
    requires ExecutionBound(c) && ExecutionBound(c')
  {
    Operation([],
              (if c.Create? then [Output(c.utxo, c.amount)] else [])
              + (if c'.Create? && c != c' then [Output(c'.utxo, c'.amount)] else []),
              [],
              (if c.ExtWithdraw? then [External(c.addr, c.amount, [])] else [])
              + (if c'.ExtWithdraw? && c != c' then [External(c'.addr, c'.amount, [])] else []))
  }

  lemma ExecutingRunsBoth(c: Condition, c': Condition)
    requires ExecutionBound(c) && ExecutionBound(c')
    ensures forall x :: x == c || x == c' ==>
      && (x.Create? ==> Output(x.utxo, x.amount) in Executing(c, c').create)
      && (x.ExtWithdraw? ==> External(x.addr, x.amount, []) in Executing(c, c').withdraw)
  {
    var op := Executing(c, c');
    if c.Create? { assert op.create[0] == Output(c.utxo, c.amount); }
    if c'.Create? && c != c' { assert op.create[|op.create| - 1] == Output(c'.utxo, c'.amount); }
    if c.ExtWithdraw? { assert op.withdraw[0] == External(c.addr, c.amount, []); }
    if c'.ExtWithdraw? && c != c' { assert op.withdraw[|op.withdraw| - 1] == External(c'.addr, c'.amount, []); }
  }

  /** Two effects conflict exactly when no operation with distinct keys can execute both. */
  lemma ConflictMeansUnexecutable(c: Condition, c': Condition)
    requires ExecutionBound(c) && ExecutionBound(c')
    ensures ConflictsWith(c, c') <==> forall op: Operation :: !CanExecuteBoth(op, c, c')
  {
    if ConflictsWith(c, c') {
      forall op: Operation
        ensures !CanExecuteBoth(op, c, c')
      {
        if NoDup(CreateKeys(op)) && NoDup(Addresses(op.withdraw)) {
          ExecutedListDistinct(op);
        }
      }
    } else {
      CompatibleEffectsExecute(c, c');
    }
  }

  lemma CompatibleEffectsExecute(c: Condition, c': Condition)
    requires ExecutionBound(c) && ExecutionBound(c') && !ConflictsWith(c, c')
    ensures CanExecuteBoth(Executing(c, c'), c, c')
  {
    ExecutingIsDistinct(c, c');
    ExecutingRunsBoth(c, c');
    ListedIsExecuted(Executing(c, c'), c);
    ListedIsExecuted(Executing(c, c'), c');
  }

  lemma ExecutingIsDistinct(c: Condition, c': Condition)
    requires ExecutionBound(c) && ExecutionBound(c') && !ConflictsWith(c, c')
    ensures NoDup(CreateKeys(Executing(c, c'))) && NoDup(Addresses(Executing(c, c').withdraw))
  {
    var op := Executing(c, c');
    if c.Create? && c'.Create? {
      assert CreateKeys(op) == if c == c' then [c.utxo] else [c.utxo, c'.utxo];
      assert op.withdraw == [];
    } else if c.ExtWithdraw? && c'.ExtWithdraw? {
      assert op.create == [];
      assert Addresses(op.withdraw) == if c == c' then [c.addr] else [c.addr, c'.addr];
    } else {
      assert |op.create| == 1 && |op.withdraw| == 1;
    }
  }

  lemma ListedIsExecuted(op: Operation, c: Condition)
    requires ExecutionBound(c)
    requires c.Create? ==> Output(c.utxo, c.amount) in op.create
    requires c.ExtWithdraw? ==> External(c.addr, c.amount, []) in op.withdraw
    ensures c in ExecutedEffects(op)
  {
    ExecutedMembers(op);
  }
}
