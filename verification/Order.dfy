/** The order in which a bundle lists its spends and creates does not matter. */
module Order {
  import opened Types
  import opened Primitives
  import opened Settlement
  import opened ChannelAuth
  import opened Channel
  import opened Accounting
  import opened Authorization

  /** The requirements shown to the auth contract do not depend on the order of distinct spends. */
  lemma AuthArgsOrderFree(op: Operation, op': Operation)
    requires NoDup(SpendKeys(op)) && NoDup(SpendKeys(op'))
    requires forall e :: e in op.spend <==> e in op'.spend
    ensures AuthArgs(op) == AuthArgs(op')
  {
    AuthArgsFaithful(op);
    AuthArgsFaithful(op');
    assert op.spend == [] <==> op'.spend == [] by {
      assert op.spend != [] ==> op.spend[0] in op'.spend;
      assert op'.spend != [] ==> op'.spend[0] in op.spend;
    }
    if op.spend != [] {
      var r, r' := AuthArgs(op)[0].req, AuthArgs(op')[0].req;
      forall s | s in r
        ensures s in r' && r[s] == r'[s]
      {
        var e :| e in op.spend && s == P256(e.utxo);
        assert e in op'.spend;
      }
      assert forall s :: s in r' ==> s in r;
      assert r == r';
    }
  }

  lemma ProjectionNoDup<T, U>(xs: seq<T>, ys: seq<T>, f: T -> U, fx: seq<U>, fy: seq<U>)
    requires multiset(xs) == multiset(ys)
    requires |fx| == |xs| && forall i :: 0 <= i < |xs| ==> fx[i] == f(xs[i])
    requires |fy| == |ys| && forall i :: 0 <= i < |ys| ==> fy[i] == f(ys[i])
    requires NoDup(fx)
    ensures NoDup(fy)
    ensures forall u :: u in fx <==> u in fy
  {
    SameMembers(xs, ys);
    assert NoDup(xs);
    NoDupIsMultiplicity(xs);
    NoDupIsMultiplicity(ys);
    forall i, j | 0 <= i < j < |ys|
      ensures fy[i] != fy[j]
    {
      assert ys[i] in xs && ys[j] in xs;
      var i' :| 0 <= i' < |xs| && xs[i'] == ys[i];
      var j' :| 0 <= j' < |xs| && xs[j'] == ys[j];
      assert i' != j';
    }
    forall u
      ensures u in fx <==> u in fy
    {
      if u in fx {
        var i :| 0 <= i < |fx| && fx[i] == u;
        assert xs[i] in ys;
        var j :| 0 <= j < |ys| && ys[j] == xs[i];
        assert fy[j] == u;
      }
      if u in fy {
        var i :| 0 <= i < |fy| && fy[i] == u;
        assert ys[i] in xs;
        var j :| 0 <= j < |xs| && xs[j] == ys[i];
        assert fx[j] == u;
      }
    }
  }

  lemma NoDupSameMembers<T>(xs: seq<T>, ys: seq<T>)
    requires NoDup(xs) && NoDup(ys) && forall x :: x in xs <==> x in ys
    ensures multiset(xs) == multiset(ys)
  {
    NoDupIsMultiplicity(xs);
    NoDupIsMultiplicity(ys);
    forall x
      ensures multiset(xs)[x] == multiset(ys)[x]
    {
      assert x in xs <==> x in multiset(xs);
      assert x in ys <==> x in multiset(ys);
      assert multiset(xs)[x] <= 1 && multiset(ys)[x] <= 1;
    }
  }

  /** The digest lists of permuted bundles are permutations of each other. */
  lemma DigestsPermute(d: Deployment, op: Operation, op': Operation)
    requires multiset(op.spend) == multiset(op'.spend) && multiset(op.create) == multiset(op'.create)
    requires NoDup(SpendDigests(d, op)) && NoDup(OutKeys(CreateDigests(d, op)))
    ensures multiset(SpendDigests(d, op)) == multiset(SpendDigests(d, op'))
    ensures multiset(CreateDigests(d, op)) == multiset(CreateDigests(d, op'))
  {
    ProjectionNoDup(op.spend, op'.spend, (e: SpendEntry) => d.host.sha256(e.utxo.bytes),
                    SpendDigests(d, op), SpendDigests(d, op'));
    NoDupSameMembers(SpendDigests(d, op), SpendDigests(d, op'));
    assert NoDup(CreateDigests(d, op)) by {
      assert forall i :: 0 <= i < |op.create| ==> OutKeys(CreateDigests(d, op))[i] == CreateDigests(d, op)[i].0;
    }
    ProjectionNoDup(op.create, op'.create, (o: Output) => (d.host.sha256(o.utxo.bytes), o.amount),
                    CreateDigests(d, op), CreateDigests(d, op'));
    NoDupSameMembers(CreateDigests(d, op), CreateDigests(d, op'));
  }

  lemma PreprocessOrderFree(op: Operation, op': Operation)
    requires multiset(op.spend) == multiset(op'.spend) && multiset(op.create) == multiset(op'.create)
    requires op.deposit == op'.deposit && op.withdraw == op'.withdraw
    ensures Preprocess(op) == Preprocess(op')
  {
    PermutedOperationScansAlike(op, op');
    SameMembers(op.spend, op'.spend);
    SameMembers(op.create, op'.create);
    ExecutedMembers(op);
    ExecutedMembers(op');
    forall c | ExecutionBound(c)
      ensures c in ExecutedEffects(op) <==> c in ExecutedEffects(op')
    {
      if c.Create? {
        assert Output(c.utxo, c.amount) in op.create <==> Output(c.utxo, c.amount) in op'.create;
      }
    }
    assert ExecutedEffects(op) == ExecutedEffects(op');
    assert ListedEffects(op) == ListedEffects(op');
  }

  lemma BundleIsOrderFree(
    d: Deployment, w: World, op: Operation, op': Operation, tx: Tx, incoming: I128, outgoing: I128)
    requires multiset(op.spend) == multiset(op'.spend) && multiset(op.create) == multiset(op'.create)
    requires 0 <= incoming
    requires ProcessBundle(d, w, op, tx, incoming, outgoing).Ok?
    ensures ProcessBundle(d, w, op', tx, incoming, outgoing) == ProcessBundle(d, w, op, tx, incoming, outgoing)
  {
    var spends, creates := SpendDigests(d, op), CreateDigests(d, op);
    SettleExact(w.store, spends, creates, incoming, outgoing);
    DigestsPermute(d, op, op');
    SettleIsOrderFree(w.store, spends, SpendDigests(d, op'), creates, CreateDigests(d, op'), incoming, outgoing);
    ProjectionNoDup(op.spend, op'.spend, (e: SpendEntry) => e.utxo, SpendKeys(op), SpendKeys(op'));
    ProjectionNoDup(op.create, op'.create, (o: Output) => o.utxo, CreateKeys(op), CreateKeys(op'));
    SameMembers(op.spend, op'.spend);
    AuthArgsOrderFree(op, op');
  }

  /** Whoever assembles a bundle cannot change its outcome by ordering spends and creates. */
  lemma TransactIsOrderFree(d: Deployment, w: World, op: Operation, op': Operation, tx: Tx, script: Script)
    requires multiset(op.spend) == multiset(op'.spend) && multiset(op.create) == multiset(op'.create)
    requires op.deposit == op'.deposit && op.withdraw == op'.withdraw
    requires Transact(d, w, op, tx, script).Ok?
    ensures Transact(d, w, op', tx, script) == Transact(d, w, op, tx, script)
  {
    PreprocessOrderFree(op, op');
    SumExternalsExact(op.deposit, 0);
    BundleIsOrderFree(d, w, op, op', tx, Preprocess(op).value.0, Preprocess(op).value.1);
  }
}
