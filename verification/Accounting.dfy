/** When exactly `transact` accepts, what it leaves behind, and the supply at every point inside. */
module Accounting {
  import opened Types
  import opened Sums
  import opened Primitives
  import opened Settlement
  import opened ChannelAuth
  import opened Token
  import opened Channel
  import opened Noninterference

  /** The channel's books: no call in progress, no negative entry, and a recorded supply equal to
      the sum of the unspent UTXOs (spent ones stand at zero). */
  ghost predicate Books(w: World)
  {
    && !w.guard
    && (forall k :: k in w.store ==> 0 <= w.store[k])
    && w.supply == MapSum(w.store)
  }

  function Total(es: seq<External>): int
  {
    if es == [] then 0 else es[0].amount + Total(es[1..])
  }

  ghost predicate AllPositive(es: seq<External>)
  {
    forall e :: e in es ==> 0 < e.amount
  }

  lemma {:induction false} SumExternalsExact(es: seq<External>, total: I128)
    requires 0 <= total
    ensures SumExternals(es, total).Ok? <==> AllPositive(es) && total + Total(es) <= I128_MAX
    ensures SumExternals(es, total).Ok? ==> SumExternals(es, total).value == total + Total(es)
    ensures AllPositive(es) ==> 0 <= Total(es)
  {
    if es != [] {
      assert es == [es[0]] + es[1..];
      if 0 < es[0].amount && total + es[0].amount <= I128_MAX {
        SumExternalsExact(es[1..], total + es[0].amount);
      } else if 0 < es[0].amount {
        SumExternalsExact(es[1..], 0);
      }
    }
  }

  /** What the moves add to the supply. */
  function Net(moves: seq<Move>): int
  {
    if moves == [] then 0
    else
      var amount: int := moves[0].amount;
      (if moves[0].Pull? then amount else -amount) + Net(moves[1..])
  }

  lemma {:induction false} NetAppend(xs: seq<Move>, ys: seq<Move>)
    ensures Net(xs + ys) == Net(xs) + Net(ys)
  {
    if xs == [] {
      assert xs + ys == ys;
    } else {
      NetAppend(xs[1..], ys);
      assert (xs + ys)[1..] == xs[1..] + ys;
    }
  }

  lemma {:induction false} NetOfPulls(es: seq<External>)
    ensures Net(Pulls(es)) == Total(es)
  {
    if es != [] {
      NetOfPulls(es[1..]);
      assert Pulls(es)[1..] == Pulls(es[1..]);
    }
  }

  lemma {:induction false} NetOfPushes(es: seq<External>)
    ensures Net(Pushes(es)) == -Total(es)
  {
    if es != [] {
      NetOfPushes(es[1..]);
      assert Pushes(es)[1..] == Pushes(es[1..]);
    }
  }

  lemma {:induction false} SupplyRunNet(supply: I128, moves: seq<Move>)
    ensures SupplyRun(supply, moves).Ok? ==> SupplyRun(supply, moves).value == supply + Net(moves)
    decreases |moves|
  {
    if moves != [] && MoveSupply(supply, moves[0]).Ok? {
      SupplyRunNet(MoveSupply(supply, moves[0]).value, moves[1..]);
    }
  }

  lemma {:induction false} SupplyRunAppend(supply: I128, xs: seq<Move>, ys: seq<Move>)
    ensures SupplyRun(supply, xs + ys) ==
      if SupplyRun(supply, xs).Ok? then SupplyRun(SupplyRun(supply, xs).value, ys) else SupplyRun(supply, xs)
    decreases |xs|
  {
    if xs == [] {
      assert xs + ys == ys;
    } else {
      assert (xs + ys)[1..] == xs[1..] + ys;
      if MoveSupply(supply, xs[0]).Ok? {
        SupplyRunAppend(MoveSupply(supply, xs[0]).value, xs[1..], ys);
      }
    }
  }

  lemma {:induction false} PullsRunExact(supply: I128, es: seq<External>)
    requires AllPositive(es) && 0 <= supply
    ensures SupplyRun(supply, Pulls(es)).Ok? <==> supply + Total(es) <= I128_MAX
    decreases |es|
  {
    if es != [] {
      assert Pulls(es)[1..] == Pulls(es[1..]);
      assert es == [es[0]] + es[1..];
      SumExternalsExact(es[1..], 0);
      if supply + es[0].amount <= I128_MAX {
        PullsRunExact(supply + es[0].amount, es[1..]);
      }
    }
  }

  lemma {:induction false} PushesRunAccepts(supply: I128, es: seq<External>)
    requires AllPositive(es) && Total(es) <= supply
    ensures SupplyRun(supply, Pushes(es)).Ok?
    decreases |es|
  {
    if es != [] {
      assert Pushes(es)[1..] == Pushes(es[1..]);
      assert es == [es[0]] + es[1..];
      SumExternalsExact(es[1..], 0);
      PushesRunAccepts(supply - es[0].amount, es[1..]);
    }
  }

  /** The supply updates reject exactly when the deposits do not fit on top of the supply: no
      withdrawal the balance covers is ever refused. */
  lemma SupplyRunExact(supply: I128, op: Operation)
    requires AllPositive(op.deposit) && AllPositive(op.withdraw) && 0 <= supply
    requires 0 <= supply + Total(op.deposit) - Total(op.withdraw)
    ensures SupplyRun(supply, Moves(op)).Ok? <==> supply + Total(op.deposit) <= I128_MAX
    ensures SupplyRun(supply, Moves(op)).Ok? ==>
      SupplyRun(supply, Moves(op)).value == supply + Total(op.deposit) - Total(op.withdraw)
  {
    SupplyRunAppend(supply, Pulls(op.deposit), Pushes(op.withdraw));
    PullsRunExact(supply, op.deposit);
    SupplyRunNet(supply, Pulls(op.deposit));
    NetOfPulls(op.deposit);
    if SupplyRun(supply, Pulls(op.deposit)).Ok? {
      var raised := SupplyRun(supply, Pulls(op.deposit)).value;
      PushesRunAccepts(raised, op.withdraw);
      SupplyRunNet(raised, Pushes(op.withdraw));
      NetOfPushes(op.withdraw);
    }
  }

  // ----- Exact acceptance -----

  /** Every depositor authorized its own list; none is the channel. */
  ghost predicate Consented(d: Deployment, op: Operation, tx: Tx)
  {
    forall e :: e in op.deposit ==> e.addr != d.self && (e.addr, e.conditions) in tx.consents
  }

  /** Every check that does not depend on arithmetic. */
  ghost predicate Admissible(d: Deployment, w: World, op: Operation, tx: Tx)
  {
    && PairwiseCompatible(AllConditions(op))
    && AllPositive(op.deposit) && AllPositive(op.withdraw)
    && NoDup(Addresses(op.deposit)) && NoDup(Addresses(op.withdraw)) && SameConditionsOnBothSides(op)
    && ListedEffects(op) <= ExecutedEffects(op)
    && NoDup(SpendKeys(op)) && NoDup(CreateKeys(op))
    && AuthAccepted(d.host, w.providers, tx.sigs, w.now, tx.payload, Contexts(d, op, tx))
    && SpendsValid(w.store, SpendDigests(d, op))
    && CreatesValid(w.store, CreateDigests(d, op))
    && Consented(d, op, tx)
  }

  /** The moves ask for the consent of every depositor to its own list, and of nobody else. */
  lemma ConsentMeans(d: Deployment, op: Operation, tx: Tx)
    ensures AllConsent(d, tx, Moves(op)) <==> Consented(d, op, tx)
  {
    PullsAre(op.deposit);
    PushesAre(op.withdraw);
    assert forall m :: m in Moves(op) <==> m in Pulls(op.deposit) || m in Pushes(op.withdraw);
    forall e | e in op.deposit
      ensures Pull(e.addr, e.amount, e.conditions) in Pulls(op.deposit)
    {
      var m := Pull(e.addr, e.amount, e.conditions);
      assert External(m.from, m.amount, m.conditions) == e;
    }
  }

  function SpentValue(d: Deployment, w: World, op: Operation): int
  {
    Value(w.store, SpendDigests(d, op))
  }

  function CreatedValue(d: Deployment, op: Operation): int
  {
    OutValue(CreateDigests(d, op))
  }

  ghost predicate Balanced(d: Deployment, w: World, op: Operation)
  {
    SpentValue(d, w, op) + Total(op.deposit) == CreatedValue(d, op) + Total(op.withdraw)
  }

  lemma SpentWithinSupply(d: Deployment, w: World, op: Operation)
    requires Books(w) && SpendsValid(w.store, SpendDigests(d, op))
    ensures 0 <= SpentValue(d, w, op) <= w.supply
  {
    var ks := SpendDigests(d, op);
    ValueByEntries(w.store, ks);
    MapSumNonnegative(Zeroed(w.store, ks));
    ValueNonnegative(w.store, ks);
  }

  lemma CreatedNonnegative(d: Deployment, w: World, op: Operation)
    requires CreatesValid(w.store, CreateDigests(d, op))
    ensures 0 <= CreatedValue(d, op)
  {
    OutValuePositive(CreateDigests(d, op));
  }

  /** With sound books and every other check passed, all the 128-bit guards together reject exactly
      an operation that does not balance over the integers or whose deposits do not fit on top of
      the supply. */
  lemma TransactExact(d: Deployment, w: World, op: Operation, tx: Tx, script: Script)
    requires Books(w)
    ensures Transact(d, w, op, tx, script).Ok? <==>
      && Admissible(d, w, op, tx)
      && AssetRun(d, w.token, tx, Moves(op), script).Ok?
      && Balanced(d, w, op)
      && w.supply + Total(op.deposit) <= I128_MAX
    ensures Transact(d, w, op, tx, script).Ok? ==>
      var w' := Transact(d, w, op, tx, script).value;
      && AtomicUpdate(w.store, SpendDigests(d, op), CreateDigests(d, op), w'.store)
      && w'.supply == w.supply + Total(op.deposit) - Total(op.withdraw)
      && w' == w.(store := w'.store, supply := w'.supply,
                  token := AssetRun(d, w.token, tx, Moves(op), script).value)
      && Books(w')
  {
    PreprocessExact(op);
    MapSumNonnegative(w.store);
    if Preprocess(op).Ok? {
      var totals := Preprocess(op).value;
      BundleExact(d, w, op, tx, totals.0, totals.1);
      if ProcessBundle(d, w, op, tx, totals.0, totals.1).Ok? {
        AfterSettlement(d, w, op, tx, script, totals.0, totals.1);
      }
    }
    if Admissible(d, w, op, tx) && Balanced(d, w, op) && w.supply + Total(op.deposit) <= I128_MAX {
      SpentWithinSupply(d, w, op);
      CreatedNonnegative(d, w, op);
    }
  }

  /** Preprocessing rejects for arithmetic only when a total leaves the 128-bit range. */
  lemma PreprocessExact(op: Operation)
    ensures Preprocess(op).Ok? <==>
      && PairwiseCompatible(AllConditions(op))
      && AllPositive(op.deposit) && AllPositive(op.withdraw)
      && NoDup(Addresses(op.deposit)) && NoDup(Addresses(op.withdraw)) && SameConditionsOnBothSides(op)
      && ListedEffects(op) <= ExecutedEffects(op)
      && Total(op.deposit) <= I128_MAX && Total(op.withdraw) <= I128_MAX
    ensures Preprocess(op).Ok? ==>
      && Preprocess(op).value.0 == Total(op.deposit) && Preprocess(op).value.1 == Total(op.withdraw)
      && 0 <= Total(op.deposit) && 0 <= Total(op.withdraw)
    ensures AllPositive(op.deposit) ==> 0 <= Total(op.deposit)
    ensures AllPositive(op.withdraw) ==> 0 <= Total(op.withdraw)
  {
    SumExternalsExact(op.deposit, 0);
    SumExternalsExact(op.withdraw, 0);
  }

  lemma BundleExact(d: Deployment, w: World, op: Operation, tx: Tx, incoming: I128, outgoing: I128)
    requires 0 <= incoming
    ensures ProcessBundle(d, w, op, tx, incoming, outgoing).Ok? <==>
      && NoDup(SpendKeys(op)) && NoDup(CreateKeys(op))
      && AuthAccepted(d.host, w.providers, tx.sigs, w.now, tx.payload, Contexts(d, op, tx))
      && SpendsValid(w.store, SpendDigests(d, op))
      && CreatesValid(w.store, CreateDigests(d, op))
      && incoming + SpentValue(d, w, op) <= I128_MAX
      && incoming + SpentValue(d, w, op) == CreatedValue(d, op) + outgoing
    ensures ProcessBundle(d, w, op, tx, incoming, outgoing).Ok? ==>
      AtomicUpdate(w.store, SpendDigests(d, op), CreateDigests(d, op),
                   ProcessBundle(d, w, op, tx, incoming, outgoing).value)
  {
    SettleExact(w.store, SpendDigests(d, op), CreateDigests(d, op), incoming, outgoing);
  }

  lemma AfterSettlement(d: Deployment, w: World, op: Operation, tx: Tx, script: Script, incoming: I128, outgoing: I128)
    requires Books(w)
    requires AllPositive(op.deposit) && AllPositive(op.withdraw)
    requires incoming == Total(op.deposit) && outgoing == Total(op.withdraw)
    requires ProcessBundle(d, w, op, tx, incoming, outgoing).Ok?
    ensures var store := ProcessBundle(d, w, op, tx, incoming, outgoing).value;
      var start := w.(guard := true, store := store);
      var r := Execute(d, start, tx, Moves(op), script);
      && MapSum(store) == w.supply + incoming - outgoing
      && (forall k :: k in store ==> 0 <= store[k])
      && (r.Ok? <==> Consented(d, op, tx) && AssetRun(d, w.token, tx, Moves(op), script).Ok?
                     && w.supply + incoming <= I128_MAX)
      && (r.Ok? ==> r.value.supply == w.supply + incoming - outgoing
                    && r.value == start.(supply := r.value.supply,
                                      token := AssetRun(d, w.token, tx, Moves(op), script).value))
  {
    var spends, creates := SpendDigests(d, op), CreateDigests(d, op);
    var store := ProcessBundle(d, w, op, tx, incoming, outgoing).value;
    SumExternalsExact(op.deposit, 0);
    SettleConserves(w.store, spends, creates, incoming, outgoing);
    SettleExact(w.store, spends, creates, incoming, outgoing);
    forall k | k in store
      ensures 0 <= store[k]
    {
      if k !in w.store {
        var p :| p in creates && p.0 == k;
      }
    }
    MapSumNonnegative(store);
    MapSumNonnegative(w.store);
    SupplyRunExact(w.supply, op);
    ConsentMeans(d, op, tx);
    ExecuteSplits(d, w.(guard := true, store := store), tx, Moves(op), script);
  }

  /** The external phase leaves the store as the bundle left it. */
  lemma AcceptedStore(d: Deployment, w: World, op: Operation, tx: Tx, script: Script)
    requires Transact(d, w, op, tx, script).Ok?
    ensures Preprocess(op).Ok?
    ensures Settle(w.store, SpendDigests(d, op), CreateDigests(d, op), Preprocess(op).value.0, Preprocess(op).value.1)
         == Ok(Transact(d, w, op, tx, script).value.store)
  {
    var totals := Preprocess(op).value;
    var store := ProcessBundle(d, w, op, tx, totals.0, totals.1).value;
    ExecuteSplits(d, w.(guard := true, store := store), tx, Moves(op), script);
  }

  // ----- Every point inside the external phase -----

  /** The world in which the external phase of an accepted call starts. */
  ghost function Entering(d: Deployment, w: World, op: Operation, tx: Tx): World
    requires Preprocess(op).Ok?
    requires ProcessBundle(d, w, op, tx, Preprocess(op).value.0, Preprocess(op).value.1).Ok?
  {
    w.(guard := true, store := ProcessBundle(d, w, op, tx, Preprocess(op).value.0, Preprocess(op).value.1).value)
  }

  /** After any number of moves, the supply plus what is still to be pulled minus what is still to
      be pushed is the sum of the unspent UTXOs; so the supply never goes below zero, although the
      code only guards against leaving the 128-bit range. */
  lemma LedgerEquationAtEveryStep(d: Deployment, w: World, op: Operation, tx: Tx, script: Script, n: nat)
    requires Books(w) && Transact(d, w, op, tx, script).Ok? && n <= |Moves(op)|
    ensures var r := Execute(d, Entering(d, w, op, tx), tx, Moves(op)[..n], script);
      && r.Ok?
      && r.value.supply + Net(Moves(op)[n..]) == MapSum(r.value.store)
      && r.value.store == Transact(d, w, op, tx, script).value.store
      && 0 <= r.value.supply
  {
    TransactExact(d, w, op, tx, script);
    var start := Entering(d, w, op, tx);
    ExecuteSplits(d, start, tx, Moves(op), script);
    NetAppend(Pulls(op.deposit), Pushes(op.withdraw));
    NetOfPulls(op.deposit);
    NetOfPushes(op.withdraw);
    MapSumNonnegative(w.store);
    MapSumNonnegative(start.store);
    StepNonnegative(w.supply, op, n);
    ExecutePrefix(d, start, tx, Moves(op), script, n);
  }

  /** What is accepted as a whole is accepted step by step, and each step moves the supply. */
  lemma ExecutePrefix(d: Deployment, w: World, tx: Tx, moves: seq<Move>, script: Script, n: nat)
    requires w.guard && n <= |moves|
    requires Execute(d, w, tx, moves, script).Ok?
    ensures Execute(d, w, tx, moves[..n], script).Ok?
    ensures Execute(d, w, tx, moves[..n], script).value.store == w.store
    ensures Execute(d, w, tx, moves[..n], script).value.supply == w.supply + Net(moves) - Net(moves[n..])
    ensures Execute(d, w, tx, moves[..n], script).value.supply == w.supply + Net(moves[..n])
  {
    ExecuteSplits(d, w, tx, moves, script);
    ExecuteSplits(d, w, tx, moves[..n], script);
    assert moves == moves[..n] + moves[n..];
    SupplyRunAppend(w.supply, moves[..n], moves[n..]);
    AssetRunPrefix(d, w.token, tx, moves, script, n);
    SupplyRunNet(w.supply, moves[..n]);
    NetAppend(moves[..n], moves[n..]);
  }

  lemma {:induction false} AssetRunPrefix(d: Deployment, t: Ledger, tx: Tx, moves: seq<Move>, script: Script, n: nat)
    requires AssetRun(d, t, tx, moves, script).Ok? && n <= |moves|
    ensures AssetRun(d, t, tx, moves[..n], script).Ok?
    decreases n
  {
    if n > 0 {
      var t' := if script.Calls? && script.verdict.Answer? then script.verdict.after
                else TokenTransfer(d, t, tx, moves[0]).value;
      assert moves[..n][1..] == moves[1..][..n - 1];
      AssetRunPrefix(d, t', tx, moves[1..], Next(script), n - 1);
    }
  }

  /** Pulls come first, so before any push the supply has only grown, and after the last pull it
      still covers all remaining pushes. */
  lemma StepNonnegative(supply: I128, op: Operation, n: nat)
    requires 0 <= supply && AllPositive(op.deposit) && AllPositive(op.withdraw)
    requires 0 <= supply + Net(Moves(op)) && n <= |Moves(op)|
    ensures 0 <= supply + Net(Moves(op)[..n])
  {
    var moves, k := Moves(op), |op.deposit|;
    assert moves == moves[..n] + moves[n..];
    NetAppend(moves[..n], moves[n..]);
    PullsAre(op.deposit);
    PushesAre(op.withdraw);
    if n <= k {
      assert forall m :: m in moves[..n] ==> m.Pull? && 0 < m.amount by {
        assert moves[..n] == Pulls(op.deposit)[..n];
      }
      NetSign(moves[..n]);
    } else {
      assert forall m :: m in moves[n..] ==> m.Push? && 0 < m.amount by {
        assert moves[n..] == Pushes(op.withdraw)[n - k..];
      }
      NetSign(moves[n..]);
    }
  }

  lemma {:induction false} NetSign(moves: seq<Move>)
    requires forall m :: m in moves ==> 0 < m.amount
    ensures (forall m :: m in moves ==> m.Pull?) ==> 0 <= Net(moves)
    ensures (forall m :: m in moves ==> m.Push?) ==> Net(moves) <= 0
  {
    if moves != [] {
      assert forall m :: m in moves[1..] ==> m in moves;
      assert moves[0] in moves;
      NetSign(moves[1..]);
    }
  }

  lemma {:induction false} PullsAre(es: seq<External>)
    ensures forall m :: m in Pulls(es) <==> m.Pull? && External(m.from, m.amount, m.conditions) in es
  {
    if es != [] {
      assert es == [es[0]] + es[1..];
      PullsAre(es[1..]);
    }
  }

  lemma {:induction false} PushesAre(es: seq<External>)
    ensures forall m :: m in Pushes(es) ==> m.Push? && exists e :: e in es && e.addr == m.to && e.amount == m.amount
  {
    if es != [] {
      assert es == [es[0]] + es[1..];
      PushesAre(es[1..]);
      forall m | m in Pushes(es)
        ensures m.Push? && exists e :: e in es && e.addr == m.to && e.amount == m.amount
      {
        if m in Pushes(es[1..]) {
          var e :| e in es[1..] && e.addr == m.to && e.amount == m.amount;
          assert e in es;
        } else {
          assert es[0] in es;
        }
      }
    }
  }
}
