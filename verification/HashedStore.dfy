/** The store keyed by hashes against a store keyed by the UTXO keys themselves. */
module HashedStore {
  import opened Types
  import opened Primitives
  import opened Storage
  import opened Settlement
  import opened ChannelAuth
  import opened Channel
  import opened Noninterference
  import opened Runs

  ghost predicate InjectiveOn<K(!new), D>(hash: K -> D, us: iset<K>)
  {
    forall a, b :: a in us && b in us && hash(a) == hash(b) ==> a == b
  }

  /** `ds` holds exactly the hashes of the keys of `ks`, with the same amounts. */
  ghost predicate Represents<K(!new), D(!new)>(hash: K -> D, ks: map<K, I128>, ds: map<D, I128>)
  {
    && (forall k :: k in ks ==> hash(k) in ds && ds[hash(k)] == ks[k])
    && (forall e :: e in ds ==> exists k :: k in ks && hash(k) == e)
  }

  ghost predicate Within<K(!new)>(ks: map<K, I128>, us: iset<K>)
  {
    forall k :: k in ks ==> k in us
  }

  function Hashed<K, D>(hash: K -> D, ks: seq<K>): (r: seq<D>)
    ensures |r| == |ks|
  {
    seq(|ks|, i requires 0 <= i < |ks| => hash(ks[i]))
  }

  function HashedOuts<K, D>(hash: K -> D, outs: seq<(K, I128)>): (r: seq<(D, I128)>)
    ensures |r| == |outs|
  {
    seq(|outs|, i requires 0 <= i < |outs| => (hash(outs[i].0), outs[i].1))
  }

  lemma Lookup<K(!new), D(!new)>(hash: K -> D, us: iset<K>, ks: map<K, I128>, ds: map<D, I128>, k: K)
    requires InjectiveOn(hash, us) && Within(ks, us) && k in us && Represents(hash, ks, ds)
    ensures BalanceOf(ds, hash(k)) == BalanceOf(ks, k)
    ensures hash(k) in ds <==> k in ks
  {
  }

  lemma Update<K(!new), D(!new)>(hash: K -> D, us: iset<K>, ks: map<K, I128>, ds: map<D, I128>, k: K, x: I128)
    requires InjectiveOn(hash, us) && Within(ks, us) && k in us && Represents(hash, ks, ds)
    ensures Represents(hash, ks[k := x], ds[hash(k) := x]) && Within(ks[k := x], us)
  {
    var ks', ds' := ks[k := x], ds[hash(k) := x];
    forall e | e in ds'
      ensures exists j :: j in ks' && hash(j) == e
    {
      if e == hash(k) {
        assert k in ks';
      } else {
        var j :| j in ks && hash(j) == e;
        assert j in ks';
      }
    }
  }

  lemma {:induction false} SpendLoopRefines<K(!new), D(!new)>(
    hash: K -> D, us: iset<K>, ks: map<K, I128>, ds: map<D, I128>, spends: seq<K>, available: I128)
    requires InjectiveOn(hash, us) && Within(ks, us) && Represents(hash, ks, ds)
    requires forall k :: k in spends ==> k in us
    ensures var a, b := SpendLoop(ks, spends, available), SpendLoop(ds, Hashed(hash, spends), available);
      && (a.Err? || b.Err? ==> a.Err? && b.Err? && a.error == b.error)
      && (a.Ok? ==> a.value.available == b.value.available
                    && Represents(hash, a.value.entries, b.value.entries) && Within(a.value.entries, us))
    decreases |spends|
  {
    if spends != [] {
      var k := spends[0];
      assert k in spends;
      Lookup(hash, us, ks, ds, k);
      Update(hash, us, ks, ds, k, 0);
      assert Hashed(hash, spends)[1..] == Hashed(hash, spends[1..]);
      if 0 < BalanceOf(ks, k) && available + ks[k] <= I128_MAX {
        SpendLoopRefines(hash, us, ks[k := 0], ds[hash(k) := 0], spends[1..], available + ks[k]);
      }
    }
  }

  lemma {:induction false} CreateLoopRefines<K(!new), D(!new)>(
    hash: K -> D, us: iset<K>, ks: map<K, I128>, ds: map<D, I128>, outs: seq<(K, I128)>, available: I128)
    requires InjectiveOn(hash, us) && Within(ks, us) && Represents(hash, ks, ds)
    requires forall p :: p in outs ==> p.0 in us
    ensures var a, b := CreateLoop(ks, outs, available), CreateLoop(ds, HashedOuts(hash, outs), available);
      && (a.Err? || b.Err? ==> a.Err? && b.Err? && a.error == b.error)
      && (a.Ok? ==> a.value.available == b.value.available
                    && Represents(hash, a.value.entries, b.value.entries) && Within(a.value.entries, us))
    decreases |outs|
  {
    if outs != [] {
      var (k, x) := outs[0];
      assert outs[0] in outs;
      Lookup(hash, us, ks, ds, k);
      Update(hash, us, ks, ds, k, x);
      assert HashedOuts(hash, outs)[1..] == HashedOuts(hash, outs[1..]);
      if k !in ks && 0 < x && available - x >= I128_MIN {
        CreateLoopRefines(hash, us, ks[k := x], ds[hash(k) := x], outs[1..], available - x);
      }
    }
  }

  /** As long as the hash separates the keys in use, a bundle on the hashed store behaves exactly
      like the bundle on the keyed store: same verdict, same error, same contents. */
  lemma SettleRefines<K(!new), D(!new)>(
    hash: K -> D, us: iset<K>, ks: map<K, I128>, ds: map<D, I128>,
    spends: seq<K>, creates: seq<(K, I128)>, incoming: I128, outgoing: I128)
    requires InjectiveOn(hash, us) && Within(ks, us) && Represents(hash, ks, ds)
    requires (forall k :: k in spends ==> k in us) && (forall p :: p in creates ==> p.0 in us)
    ensures var a := Settle(ks, spends, creates, incoming, outgoing);
      var b := Settle(ds, Hashed(hash, spends), HashedOuts(hash, creates), incoming, outgoing);
      && (a.Err? || b.Err? ==> a.Err? && b.Err? && a.error == b.error)
      && (a.Ok? ==> Represents(hash, a.value, b.value) && Within(a.value, us))
  {
    SpendLoopRefines(hash, us, ks, ds, spends, incoming);
    var a, b := SpendLoop(ks, spends, incoming), SpendLoop(ds, Hashed(hash, spends), incoming);
    if a.Ok? {
      CreateLoopRefines(hash, us, a.value.entries, b.value.entries, creates, a.value.available);
    }
  }

  /** And only so long: the hashed store answers for keys iff the hash separates them. */
  lemma LookupNeedsInjectivity<K(!new), D(!new)>(hash: K -> D, us: iset<K>)
    ensures InjectiveOn(hash, us) <==>
      forall ks: map<K, I128>, ds: map<D, I128>, k: K ::
        Within(ks, us) && k in us && Represents(hash, ks, ds) ==> BalanceOf(ds, hash(k)) == BalanceOf(ks, k)
  {
    if InjectiveOn(hash, us) {
      forall ks: map<K, I128>, ds: map<D, I128>, k: K | Within(ks, us) && k in us && Represents(hash, ks, ds)
        ensures BalanceOf(ds, hash(k)) == BalanceOf(ks, k)
      {
        Lookup(hash, us, ks, ds, k);
      }
    } else {
      var a, b :| a in us && b in us && hash(a) == hash(b) && a != b;
      CollidingKeySpends(hash, a, b, 1);
      var ks: map<K, I128>, ds: map<D, I128> := map[a := 1], map[hash(a) := 1];
      assert Within(ks, us) && BalanceOf(ds, hash(b)) != BalanceOf(ks, b);
    }
  }

  /** Two keys with one hash: the second can spend what was created under the first. No value
      appears or disappears by it, as `SettleConserves` shows for any keys. */
  lemma CollidingKeySpends<K(!new), D(!new)>(hash: K -> D, a: K, b: K, x: I128)
    requires a != b && hash(a) == hash(b) && 0 < x
    ensures Represents(hash, map[a := x], map[hash(a) := x])
    ensures Settle(map[hash(a) := x], Hashed(hash, [b]), [], 0, x).Ok?
    ensures Settle(map[a := x], [b], [], 0, x) == Err(UtxoDoesNotExist)
  {
    var ds: map<D, I128> := map[hash(a) := x];
    assert Hashed(hash, [b]) == [hash(b)];
    assert SpendLoop(ds, [hash(b)], 0) == SpendLoop(ds[hash(b) := 0], [hash(b)][1..], x);
  }

  /** Bundles over these keys have one verdict on every keyed store and the hashed store for it. */
  ghost predicate BundlesAgree<K(!new), D(!new)>(hash: K -> D, us: iset<K>)
  {
    forall ks: map<K, I128>, ds: map<D, I128>,
           spends: seq<K>, creates: seq<(K, I128)>, incoming: I128, outgoing: I128 ::
      && Within(ks, us) && Represents(hash, ks, ds)
      && (forall k :: k in spends ==> k in us) && (forall p :: p in creates ==> p.0 in us)
      ==>
        (Settle(ks, spends, creates, incoming, outgoing).Ok? <==>
         Settle(ds, Hashed(hash, spends), HashedOuts(hash, creates), incoming, outgoing).Ok?)
  }

  /** Bundles on hashes have the verdict of bundles on keys iff the hash separates the keys. */
  lemma BundlesNeedInjectivity<K(!new), D(!new)>(hash: K -> D, us: iset<K>)
    ensures InjectiveOn(hash, us) <==> BundlesAgree(hash, us)
  {
    if InjectiveOn(hash, us) {
      forall ks: map<K, I128>, ds: map<D, I128>,
             spends: seq<K>, creates: seq<(K, I128)>, incoming: I128, outgoing: I128 |
        && Within(ks, us) && Represents(hash, ks, ds)
        && (forall k :: k in spends ==> k in us) && (forall p :: p in creates ==> p.0 in us)
        ensures Settle(ks, spends, creates, incoming, outgoing).Ok? <==>
                Settle(ds, Hashed(hash, spends), HashedOuts(hash, creates), incoming, outgoing).Ok?
      {
        SettleRefines(hash, us, ks, ds, spends, creates, incoming, outgoing);
      }
    } else {
      var a, b :| a in us && b in us && hash(a) == hash(b) && a != b;
      CollidingKeySpends(hash, a, b, 1);
      var ks: map<K, I128>, ds: map<D, I128>, none: seq<(K, I128)> := map[a := 1], map[hash(a) := 1], [];
      assert HashedOuts(hash, none) == [];
      assert Within(ks, us) && Represents(hash, ks, ds);
      assert !(Settle(ks, [b], none, 0, 1).Ok? <==> Settle(ds, Hashed(hash, [b]), HashedOuts(hash, none), 0, 1).Ok?);
    }
  }

  // ----- Over whole runs -----

  function CreatePairs(op: Operation): (r: seq<(Utxo, I128)>)
    ensures |r| == |op.create|
  {
    seq(|op.create|, i requires 0 <= i < |op.create| => (op.create[i].utxo, op.create[i].amount))
  }

  function KeyHash(d: Deployment): Utxo -> Digest
  {
    (u: Utxo) => d.host.sha256(u.bytes)
  }

  /** A ledger whose UTXO store is keyed by the UTXO keys; the hashed store of `rest` stays empty. */
  datatype KeyedWorld = KeyedWorld(rest: World, store: map<Utxo, I128>)

  /** `process_bundle` on such a ledger: the same checks, settled on the keyed store. */
  ghost function KeyedProcessBundle(
    d: Deployment, k: KeyedWorld, op: Operation, tx: Tx, incoming: I128, outgoing: I128): Result<map<Utxo, I128>>
  {
    if !NoDup(SpendKeys(op)) then Err(RepeatedSpendUtxo)
    else if !NoDup(CreateKeys(op)) then Err(RepeatedCreateUtxo)
    else if !AuthAccepted(d.host, k.rest.providers, tx.sigs, k.rest.now, tx.payload, Contexts(d, op, tx)) then
      Err(AuthRejected)
    else Settle(k.store, SpendKeys(op), CreatePairs(op), incoming, outgoing)
  }

  /** `transact` on such a ledger, in the order of the code. */
  ghost function KeyedTransact(d: Deployment, k: KeyedWorld, op: Operation, tx: Tx, script: Script): Result<KeyedWorld>
  {
    if k.rest.guard then Err(ReentrantCall)
    else
      var totals :- Preprocess(op);
      var store :- KeyedProcessBundle(d, k, op, tx, totals.0, totals.1);
      var rest :- Execute(d, k.rest.(guard := true), tx, Moves(op), script);
      Ok(KeyedWorld(rest.(guard := false), store))
  }

  ghost function KeyedTry(d: Deployment, k: KeyedWorld, c: Call): Result<KeyedWorld>
  {
    if c.Bundle? then KeyedTransact(d, k, c.op, c.tx, c.script)
    else
      var rest :- Try(d, k.rest, c);
      Ok(k.(rest := rest))
  }

  ghost function KeyedStep(d: Deployment, k: KeyedWorld, c: Call): KeyedWorld
  {
    var r := KeyedTry(d, k, c);
    if r.Ok? then r.value else k
  }

  ghost function KeyedRun(d: Deployment, k: KeyedWorld, calls: seq<Call>): KeyedWorld
  {
    if calls == [] then k else KeyedStep(d, KeyedRun(d, k, calls[..|calls| - 1]), calls[|calls| - 1])
  }

  ghost predicate UsesKeys(c: Call, us: iset<Utxo>)
  {
    c.Bundle? ==>
      (forall k :: k in SpendKeys(c.op) ==> k in us) && (forall k :: k in CreateKeys(c.op) ==> k in us)
  }

  /** A bundle on the hashed store has the verdict of the bundle on the keyed store. */
  lemma BundleRefines(d: Deployment, us: iset<Utxo>, s: map<Utxo, I128>, store: map<Digest, I128>, c: Call,
                      incoming: I128, outgoing: I128)
    requires InjectiveOn(KeyHash(d), us) && Within(s, us) && Represents(KeyHash(d), s, store)
    requires c.Bundle? && UsesKeys(c, us)
    ensures var a := Settle(s, SpendKeys(c.op), CreatePairs(c.op), incoming, outgoing);
      var b := Settle(store, SpendDigests(d, c.op), CreateDigests(d, c.op), incoming, outgoing);
      && (a.Err? || b.Err? ==> a.Err? && b.Err? && a.error == b.error)
      && (a.Ok? ==> Represents(KeyHash(d), a.value, b.value) && Within(a.value, us))
  {
    forall p | p in CreatePairs(c.op)
      ensures p.0 in us
    {
      var i :| 0 <= i < |c.op.create| && CreatePairs(c.op)[i] == p;
      assert CreateKeys(c.op)[i] in CreateKeys(c.op);
    }
    SettleRefines(KeyHash(d), us, s, store, SpendKeys(c.op), CreatePairs(c.op), incoming, outgoing);
    assert Hashed(KeyHash(d), SpendKeys(c.op)) == SpendDigests(d, c.op);
    assert HashedOuts(KeyHash(d), CreatePairs(c.op)) == CreateDigests(d, c.op);
  }

  /** The same ledger but for the store, which holds the hashes of the keyed one. */
  ghost predicate Matches(d: Deployment, us: iset<Utxo>, k: KeyedWorld, w: World)
  {
    && k.rest == w.(store := map[])
    && Within(k.store, us)
    && Represents(KeyHash(d), k.store, w.store)
  }

  /** Same verdict, same error, and matching ledgers after acceptance. */
  ghost predicate Agree(d: Deployment, us: iset<Utxo>, k: Result<KeyedWorld>, w: Result<World>)
  {
    match (k, w)
    case (Ok(k'), Ok(w')) => Matches(d, us, k', w')
    case (Err(e), Err(e')) => e == e'
    case _ => false
  }

  ghost function WithStore(r: Result<World>, s: map<Digest, I128>): Result<World>
  {
    if r.Ok? then Ok(r.value.(store := s)) else r
  }

  lemma MakeMoveIgnoresStore(d: Deployment, w: World, s: map<Digest, I128>, tx: Tx, m: Move, script: Script)
    requires w.guard
    ensures MakeMove(d, w.(store := s), tx, m, script) == WithStore(MakeMove(d, w, tx, m, script), s)
    ensures MakeMove(d, w, tx, m, script).Ok? ==> MakeMove(d, w, tx, m, script).value.guard
  {
    if script.Calls? {
      GuardedAttemptsDoNothing(d, w, script.attempts);
      GuardedAttemptsDoNothing(d, w.(store := s), script.attempts);
    }
  }

  /** Under the guard the external phase neither reads nor writes the store. */
  lemma {:induction false} ExecuteIgnoresStore(
    d: Deployment, w: World, s: map<Digest, I128>, tx: Tx, moves: seq<Move>, script: Script)
    requires w.guard
    ensures Execute(d, w.(store := s), tx, moves, script) == WithStore(Execute(d, w, tx, moves, script), s)
    decreases |moves|
  {
    if moves != [] {
      MakeMoveIgnoresStore(d, w, s, tx, moves[0], script);
      var w' := MakeMove(d, w, tx, moves[0], script);
      if w'.Ok? {
        ExecuteIgnoresStore(d, w'.value, s, tx, moves[1..], Next(script));
      }
    }
  }

  /** So it runs alike on the ledger without its store, and leaves the store as it was. */
  lemma ExternalPhaseAgrees(d: Deployment, start: World, tx: Tx, moves: seq<Move>, script: Script)
    requires start.guard
    ensures var a, b := Execute(d, start.(store := map[]), tx, moves, script), Execute(d, start, tx, moves, script);
      && a == WithStore(b, map[])
      && (b.Ok? ==> b.value.store == start.store)
  {
    ExecuteIgnoresStore(d, start, map[], tx, moves, script);
    ExecuteIgnoresStore(d, start, start.store, tx, moves, script);
    assert start.(store := start.store) == start;
  }

  /** On matching ledgers `transact` decides alike and leaves matching ledgers. */
  lemma TransactRefines(d: Deployment, us: iset<Utxo>, k: KeyedWorld, w: World, c: Call)
    requires InjectiveOn(KeyHash(d), us) && Matches(d, us, k, w)
    requires c.Bundle? && UsesKeys(c, us)
    ensures Agree(d, us, KeyedTransact(d, k, c.op, c.tx, c.script), Transact(d, w, c.op, c.tx, c.script))
  {
    if !w.guard && Preprocess(c.op).Ok? {
      var totals := Preprocess(c.op).value;
      ProcessBundleRefines(d, us, k, w, c, totals.0, totals.1);
      var bundle := ProcessBundle(d, w, c.op, c.tx, totals.0, totals.1);
      if bundle.Ok? {
        var start := w.(guard := true, store := bundle.value);
        assert k.rest.(guard := true) == start.(store := map[]);
        ExternalPhaseAgrees(d, start, c.tx, Moves(c.op), c.script);
      }
    }
  }

  lemma ProcessBundleRefines(
    d: Deployment, us: iset<Utxo>, k: KeyedWorld, w: World, c: Call, incoming: I128, outgoing: I128)
    requires InjectiveOn(KeyHash(d), us) && Matches(d, us, k, w)
    requires c.Bundle? && UsesKeys(c, us)
    ensures var a := KeyedProcessBundle(d, k, c.op, c.tx, incoming, outgoing);
      var b := ProcessBundle(d, w, c.op, c.tx, incoming, outgoing);
      && (a.Err? || b.Err? ==> a.Err? && b.Err? && a.error == b.error)
      && (a.Ok? ==> Represents(KeyHash(d), a.value, b.value) && Within(a.value, us))
  {
    BundleRefines(d, us, k.store, w.store, c, incoming, outgoing);
  }

  lemma StepRefines(d: Deployment, us: iset<Utxo>, k: KeyedWorld, w: World, c: Call)
    requires InjectiveOn(KeyHash(d), us) && Matches(d, us, k, w) && UsesKeys(c, us)
    ensures Agree(d, us, KeyedTry(d, k, c), Try(d, w, c))
  {
    if c.Bundle? {
      TransactRefines(d, us, k, w, c);
    }
  }

  /** A keyed ledger and a hashed one that start out matching go through any run together: every
      call has the same verdict and error on both, as long as the hash separates the keys used. */
  lemma {:induction false} RunRefinesKeyedRun(
    d: Deployment, us: iset<Utxo>, k: KeyedWorld, w: World, calls: seq<Call>, next: Call)
    requires InjectiveOn(KeyHash(d), us) && Matches(d, us, k, w)
    requires (forall c :: c in calls ==> UsesKeys(c, us)) && UsesKeys(next, us)
    ensures Matches(d, us, KeyedRun(d, k, calls), Run(d, w, calls))
    ensures Agree(d, us, KeyedTry(d, KeyedRun(d, k, calls), next), Try(d, Run(d, w, calls), next))
  {
    if calls != [] {
      assert forall c :: c in calls[..|calls| - 1] ==> c in calls;
      assert calls[|calls| - 1] in calls;
      RunRefinesKeyedRun(d, us, k, w, calls[..|calls| - 1], calls[|calls| - 1]);
    }
    StepRefines(d, us, KeyedRun(d, k, calls), Run(d, w, calls), next);
  }

  /** A fresh deployment matches a keyed ledger with an empty store. */
  lemma DeployedMatches(d: Deployment, us: iset<Utxo>, w: World)
    requires Deployed(d, w)
    ensures Matches(d, us, KeyedWorld(w, map[]), w)
  {
  }
}
