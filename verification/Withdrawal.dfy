/** Funds are never stuck: in every reachable state any owners can withdraw what they hold. */
module Withdrawal {
  import opened Types
  import opened Sums
  import opened Primitives
  import opened Settlement
  import opened ChannelAuth
  import opened Token
  import opened Channel
  import opened Noninterference
  import opened Accounting
  import opened Authorization
  import opened Runs

  /** Spend the keys, each listing the one withdrawal. */
  function Sweep(keys: seq<Utxo>, to: Address, amount: I128): Operation
  {
    Operation(seq(|keys|, i requires 0 <= i < |keys| => SpendEntry(keys[i], [ExtWithdraw(to, amount)])),
              [], [], [External(to, amount, [])])
  }

  function Digests(d: Deployment, keys: seq<Utxo>): (r: seq<Digest>)
    ensures |r| == |keys|
  {
    seq(|keys|, i requires 0 <= i < |keys| => d.host.sha256(keys[i].bytes))
  }

  ghost predicate Covers(d: Deployment, keys: seq<Utxo>, unspent: set<Digest>)
  {
    && NoDup(Digests(d, keys))
    && forall k :: k in unspent <==> k in Digests(d, keys)
  }

  function Unspent(w: World): set<Digest>
  {
    set k | k in w.store && 0 < w.store[k]
  }

  /** Stored hashes come from keys, so the unspent set can be spent by name. */
  lemma {:induction false} KeysFor(d: Deployment, ks: set<Digest>) returns (keys: seq<Utxo>)
    requires forall k :: k in ks ==> exists u: Utxo :: d.host.sha256(u.bytes) == k
    ensures Covers(d, keys, ks)
  {
    if ks == {} {
      keys := [];
    } else {
      var k :| k in ks;
      var u: Utxo :| d.host.sha256(u.bytes) == k;
      var rest := KeysFor(d, ks - {k});
      keys := rest + [u];
      assert Digests(d, keys) == Digests(d, rest) + [k];
    }
  }

  lemma DistinctKeys(d: Deployment, keys: seq<Utxo>)
    requires NoDup(Digests(d, keys))
    ensures NoDup(keys)
  {
    forall i, j | 0 <= i < j < |keys|
      ensures keys[i] != keys[j]
    {
      assert Digests(d, keys)[i] != Digests(d, keys)[j];
    }
  }

  lemma ClaimIsCovered(d: Deployment, w: World, keys: seq<Utxo>)
    requires Books(w) && keys != [] && SpendsValid(w.store, Digests(d, keys))
    ensures 0 < Value(w.store, Digests(d, keys)) <= w.supply
  {
    var ds := Digests(d, keys);
    ValueByEntries(w.store, ds);
    MapSumNonnegative(Zeroed(w.store, ds));
    assert ds[0] in ds;
    assert forall k :: k in ds[1..] ==> k in ds;
    ValueNonnegative(w.store, ds[1..]);
  }

  lemma SweepConditions(keys: seq<Utxo>, to: Address, amount: I128)
    ensures var op := Sweep(keys, to, amount);
      && PairwiseCompatible(AllConditions(op))
      && ListedEffects(op) <= ExecutedEffects(op)
      && VerifyExternals(op).Ok?
  {
    var op := Sweep(keys, to, amount);
    assert forall e :: e in op.spend ==> e.conditions == [ExtWithdraw(to, amount)];
    assert forall e :: e in op.withdraw ==> e.conditions == [];
    assert forall c :: c in AllConditions(op) ==> c == ExtWithdraw(to, amount);
    CompatibilityIsOrderFree(AllConditions(op));
    assert ExecutedList(op)[0] == ExtWithdraw(to, amount);
  }

  /** What the recipient must be able to take, checkable before the call. */
  predicate CanReceive(d: Deployment, w: World, to: Address, amount: I128)
  {
    to == d.self || BalanceIn(w.token.balances, to) + amount <= I128_MAX
  }

  lemma SweepAdmissible(d: Deployment, w: World, keys: seq<Utxo>, to: Address, x: I128, tx: Tx)
    requires Books(w) && keys != [] && SpendsValid(w.store, Digests(d, keys))
    requires x == Value(w.store, Digests(d, keys))
    requires var op := Sweep(keys, to, x);
      AuthAccepted(d.host, w.providers, tx.sigs, w.now, tx.payload, Contexts(d, op, tx))
    ensures var op := Sweep(keys, to, x);
      && Admissible(d, w, op, tx) && Balanced(d, w, op)
      && Total(op.deposit) == 0 && Total(op.withdraw) == x
      && SpendDigests(d, op) == Digests(d, keys) && CreateDigests(d, op) == []
      && Moves(op) == [Push(to, x)]
  {
    var op := Sweep(keys, to, x);
    assert SpendDigests(d, op) == Digests(d, keys);
    ClaimIsCovered(d, w, keys);
    SweepConditions(keys, to, x);
    DistinctKeys(d, keys);
    assert SpendKeys(op) == keys;
    assert Moves(op) == [Push(to, x)] by {
      assert Pushes(op.withdraw) == [Push(to, x)] + Pushes(op.withdraw[1..]);
    }
  }

  /** The withdrawal of `x` for these keys is accepted: exactly they become spent, the supply drops
      by what they held, and the recipient has it. */
  ghost predicate Withdraws(d: Deployment, w: World, keys: seq<Utxo>, to: Address, x: I128, tx: Tx)
  {
    var r := Transact(d, w, Sweep(keys, to, x), tx, Honest);
    && r.Ok?
    && r.value.supply == w.supply - x
    && r.value.store == Zeroed(w.store, Digests(d, keys))
    && (to != d.self ==> BalanceIn(r.value.token.balances, to) == BalanceIn(w.token.balances, to) + x)
  }

  /** Given authorization and a recipient that can take it, spending any distinct unspent UTXOs for
      one withdrawal of exactly what they hold is accepted. */
  lemma SweepSucceeds(d: Deployment, w: World, keys: seq<Utxo>, to: Address, x: I128, tx: Tx)
    requires Books(w) && Solvent(d, w)
    requires keys != [] && SpendsValid(w.store, Digests(d, keys))
    requires x == Value(w.store, Digests(d, keys)) && CanReceive(d, w, to, x)
    requires var op := Sweep(keys, to, x);
      AuthAccepted(d.host, w.providers, tx.sigs, w.now, tx.payload, Contexts(d, op, tx))
    ensures Withdraws(d, w, keys, to, x, tx)
  {
    var op := Sweep(keys, to, x);
    ClaimIsCovered(d, w, keys);
    SweepAdmissible(d, w, keys, to, x, tx);
    HonestPush(d, w.token, tx, to, x);
    TransactExact(d, w, op, tx, Honest);
    OnlySpending(w.store, Digests(d, keys), Transact(d, w, op, tx, Honest).value.store);
  }

  lemma HonestPush(d: Deployment, t: Ledger, tx: Tx, to: Address, x: I128)
    requires Sound(t) && 0 <= x <= BalanceIn(t.balances, d.self)
    requires to == d.self || BalanceIn(t.balances, to) + x <= I128_MAX
    ensures var r := AssetRun(d, t, tx, [Push(to, x)], Honest);
      r.Ok? && (to != d.self ==> BalanceIn(r.value.balances, to) == BalanceIn(t.balances, to) + x)
  {
    TransferMoves(t, d.self, to, x);
    assert [Push(to, x)][1..] == [];
  }

  lemma OnlySpending<K(!new)>(s: map<K, I128>, ks: seq<K>, r: map<K, I128>)
    requires AtomicUpdate(s, ks, [], r)
    ensures r == Zeroed(s, ks)
  {
    assert forall k :: k in r <==> k in s;
  }

  /** A provider signed, and every owner of the keys signed the one withdrawal. */
  ghost predicate SweepSigned(d: Deployment, w: World, keys: seq<Utxo>, to: Address, x: I128, tx: Tx)
  {
    && tx.before == [] && tx.after == []
    && ProvidersMet(d.host, w.providers, tx.sigs, w.now, tx.payload)
    && forall u :: u in keys ==> OwnerSigned(d.host, tx.sigs, w.now, d.self, u, [ExtWithdraw(to, x)])
  }

  lemma SweepIsAuthorized(d: Deployment, w: World, keys: seq<Utxo>, to: Address, x: I128, tx: Tx)
    requires SweepSigned(d, w, keys, to, x, tx) && NoDup(keys)
    ensures var op := Sweep(keys, to, x);
      AuthAccepted(d.host, w.providers, tx.sigs, w.now, tx.payload, Contexts(d, op, tx))
  {
    var op := Sweep(keys, to, x);
    assert SpendKeys(op) == keys;
    assert forall e :: e in op.spend ==> e.utxo in keys && e.conditions == [ExtWithdraw(to, x)];
    SignersAuthorize(d, w, op, tx);
  }

  /** In every run over the token, the owners of any unspent UTXOs, one or several, can leave on
      their own: with a provider they withdraw exactly what those UTXOs hold to any recipient that
      can take it, whatever the other owners do. */
  lemma FundsAreNeverStuck(d: Deployment, w: World, calls: seq<Call>, keys: seq<Utxo>, to: Address, x: I128, tx: Tx)
    requires Deployed(d, w)
    requires forall c :: c in calls ==> OnToken(c)
    requires keys != [] && SpendsValid(Run(d, w, calls).store, Digests(d, keys))
    requires x == Value(Run(d, w, calls).store, Digests(d, keys))
    requires CanReceive(d, Run(d, w, calls), to, x) && SweepSigned(d, Run(d, w, calls), keys, to, x, tx)
    ensures Withdraws(d, Run(d, w, calls), keys, to, x, tx)
  {
    var now := Run(d, w, calls);
    DeployedBooks(d, w);
    BooksInEveryRun(d, w, calls);
    SolventInEveryRun(d, w, calls);
    DistinctKeys(d, keys);
    SweepIsAuthorized(d, now, keys, to, x, tx);
    SweepSucceeds(d, now, keys, to, x, tx);
  }

  lemma WholeClaim(d: Deployment, w: World, keys: seq<Utxo>)
    requires Books(w) && Covers(d, keys, Unspent(w))
    ensures SpendsValid(w.store, Digests(d, keys))
    ensures Value(w.store, Digests(d, keys)) == w.supply
    ensures forall k :: k in w.store ==> Zeroed(w.store, Digests(d, keys))[k] == 0
  {
    var ds := Digests(d, keys);
    assert forall k :: k in ds ==> k in Unspent(w);
    ValueByEntries(w.store, ds);
    MapSumOfZeros(Zeroed(w.store, ds));
  }

  /** In particular there are keys for everything unspent, and withdrawing for all of them takes the
      whole supply and leaves nothing. */
  lemma EverythingCanLeave(d: Deployment, w: World, calls: seq<Call>) returns (keys: seq<Utxo>)
    requires Deployed(d, w)
    requires forall c :: c in calls ==> OnToken(c)
    requires Unspent(Run(d, w, calls)) != {}
    ensures var now := Run(d, w, calls);
      && Covers(d, keys, Unspent(now))
      && (forall k :: k in now.store ==> Zeroed(now.store, Digests(d, keys))[k] == 0)
      && forall to: Address, tx: Tx ::
          CanReceive(d, now, to, now.supply) && SweepSigned(d, now, keys, to, now.supply, tx)
          ==> Withdraws(d, now, keys, to, now.supply, tx)
  {
    var now := Run(d, w, calls);
    DeployedBooks(d, w);
    BooksInEveryRun(d, w, calls);
    keys := KeysFor(d, Unspent(now));
    assert keys != [] by {
      var k :| k in Unspent(now);
      assert k in Digests(d, keys);
    }
    WholeClaim(d, now, keys);
    forall to: Address, tx: Tx |
      CanReceive(d, now, to, now.supply) && SweepSigned(d, now, keys, to, now.supply, tx)
      ensures Withdraws(d, now, keys, to, now.supply, tx)
    {
      FundsAreNeverStuck(d, w, calls, keys, to, now.supply, tx);
    }
  }
}
