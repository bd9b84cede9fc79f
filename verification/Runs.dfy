/** Whole runs of the system: any sequence of channel calls, token calls by third parties, registry
    calls and ledger closings, each either taking effect or leaving no trace. */
module Runs {
  import opened Types
  import opened Sums
  import opened ChannelAuth
  import opened Token
  import opened Channel
  import opened Noninterference
  import opened Accounting
  import opened Authorization

  datatype Call =
    | Bundle(op: Operation, tx: Tx, script: Script)
    | Mint(to: Address, amount: I128, byAdmin: bool)
    | Transfer(from: Address, to: Address, amount: I128)
    | Approve(from: Address, spender: Address, allowance: Allowance)
    | TransferFrom(spender: Address, from: Address, to: Address, amount: I128)
    | Burn(from: Address, amount: I128)
    | BurnFrom(spender: Address, from: Address, amount: I128)
    | AddProvider(provider: Address, byOwner: bool)
    | RemoveProvider(provider: Address, byOwner: bool)
    | CloseLedgers(count: nat)

  /** A direct token call is authorized by its actor. The channel is never one: it has no
      `__check_auth`, and only `transact` moves its tokens. */
  predicate ByChannel(d: Deployment, c: Call)
  {
    match c
    case Transfer(from, _, _) => from == d.self
    case Approve(from, _, _) => from == d.self
    case TransferFrom(spender, _, _, _) => spender == d.self
    case Burn(from, _) => from == d.self
    case BurnFrom(spender, _, _) => spender == d.self
    case _ => false
  }

  function TokenCall(t: Ledger, now: nat, c: Call): Result<Ledger>
  {
    match c
    case Mint(to, amount, byAdmin) => AuthorizedMintSpec(t, to, amount, byAdmin)
    case Transfer(from, to, amount) => TransferSpec(t, from, to, amount)
    case Approve(from, spender, a) => ApproveSpec(t, from, spender, a, now)
    case TransferFrom(spender, from, to, amount) => TransferFromSpec(t, spender, from, to, amount, now)
    case Burn(from, amount) => BurnSpec(t, from, amount)
    case BurnFrom(spender, from, amount) => BurnFromSpec(t, spender, from, amount, now)
    case _ => Ok(t)
  }

  ghost function Try(d: Deployment, w: World, c: Call): Result<World>
  {
    match c
    case Bundle(op, tx, script) => Transact(d, w, op, tx, script)
    case AddProvider(p, byOwner) =>
      var g :- AddSpec(Registry(w.providers, w.log), p, byOwner);
      Ok(w.(providers := g.providers, log := g.log))
    case RemoveProvider(p, byOwner) =>
      var g :- RemoveSpec(Registry(w.providers, w.log), p, byOwner);
      Ok(w.(providers := g.providers, log := g.log))
    case CloseLedgers(count) => Ok(w.(now := w.now + count))
    case _ =>
      if ByChannel(d, c) then Err(AuthRejected)
      else
        var t :- TokenCall(w.token, w.now, c);
        Ok(w.(token := t))
  }

  /** A failed call is rolled back. */
  ghost function Step(d: Deployment, w: World, c: Call): World
  {
    var r := Try(d, w, c);
    if r.Ok? then r.value else w
  }

  ghost function Run(d: Deployment, w: World, calls: seq<Call>): World
  {
    if calls == [] then w else Step(d, Run(d, w, calls[..|calls| - 1]), calls[|calls| - 1])
  }

  /** A channel just deployed over an asset in which it has granted no allowance. */
  ghost predicate Deployed(d: Deployment, w: World)
  {
    && w.store == map[] && w.supply == 0 && !w.guard
    && w.providers == {} && w.log == []
    && Sound(w.token) && NoAllowanceFrom(d.self, w.token)
  }

  ghost predicate NoAllowanceFrom(a: Address, t: Ledger)
  {
    forall k :: k in t.allowances && k.0 == a ==> t.allowances[k].amount == 0
  }

  // ----- Books, in every run, whatever the asset does -----

  /** Every stored hash is the hash of some key. */
  ghost predicate Keyed(d: Deployment, w: World)
  {
    forall k :: k in w.store ==> exists u: Utxo :: d.host.sha256(u.bytes) == k
  }

  lemma CreatedKeysAreKeyed(d: Deployment, op: Operation)
    ensures forall p :: p in CreateDigests(d, op) ==> exists u: Utxo :: d.host.sha256(u.bytes) == p.0
  {
    forall p | p in CreateDigests(d, op)
      ensures exists u: Utxo :: d.host.sha256(u.bytes) == p.0
    {
      var i :| 0 <= i < |op.create| && CreateDigests(d, op)[i] == p;
      assert d.host.sha256(op.create[i].utxo.bytes) == p.0;
    }
  }

  lemma StepKeepsBooks(d: Deployment, w: World, c: Call)
    requires Books(w) && Keyed(d, w)
    ensures Books(Step(d, w, c)) && Keyed(d, Step(d, w, c))
    ensures forall k :: k in w.store ==>
      && k in Step(d, w, c).store
      && (Step(d, w, c).store[k] == w.store[k] || Step(d, w, c).store[k] == 0)
  {
    if c.Bundle? {
      TransactExact(d, w, c.op, c.tx, c.script);
      CreatedKeysAreKeyed(d, c.op);
    }
  }

  /** In every run the guard is clear between calls and the supply is the sum of the unspent
      UTXOs; an entry, once there, stays and can only go to spent. */
  lemma {:induction false} BooksInEveryRun(d: Deployment, w: World, calls: seq<Call>)
    requires Books(w) && Keyed(d, w)
    ensures Books(Run(d, w, calls)) && Keyed(d, Run(d, w, calls))
    ensures forall k :: k in w.store ==>
      && k in Run(d, w, calls).store
      && (Run(d, w, calls).store[k] == w.store[k] || Run(d, w, calls).store[k] == 0)
  {
    if calls != [] {
      BooksInEveryRun(d, w, calls[..|calls| - 1]);
      StepKeepsBooks(d, Run(d, w, calls[..|calls| - 1]), calls[|calls| - 1]);
    }
  }

  lemma DeployedBooks(d: Deployment, w: World)
    requires Deployed(d, w)
    ensures Books(w) && Keyed(d, w)
  {
  }

  // ----- Solvency -----

  /** The channel holds at least its supply, and nobody may spend in its name. */
  ghost predicate Solvent(d: Deployment, w: World)
  {
    && Sound(w.token)
    && NoAllowanceFrom(d.self, w.token)
    && w.supply <= BalanceIn(w.token.balances, d.self)
  }

  /** Calls that run against the token contract itself. */
  predicate OnToken(c: Call)
  {
    c.Bundle? ==> c.script.Honest?
  }

  lemma {:induction false} MovesKeepCover(d: Deployment, t: Ledger, tx: Tx, moves: seq<Move>)
    requires Sound(t) && AllConsent(d, tx, moves)
    requires AssetRun(d, t, tx, moves, Honest).Ok?
    ensures var t' := AssetRun(d, t, tx, moves, Honest).value;
      && Sound(t') && t'.allowances == t.allowances
      && BalanceIn(t.balances, d.self) + Net(moves) <= BalanceIn(t'.balances, d.self)
    decreases |moves|
  {
    if moves != [] {
      var m := moves[0];
      assert m in moves && Consents(d, tx, m);
      var from, to := if m.Pull? then m.from else d.self, if m.Pull? then d.self else m.to;
      TransferMoves(t, from, to, m.amount);
      assert forall x :: x in moves[1..] ==> x in moves;
      MovesKeepCover(d, TransferSpec(t, from, to, m.amount).value, tx, moves[1..]);
    }
  }

  /** The step keeps the ledger sound, gives nobody power over `a`, and does not lower `a`. */
  ghost predicate Spares(a: Address, t: Ledger, t': Ledger)
  {
    && Sound(t') && NoAllowanceFrom(a, t')
    && BalanceIn(t.balances, a) <= BalanceIn(t'.balances, a)
  }

  lemma SpendAllowanceSpares(a: Address, t: Ledger, from: Address, spender: Address, amount: I128, now: nat)
    requires Sound(t) && NoAllowanceFrom(a, t) && 0 <= amount
    requires SpendAllowance(t, from, spender, amount, now).Ok?
    ensures Spares(a, t, SpendAllowance(t, from, spender, amount, now).value)
    ensures SpendAllowance(t, from, spender, amount, now).value.balances == t.balances
    ensures from == a ==> amount == 0
  {
    SpendAllowanceUses(t, from, spender, amount, now);
  }

  lemma TransferFromSpares(a: Address, t: Ledger, spender: Address, from: Address, to: Address, amount: I128, now: nat)
    requires Sound(t) && NoAllowanceFrom(a, t)
    requires TransferFromSpec(t, spender, from, to, amount, now).Ok?
    ensures Spares(a, t, TransferFromSpec(t, spender, from, to, amount, now).value)
  {
    SpendAllowanceSpares(a, t, from, spender, amount, now);
    TransferMoves(SpendAllowance(t, from, spender, amount, now).value, from, to, amount);
  }

  lemma BurnFromSpares(a: Address, t: Ledger, spender: Address, from: Address, amount: I128, now: nat)
    requires Sound(t) && NoAllowanceFrom(a, t)
    requires BurnFromSpec(t, spender, from, amount, now).Ok?
    ensures Spares(a, t, BurnFromSpec(t, spender, from, amount, now).value)
  {
    SpendAllowanceSpares(a, t, from, spender, amount, now);
  }

  /** No direct call of a third party lowers the channel's balance or gains power over it. */
  lemma ThirdPartiesSpareTheChannel(d: Deployment, t: Ledger, now: nat, c: Call)
    requires Sound(t) && NoAllowanceFrom(d.self, t) && !ByChannel(d, c)
    requires TokenCall(t, now, c).Ok?
    ensures Spares(d.self, t, TokenCall(t, now, c).value)
  {
    match c {
      case Transfer(from, to, amount) => TransferMoves(t, from, to, amount);
      case TransferFrom(spender, from, to, amount) => TransferFromSpares(d.self, t, spender, from, to, amount, now);
      case BurnFrom(spender, from, amount) => BurnFromSpares(d.self, t, spender, from, amount, now);
      case _ =>
    }
  }

  lemma StepKeepsSolvency(d: Deployment, w: World, c: Call)
    requires Books(w) && Solvent(d, w) && OnToken(c)
    ensures Solvent(d, Step(d, w, c))
  {
    if c.Bundle? {
      TransactExact(d, w, c.op, c.tx, c.script);
      if Try(d, w, c).Ok? {
        ConsentMeans(d, c.op, c.tx);
        MovesKeepCover(d, w.token, c.tx, Moves(c.op));
        NetAppend(Pulls(c.op.deposit), Pushes(c.op.withdraw));
        NetOfPulls(c.op.deposit);
        NetOfPushes(c.op.withdraw);
      }
    } else if !ByChannel(d, c) && TokenCall(w.token, w.now, c).Ok? {
      ThirdPartiesSpareTheChannel(d, w.token, w.now, c);
    }
  }

  /** In every run over the token the channel's balance covers its supply, which is the sum of the
      unspent UTXOs. */
  lemma {:induction false} SolventInEveryRun(d: Deployment, w: World, calls: seq<Call>)
    requires Deployed(d, w)
    requires forall c :: c in calls ==> OnToken(c)
    ensures var w' := Run(d, w, calls);
      && Solvent(d, w')
      && MapSum(w'.store) == w'.supply <= BalanceIn(w'.token.balances, d.self)
  {
    DeployedBooks(d, w);
    BooksInEveryRun(d, w, calls);
    if calls != [] {
      var before, last := calls[..|calls| - 1], calls[|calls| - 1];
      assert last in calls;
      SolventInEveryRun(d, w, before);
      BooksInEveryRun(d, w, before);
      StepKeepsSolvency(d, Run(d, w, before), last);
    }
  }

  // ----- Registry -----

  function EventsAbout(log: seq<RegistryEvent>, p: Address): seq<RegistryEvent>
  {
    if log == [] then []
    else
      var rest, last := EventsAbout(log[..|log| - 1], p), log[|log| - 1];
      if last.provider == p then rest + [last] else rest
  }

  function Replay(log: seq<RegistryEvent>): set<Address>
  {
    if log == [] then {}
    else
      var rest, last := Replay(log[..|log| - 1]), log[|log| - 1];
      if last.Added? then rest + {last.provider} else rest - {last.provider}
  }

  /** Additions and removals of a provider alternate, starting with an addition, and it is
      registered exactly when the last of them was an addition. */
  ghost predicate Alternates(story: seq<RegistryEvent>, p: Address, registered: bool)
  {
    && (forall i :: 0 <= i < |story| ==> story[i] == if i % 2 == 0 then Added(p) else Removed(p))
    && (registered <==> |story| % 2 == 1)
  }

  ghost predicate RegistryAgrees(w: World)
  {
    && Replay(w.log) == w.providers
    && forall p :: Alternates(EventsAbout(w.log, p), p, p in w.providers)
  }

  lemma LogAppend(w: World, e: RegistryEvent)
    requires RegistryAgrees(w)
    requires e.Added? <==> e.provider !in w.providers
    ensures RegistryAgrees(w.(log := w.log + [e],
      providers := if e.Added? then w.providers + {e.provider} else w.providers - {e.provider}))
  {
    var log := w.log + [e];
    assert log[..|w.log|] == w.log;
    var providers := if e.Added? then w.providers + {e.provider} else w.providers - {e.provider};
    forall p
      ensures Alternates(EventsAbout(log, p), p, p in providers)
    {
      assert Alternates(EventsAbout(w.log, p), p, p in w.providers);
    }
  }

  lemma StepKeepsRegistry(d: Deployment, w: World, c: Call)
    requires RegistryAgrees(w)
    ensures RegistryAgrees(Step(d, w, c))
  {
    match c {
      case AddProvider(p, byOwner) => if Try(d, w, c).Ok? { LogAppend(w, Added(p)); }
      case RemoveProvider(p, byOwner) => if Try(d, w, c).Ok? { LogAppend(w, Removed(p)); }
      case Bundle(op, tx, script) => BundleKeepsRegistry(d, w, op, tx, script);
      case _ =>
    }
  }

  lemma BundleKeepsRegistry(d: Deployment, w: World, op: Operation, tx: Tx, script: Script)
    ensures Transact(d, w, op, tx, script).Ok? ==>
      && Transact(d, w, op, tx, script).value.log == w.log
      && Transact(d, w, op, tx, script).value.providers == w.providers
  {
    if Transact(d, w, op, tx, script).Ok? {
      var totals := Preprocess(op).value;
      var store := ProcessBundle(d, w, op, tx, totals.0, totals.1).value;
      ExecuteSplits(d, w.(guard := true, store := store), tx, Moves(op), script);
    }
  }

  lemma {:induction false} RegistryAgreesInEveryRun(d: Deployment, w: World, calls: seq<Call>)
    requires Deployed(d, w)
    ensures RegistryAgrees(Run(d, w, calls))
  {
    if calls != [] {
      RegistryAgreesInEveryRun(d, w, calls[..|calls| - 1]);
      StepKeepsRegistry(d, Run(d, w, calls[..|calls| - 1]), calls[|calls| - 1]);
    }
  }

  /** Only the owner's calls change whether `p` is registered, and they take effect: adding it makes
      it registered, removing it makes it not. */
  lemma StepChangesProvider(d: Deployment, w: World, c: Call, p: Address)
    ensures p in Step(d, w, c).providers <==>
      c == AddProvider(p, true) || (p in w.providers && c != RemoveProvider(p, true))
  {
    if c.Bundle? {
      BundleKeepsRegistry(d, w, c.op, c.tx, c.script);
    }
  }

  /** The owner added `p` in some call and has not removed it since. */
  ghost predicate AddedByOwner(calls: seq<Call>, p: Address)
  {
    exists i :: 0 <= i < |calls| && calls[i] == AddProvider(p, true) && RemoveProvider(p, true) !in calls[i..]
  }

  lemma AddedByOwnerNext(calls: seq<Call>, p: Address)
    requires calls != []
    ensures var before, last := calls[..|calls| - 1], calls[|calls| - 1];
      AddedByOwner(calls, p) <==>
        last == AddProvider(p, true) || (AddedByOwner(before, p) && last != RemoveProvider(p, true))
  {
    var n := |calls| - 1;
    var before, last := calls[..n], calls[n];
    assert calls[n..] == [last];
    forall i | 0 <= i < n
      ensures calls[i] == before[i] && calls[i..] == before[i..] + [last]
    {
    }
    if AddedByOwner(before, p) && last != RemoveProvider(p, true) {
      var i :| 0 <= i < n && before[i] == AddProvider(p, true) && RemoveProvider(p, true) !in before[i..];
      assert calls[i] == AddProvider(p, true) && RemoveProvider(p, true) !in calls[i..];
    }
  }

  /** Who is registered is the owner's doing alone, in every run. */
  lemma {:induction false} ProvidersAreTheOwnersChoice(d: Deployment, w: World, calls: seq<Call>, p: Address)
    requires Deployed(d, w)
    ensures p in Run(d, w, calls).providers <==> AddedByOwner(calls, p)
  {
    if calls != [] {
      var before, last := calls[..|calls| - 1], calls[|calls| - 1];
      ProvidersAreTheOwnersChoice(d, w, before, p);
      StepChangesProvider(d, Run(d, w, before), last, p);
      AddedByOwnerNext(calls, p);
    }
  }

  /** Every bundle accepted in a run carries a signature, valid for that very bundle, of a provider
      the owner added and has not removed since; no entry of anybody else is tolerated. */
  lemma AcceptedBundleHasCurrentProvider(
    d: Deployment, w: World, calls: seq<Call>, op: Operation, tx: Tx, script: Script)
    requires Deployed(d, w)
    requires Transact(d, Run(d, w, calls), op, tx, script).Ok?
    ensures exists pk :: Provider(pk) in tx.sigs
    ensures forall pk :: Provider(pk) in tx.sigs ==>
      && AddedByOwner(calls, d.host.account(pk))
      && Run(d, w, calls).now <= tx.sigs[Provider(pk)].validUntil
      && exists b :: tx.sigs[Provider(pk)].signature == Ed25519Sig(b) && d.host.ed25519(pk, tx.payload, b)
  {
    ProvidersVouch(d, Run(d, w, calls), op, tx, script);
    forall pk | Provider(pk) in tx.sigs
      ensures AddedByOwner(calls, d.host.account(pk))
    {
      ProvidersAreTheOwnersChoice(d, w, calls, d.host.account(pk));
    }
  }
}
