/** The channel contract itself: `transact` step by step on its store, supply and guard, with the
    asset contract called, and possibly calling back, in between. */
module PrivacyChannel {
  import opened Types
  import opened Primitives
  import opened Storage
  import opened ChannelAuth
  import opened Token
  import opened Channel
  import opened Accounting
  import opened UtxoCore

  // ----- Preprocessing -----

  method SumAmounts(es: seq<External>) returns (r: Result<I128>)
    ensures r == SumExternals(es, 0)
  {
    var total: I128 := 0;
    for i := 0 to |es|
      invariant SumExternals(es, 0) == SumExternals(es[i..], total)
    {
      assert es[i..][1..] == es[i + 1..];
      if es[i].amount <= 0 {
        return Err(InvalidExternalAmount);
      }
      if total + es[i].amount > I128_MAX {
        return Err(AmountOverflow);
      }
      total := total + es[i].amount;
    }
    return Ok(total);
  }

  method VerifyExternalOperations(op: Operation) returns (r: Result<Unit>)
    ensures r == VerifyExternals(op)
  {
    var distinct := NoDuplicates(Addresses(op.deposit));
    if !distinct {
      return Err(RepeatedAccountForDeposit);
    }
    distinct := NoDuplicates(Addresses(op.withdraw));
    if !distinct {
      return Err(RepeatedAccountForWithdraw);
    }
    for i := 0 to |op.deposit|
      invariant forall k, w :: 0 <= k < i && w in op.withdraw && op.deposit[k].addr == w.addr ==>
        op.deposit[k].conditions == w.conditions
    {
      var e := op.deposit[i];
      for j := 0 to |op.withdraw|
        invariant forall k :: 0 <= k < j && e.addr == op.withdraw[k].addr ==>
          e.conditions == op.withdraw[k].conditions
      {
        if e.addr == op.withdraw[j].addr && e.conditions != op.withdraw[j].conditions {
          assert e in op.deposit && op.withdraw[j] in op.withdraw;
          return Err(ConflictingConditionsForAccount);
        }
      }
    }
    return Ok(Unit);
  }

  method CollectBound(cs: seq<Condition>, into: set<Condition>) returns (effects: set<Condition>)
    ensures effects == into + set c | c in cs && ExecutionBound(c)
  {
    effects := into;
    for i := 0 to |cs|
      invariant effects == into + set c | c in cs[..i] && ExecutionBound(c)
    {
      assert cs[..i + 1] == cs[..i] + [cs[i]];
      if ExecutionBound(cs[i]) {
        effects := effects + {cs[i]};
      }
    }
    assert cs[..|cs|] == cs;
  }

  /** The binding: every effect listed with a spend or a deposit must be executed. */
  method SignedEffectsAreExecuted(op: Operation) returns (ok: bool)
    ensures ok <==> ListedEffects(op) <= ExecutedEffects(op)
  {
    var authorized: set<Condition> := {};
    for i := 0 to |op.spend|
      invariant forall c :: c in authorized <==>
        ExecutionBound(c) && exists k :: 0 <= k < i && c in op.spend[k].conditions
    {
      authorized := CollectBound(op.spend[i].conditions, authorized);
    }
    ghost var fromSpends := authorized;
    assert forall c :: c in fromSpends <==> ExecutionBound(c) && c in SpendConditions(op.spend);
    for i := 0 to |op.deposit|
      invariant forall c :: c in authorized <==>
        c in fromSpends || (ExecutionBound(c) && exists k :: 0 <= k < i && c in op.deposit[k].conditions)
    {
      authorized := CollectBound(op.deposit[i].conditions, authorized);
    }
    assert authorized == ListedEffects(op);

    var executed: set<Condition> := {};
    ghost var all, n := ExecutedList(op), |op.create|;
    for i := 0 to |op.create|
      invariant forall c :: c in executed <==> c in all[..i]
    {
      executed := executed + {Create(op.create[i].utxo, op.create[i].amount)};
      assert all[..i + 1] == all[..i] + [Create(op.create[i].utxo, op.create[i].amount)];
    }
    for i := 0 to |op.withdraw|
      invariant forall c :: c in executed <==> c in all[..n + i]
    {
      executed := executed + {ExtWithdraw(op.withdraw[i].addr, op.withdraw[i].amount)};
      assert all[..n + i + 1] == all[..n + i] + [ExtWithdraw(op.withdraw[i].addr, op.withdraw[i].amount)];
    }
    assert all[..|all|] == all;
    return authorized <= executed;
  }

  method PreProcessOperation(op: Operation) returns (r: Result<(I128, I128)>)
    ensures r == Preprocess(op)
  {
    var compatible := OpHasNoConflictingConditions(op);
    if !compatible {
      return Err(BundleHasConflictingConditions);
    }
    var deposited := SumAmounts(op.deposit);
    if deposited.Err? {
      return Err(deposited.error);
    }
    var withdrawn := SumAmounts(op.withdraw);
    if withdrawn.Err? {
      return Err(withdrawn.error);
    }
    var verified := VerifyExternalOperations(op);
    if verified.Err? {
      return Err(verified.error);
    }
    var executed := SignedEffectsAreExecuted(op);
    if !executed {
      return Err(UnauthorizedOperation);
    }
    return Ok((deposited.value, withdrawn.value));
  }

  lemma PullsNext(es: seq<External>, pushes: seq<Move>, i: nat)
    requires i < |es|
    ensures var moves := Pulls(es[i..]) + pushes;
      moves[0] == Pull(es[i].addr, es[i].amount, es[i].conditions) && moves[1..] == Pulls(es[i + 1..]) + pushes
  {
    assert es[i..][1..] == es[i + 1..];
  }

  lemma PushesNext(es: seq<External>, i: nat)
    requires i < |es|
    ensures var moves := Pushes(es[i..]);
      moves[0] == Push(es[i].addr, es[i].amount) && moves[1..] == Pushes(es[i + 1..])
  {
    assert es[i..][1..] == es[i + 1..];
  }

  // ----- The contract -----

  class ChannelContract {
    const d: Deployment
    const store: Store
    const asset: AssetContract
    const auth: AuthContract
    var supply: I128
    var guard: bool

    /** `__constructor`, over the deployed auth and asset contracts. */
    constructor (d: Deployment, asset: AssetContract, auth: AuthContract)
      requires auth.host == d.host
      ensures Bound() && this.d == d && this.asset == asset && this.auth == auth && fresh(store)
      ensures store.entries == map[] && supply == 0 && !guard
    {
      this.d, this.asset, this.auth := d, asset, auth;
      store := new Store(d.host.sha256);
      supply, guard := 0, false;
    }

    ghost predicate Bound()
    {
      store.sha256 == d.host.sha256 && auth.host == d.host
    }

    ghost function LedgerAt(now: nat): World
      reads this, store, asset, auth
    {
      World(store.entries, supply, guard, asset.State(), auth.providers, auth.log, now)
    }

    method IncreaseSupply(amount: I128) returns (r: Result<Unit>)
      modifies this`supply
      ensures MoveSupply(old(supply), Pull(d.self, amount, [])) == if r.Ok? then Ok(supply) else Err(r.error)
    {
      if supply + amount < I128_MIN || supply + amount > I128_MAX {
        return Err(AmountOverflow);
      }
      supply := supply + amount;
      return Ok(Unit);
    }

    method DecreaseSupply(amount: I128) returns (r: Result<Unit>)
      modifies this`supply
      ensures MoveSupply(old(supply), Push(d.self, amount)) == if r.Ok? then Ok(supply) else Err(r.error)
    {
      if supply - amount < I128_MIN || supply - amount > I128_MAX {
        return Err(AmountUnderflow);
      }
      supply := supply - amount;
      return Ok(Unit);
    }

    /** The call of the asset's `transfer`, with whatever the asset does before it answers. */
    method CallAsset(m: Move, tx: Tx, script: Script, now: nat) returns (r: Result<Unit>)
      requires Bound()
      modifies this, store, asset
      decreases script, 0, 0
      ensures AssetTransfer(d, old(LedgerAt(now)), tx, m, script) ==
        if r.Ok? then Ok(LedgerAt(now)) else Err(r.error)
    {
      if script.Calls? {
        r := MakeAttempts(script.attempts, now);
        if r.Err? {
          return;
        }
        match script.verdict {
          case Follow =>
          case Answer(after) =>
            asset.Rollback(after);
            return Ok(Unit);
          case Revert =>
            return Err(AssetReverted);
        }
      }
      match m {
        case Pull(from, amount, _) =>
          r := asset.Transfer(from, d.self, amount, (from, amount) in tx.payments);
        case Push(to, amount) =>
          r := asset.Transfer(d.self, to, amount, true);
      }
    }

    method MakeAttempts(attempts: Attempts, now: nat) returns (r: Result<Unit>)
      requires Bound()
      modifies this, store, asset
      decreases attempts, 0, 0
      ensures RunAttempts(d, old(LedgerAt(now)), attempts) ==
        if r.Ok? then Ok(LedgerAt(now)) else Err(r.error)
    {
      match attempts
      case NoAttempts =>
        r := Ok(Unit);
      case Attempt(op, tx, script, propagate, others) =>
        r := TransactOn(op, tx, script, now);
        if r.Ok? || !propagate {
          r := MakeAttempts(others, now);
        }
    }

    method PullDeposit(e: External, tx: Tx, script: Script, now: nat) returns (r: Result<Unit>)
      requires Bound()
      modifies this, store, asset
      decreases script, 0, 1
      ensures MakeMove(d, old(LedgerAt(now)), tx, Pull(e.addr, e.amount, e.conditions), script) ==
        if r.Ok? then Ok(LedgerAt(now)) else Err(r.error)
    {
      if e.addr == d.self || (e.addr, e.conditions) !in tx.consents {
        return Err(AuthRejected);
      }
      r := CallAsset(Pull(e.addr, e.amount, e.conditions), tx, script, now);
      if r.Ok? {
        r := IncreaseSupply(e.amount);
      }
    }

    method PushWithdrawal(e: External, tx: Tx, script: Script, now: nat) returns (r: Result<Unit>)
      requires Bound()
      modifies this, store, asset
      decreases script, 0, 1
      ensures MakeMove(d, old(LedgerAt(now)), tx, Push(e.addr, e.amount), script) ==
        if r.Ok? then Ok(LedgerAt(now)) else Err(r.error)
    {
      r := CallAsset(Push(e.addr, e.amount), tx, script, now);
      if r.Ok? {
        r := DecreaseSupply(e.amount);
      }
    }

    /** Pull every deposit; what is left to do are the withdrawals under the rest of the script. */
    method ExecuteDeposits(op: Operation, tx: Tx, script: Script, now: nat) returns (r: Result<Unit>, rest: Script)
      requires Bound()
      modifies this, store, asset
      decreases script, 1, 0
      ensures r.Ok? ==>
        && (rest == script || rest < script)
        && Execute(d, old(LedgerAt(now)), tx, Moves(op), script)
             == Execute(d, LedgerAt(now), tx, Pushes(op.withdraw), rest)
      ensures r.Err? ==> Execute(d, old(LedgerAt(now)), tx, Moves(op), script) == Err(r.error)
    {
      rest := script;
      ghost var before, pushes := LedgerAt(now), Pushes(op.withdraw);
      for i := 0 to |op.deposit|
        invariant rest == script || rest < script
        invariant Execute(d, before, tx, Moves(op), script)
               == Execute(d, LedgerAt(now), tx, Pulls(op.deposit[i..]) + pushes, rest)
      {
        var e := op.deposit[i];
        PullsNext(op.deposit, pushes, i);
        r := PullDeposit(e, tx, rest, now);
        if r.Err? {
          return;
        }
        rest := Next(rest);
      }
      assert Pulls(op.deposit[|op.deposit|..]) + pushes == pushes;
      r := Ok(Unit);
    }

    method ExecuteWithdrawals(op: Operation, tx: Tx, script: Script, now: nat) returns (r: Result<Unit>)
      requires Bound()
      modifies this, store, asset
      decreases script, 1, 0
      ensures Execute(d, old(LedgerAt(now)), tx, Pushes(op.withdraw), script) ==
        if r.Ok? then Ok(LedgerAt(now)) else Err(r.error)
    {
      var rest := script;
      ghost var before := LedgerAt(now);
      for i := 0 to |op.withdraw|
        invariant rest == script || rest < script
        invariant Execute(d, before, tx, Pushes(op.withdraw), script)
               == Execute(d, LedgerAt(now), tx, Pushes(op.withdraw[i..]), rest)
      {
        var e := op.withdraw[i];
        PushesNext(op.withdraw, i);
        r := PushWithdrawal(e, tx, rest, now);
        if r.Err? {
          return;
        }
        rest := Next(rest);
      }
      r := Ok(Unit);
    }

    method ExecuteExternalOperations(op: Operation, tx: Tx, script: Script, now: nat) returns (r: Result<Unit>)
      requires Bound()
      modifies this, store, asset
      decreases script, 2, 0
      ensures Execute(d, old(LedgerAt(now)), tx, Moves(op), script) ==
        if r.Ok? then Ok(LedgerAt(now)) else Err(r.error)
    {
      var rest;
      r, rest := ExecuteDeposits(op, tx, script, now);
      if r.Ok? {
        r := ExecuteWithdrawals(op, tx, rest, now);
      }
    }

    method TransactBody(op: Operation, tx: Tx, script: Script, now: nat) returns (r: Result<Unit>)
      requires Bound()
      modifies this, store, asset
      decreases script, 3, 0
      ensures Transact(d, old(LedgerAt(now)), op, tx, script) ==
        if r.Ok? then Ok(LedgerAt(now)) else Err(r.error)
    {
      if guard {
        return Err(ReentrantCall);
      }
      ghost var before := LedgerAt(now);
      guard := true;
      var totals := PreProcessOperation(op);
      if totals.Err? {
        return Err(totals.error);
      }
      r := ProcessBundleOn(d, store, auth, op, tx, totals.value.0, totals.value.1, now, before);
      if r.Err? {
        return;
      }
      assert LedgerAt(now) == before.(guard := true, store := store.entries);
      r := ExecuteExternalOperations(op, tx, script, now);
      if r.Err? {
        return;
      }
      guard := false;
    }

    /** `transact` as the host runs it: it takes effect as a whole or leaves no trace. */
    method TransactOn(op: Operation, tx: Tx, script: Script, now: nat) returns (r: Result<Unit>)
      requires Bound()
      modifies this, store, asset
      decreases script, 4, 0
      ensures Transact(d, old(LedgerAt(now)), op, tx, script) ==
        if r.Ok? then Ok(LedgerAt(now)) else Err(r.error)
      ensures r.Err? ==> LedgerAt(now) == old(LedgerAt(now))
      ensures Books(old(LedgerAt(now))) ==> Books(LedgerAt(now))
    {
      if Books(LedgerAt(now)) {
        TransactExact(d, LedgerAt(now), op, tx, script);
      }
      var supplyBefore, guardBefore, entriesBefore, assetBefore := supply, guard, store.entries, asset.State();
      r := TransactBody(op, tx, script, now);
      if r.Err? {
        supply, guard, store.entries := supplyBefore, guardBefore, entriesBefore;
        asset.Rollback(assetBefore);
      }
    }
  }
}
