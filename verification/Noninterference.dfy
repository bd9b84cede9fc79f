/** Under the reentrancy guard the external phase splits into three runs that do not see each
    other: the depositors' consent, the supply, and the asset's own ledger. */
module Noninterference {
  import opened Types
  import opened Token
  import opened Channel

  /** No nested attempt passes its failure on. */
  predicate Quiet(attempts: Attempts)
  {
    attempts.Attempt? ==> !attempts.propagate && Quiet(attempts.others)
  }

  function SupplyRun(supply: I128, moves: seq<Move>): Result<I128>
    decreases |moves|
  {
    if moves == [] then Ok(supply)
    else
      var supply' :- MoveSupply(supply, moves[0]);
      SupplyRun(supply', moves[1..])
  }

  function AssetRun(d: Deployment, t: Ledger, tx: Tx, moves: seq<Move>, script: Script): Result<Ledger>
    decreases |moves|
  {
    if moves == [] then Ok(t)
    else if script.Calls? && !Quiet(script.attempts) then Err(ReentrantCall)
    else if script.Calls? && script.verdict.Revert? then Err(AssetReverted)
    else
      var t' :- if script.Calls? && script.verdict.Answer? then Ok(script.verdict.after)
                else TokenTransfer(d, t, tx, moves[0]);
      AssetRun(d, t', tx, moves[1..], Next(script))
  }

  ghost predicate AllConsent(d: Deployment, tx: Tx, moves: seq<Move>)
  {
    forall m :: m in moves ==> Consents(d, tx, m)
  }

  lemma {:induction false} GuardedAttemptsDoNothing(d: Deployment, w: World, attempts: Attempts)
    requires w.guard
    ensures RunAttempts(d, w, attempts) == if Quiet(attempts) then Ok(w) else Err(ReentrantCall)
  {
    if attempts.Attempt? {
      GuardedAttemptsDoNothing(d, w, attempts.others);
    }
  }

  lemma {:induction false} ExecuteSplits(d: Deployment, w: World, tx: Tx, moves: seq<Move>, script: Script)
    requires w.guard
    ensures Execute(d, w, tx, moves, script).Ok? <==>
      && AllConsent(d, tx, moves)
      && SupplyRun(w.supply, moves).Ok?
      && AssetRun(d, w.token, tx, moves, script).Ok?
    ensures Execute(d, w, tx, moves, script).Ok? ==>
      Execute(d, w, tx, moves, script).value ==
        w.(supply := SupplyRun(w.supply, moves).value, token := AssetRun(d, w.token, tx, moves, script).value)
    decreases |moves|
  {
    if moves != [] {
      assert moves == [moves[0]] + moves[1..];
      if script.Calls? {
        GuardedAttemptsDoNothing(d, w, script.attempts);
      }
      var step := AssetTransfer(d, w, tx, moves[0], script);
      if step.Ok? && MoveSupply(w.supply, moves[0]).Ok? {
        var w' := step.value.(supply := MoveSupply(w.supply, moves[0]).value);
        ExecuteSplits(d, w', tx, moves[1..], Next(script));
      }
    }
  }

  // ----- Particular assets -----

  /** An asset that tries nested calls, swallows their failures, and then does its duty. */
  predicate Obliging(script: Script)
  {
    script.Calls? ==> Quiet(script.attempts) && script.verdict.Follow? && Obliging(script.rest)
  }

  lemma {:induction false} ObligingRunsHonestly(d: Deployment, w: World, tx: Tx, moves: seq<Move>, script: Script)
    requires w.guard && Obliging(script)
    ensures Execute(d, w, tx, moves, script) == Execute(d, w, tx, moves, Honest)
    decreases |moves|
  {
    if moves != [] {
      if script.Calls? {
        GuardedAttemptsDoNothing(d, w, script.attempts);
      }
      assert AssetTransfer(d, w, tx, moves[0], script) == AssetTransfer(d, w, tx, moves[0], Honest);
      var step := MakeMove(d, w, tx, moves[0], script);
      if step.Ok? {
        ObligingRunsHonestly(d, step.value, tx, moves[1..], Next(script));
      }
    }
  }

  /** Reentering gains nothing: with nested attempts in any transfer, the call has the very result it
      has over the token without them, errors included. */
  lemma ReenteringGainsNothing(d: Deployment, w: World, op: Operation, tx: Tx, script: Script)
    requires Obliging(script)
    ensures Transact(d, w, op, tx, script) == Transact(d, w, op, tx, Honest)
  {
    if !w.guard && Preprocess(op).Ok? {
      var totals := Preprocess(op).value;
      var bundle := ProcessBundle(d, w, op, tx, totals.0, totals.1);
      if bundle.Ok? {
        ObligingRunsHonestly(d, w.(guard := true, store := bundle.value), tx, Moves(op), script);
      }
    }
  }

  /** In the `n`-th transfer the asset fails or passes a nested failure on. */
  predicate RefusesAt(script: Script, n: nat)
  {
    && script.Calls?
    && if n == 0 then script.verdict.Revert? || !Quiet(script.attempts) else RefusesAt(script.rest, n - 1)
  }

  lemma {:induction false} RefusedRunFails(d: Deployment, t: Ledger, tx: Tx, moves: seq<Move>, script: Script, n: nat)
    requires n < |moves| && RefusesAt(script, n)
    ensures AssetRun(d, t, tx, moves, script).Err?
    decreases n
  {
    if n > 0 && Quiet(script.attempts) && !script.verdict.Revert? {
      var t' := if script.verdict.Answer? then Ok(script.verdict.after) else TokenTransfer(d, t, tx, moves[0]);
      if t'.Ok? {
        RefusedRunFails(d, t'.value, tx, moves[1..], Next(script), n - 1);
      }
    }
  }

  /** An asset that answers every call without doing anything. */
  function Inert(t: Ledger, n: nat): Script
  {
    if n == 0 then Honest else Calls(NoAttempts, Answer(t), Inert(t, n - 1))
  }

  lemma {:induction false} InertAccepts(d: Deployment, t: Ledger, tx: Tx, moves: seq<Move>)
    ensures AssetRun(d, t, tx, moves, Inert(t, |moves|)) == Ok(t)
  {
    if moves != [] {
      InertAccepts(d, t, tx, moves[1..]);
    }
  }

  /** Whatever the asset does, an accepted `transact` leaves the channel exactly as it would with
      an inert asset; the asset can only refuse, by reverting or passing a nested failure on. */
  lemma AssetCannotInterfere(d: Deployment, w: World, op: Operation, tx: Tx, script: Script)
    ensures var inert := Transact(d, w, op, tx, Inert(w.token, |Moves(op)|));
      && (Transact(d, w, op, tx, script).Ok? <==> inert.Ok? && AssetRun(d, w.token, tx, Moves(op), script).Ok?)
      && (Transact(d, w, op, tx, script).Ok? ==>
            Transact(d, w, op, tx, script).value
              == inert.value.(token := AssetRun(d, w.token, tx, Moves(op), script).value))
      && (inert.Ok? ==> inert.value.token == w.token && !inert.value.guard)
  {
    InertAccepts(d, w.token, tx, Moves(op));
    if !w.guard && Preprocess(op).Ok? {
      var totals := Preprocess(op).value;
      var bundle := ProcessBundle(d, w, op, tx, totals.0, totals.1);
      if bundle.Ok? {
        var w1 := w.(guard := true, store := bundle.value);
        ExecuteSplits(d, w1, tx, Moves(op), script);
        ExecuteSplits(d, w1, tx, Moves(op), Inert(w.token, |Moves(op)|));
      }
    }
  }

  /** One refusal, in whichever transfer, fails the whole call. */
  lemma OneRefusalFailsTheCall(d: Deployment, w: World, op: Operation, tx: Tx, script: Script, n: nat)
    requires n < |Moves(op)| && RefusesAt(script, n)
    ensures Transact(d, w, op, tx, script).Err?
  {
    AssetCannotInterfere(d, w, op, tx, script);
    RefusedRunFails(d, w.token, tx, Moves(op), script, n);
  }
}
