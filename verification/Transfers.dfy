/** Who pays and who receives in an accepted `transact` over the token contract. */
module Transfers {
  import opened Types
  import opened Sums
  import opened Token
  import opened Channel
  import opened Noninterference
  import opened Accounting

  /** What the moves add to the balance of `a`. */
  function Gain(d: Deployment, moves: seq<Move>, a: Address): int
  {
    if moves == [] then 0
    else
      var amount: int := moves[0].amount;
      var from, to := if moves[0].Pull? then moves[0].from else d.self, if moves[0].Pull? then d.self else moves[0].to;
      (if a == to then amount else 0) - (if a == from then amount else 0) + Gain(d, moves[1..], a)
  }

  /** What the list assigns to `a`. */
  function AmountFor(es: seq<External>, a: Address): int
  {
    if es == [] then 0 else (if es[0].addr == a then es[0].amount else 0) + AmountFor(es[1..], a)
  }

  lemma {:induction false} GainAppend(d: Deployment, xs: seq<Move>, ys: seq<Move>, a: Address)
    ensures Gain(d, xs + ys, a) == Gain(d, xs, a) + Gain(d, ys, a)
  {
    if xs == [] {
      assert xs + ys == ys;
    } else {
      GainAppend(d, xs[1..], ys, a);
      assert (xs + ys)[1..] == xs[1..] + ys;
    }
  }

  lemma {:induction false} GainOfPulls(d: Deployment, es: seq<External>, a: Address)
    ensures Gain(d, Pulls(es), a) == (if a == d.self then Total(es) else 0) - AmountFor(es, a)
  {
    if es != [] {
      GainOfPulls(d, es[1..], a);
      assert Pulls(es)[1..] == Pulls(es[1..]);
    }
  }

  lemma {:induction false} GainOfPushes(d: Deployment, es: seq<External>, a: Address)
    ensures Gain(d, Pushes(es), a) == AmountFor(es, a) - if a == d.self then Total(es) else 0
  {
    if es != [] {
      GainOfPushes(d, es[1..], a);
      assert Pushes(es)[1..] == Pushes(es[1..]);
    }
  }

  lemma {:induction false} AmountForOthers(es: seq<External>, a: Address)
    requires forall e :: e in es ==> e.addr != a
    ensures AmountFor(es, a) == 0
  {
    if es != [] {
      assert es == [es[0]] + es[1..];
      AmountForOthers(es[1..], a);
    }
  }

  lemma {:induction false} HonestRunMoves(d: Deployment, t: Ledger, tx: Tx, moves: seq<Move>, a: Address)
    requires Sound(t) && AssetRun(d, t, tx, moves, Honest).Ok?
    ensures var t' := AssetRun(d, t, tx, moves, Honest).value;
      && Sound(t') && t'.allowances == t.allowances
      && MapSum(t'.balances) == MapSum(t.balances)
      && BalanceIn(t'.balances, a) == BalanceIn(t.balances, a) + Gain(d, moves, a)
    ensures forall m :: m in moves && m.Pull? ==> (m.from, m.amount) in tx.payments
    decreases |moves|
  {
    if moves != [] {
      var m := moves[0];
      var from, to := if m.Pull? then m.from else d.self, if m.Pull? then d.self else m.to;
      TransferMoves(t, from, to, m.amount);
      TransferKeepsTotal(t, from, to, m.amount);
      HonestRunMoves(d, TransferSpec(t, from, to, m.amount).value, tx, moves[1..], a);
      assert moves == [m] + moves[1..];
    }
  }

  /** Over the token every account loses exactly what it deposits, as it authorized, and gains
      exactly what is withdrawn to it; the channel gains the deposits and loses the withdrawals,
      except those to itself; and no token is made or lost. */
  lemma DepositorsPayRecipientsReceive(d: Deployment, w: World, op: Operation, tx: Tx, a: Address)
    requires Books(w) && Sound(w.token)
    requires Transact(d, w, op, tx, Honest).Ok?
    ensures var t, t' := w.token, Transact(d, w, op, tx, Honest).value.token;
      && BalanceIn(t'.balances, a) == BalanceIn(t.balances, a) - AmountFor(op.deposit, a) + AmountFor(op.withdraw, a)
           + (if a == d.self then Total(op.deposit) - Total(op.withdraw) else 0)
      && MapSum(t'.balances) == MapSum(t.balances)
      && t'.allowances == t.allowances
    ensures forall e :: e in op.deposit ==> (e.addr, e.amount) in tx.payments
  {
    TransactExact(d, w, op, tx, Honest);
    HonestRunMoves(d, w.token, tx, Moves(op), a);
    GainAppend(d, Pulls(op.deposit), Pushes(op.withdraw), a);
    GainOfPulls(d, op.deposit, a);
    GainOfPushes(d, op.withdraw, a);
    PullsAre(op.deposit);
    forall e | e in op.deposit
      ensures (e.addr, e.amount) in tx.payments
    {
      var m := Pull(e.addr, e.amount, e.conditions);
      assert External(m.from, m.amount, m.conditions) == e;
      assert m in Moves(op);
    }
  }
}
