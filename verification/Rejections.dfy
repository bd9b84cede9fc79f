/** Why a `transact` is rejected: each error code has a cause in the operation or the ledger. */
module Rejections {
  import opened Types
  import opened Sums
  import opened Primitives
  import opened Storage
  import opened Settlement
  import opened ChannelAuth
  import opened Token
  import opened Channel
  import opened Noninterference
  import opened Accounting
  import opened Authorization

  ghost predicate Repeats<T>(xs: seq<T>, x: T)
  {
    exists i, j :: 0 <= i < j < |xs| && xs[i] == x && xs[j] == x
  }

  lemma RepeatsLater<T>(xs: seq<T>, x: T)
    requires xs != [] && (Repeats(xs[1..], x) || (xs[0] == x && x in xs[1..]))
    ensures Repeats(xs, x)
  {
    if Repeats(xs[1..], x) {
      var i, j :| 0 <= i < j < |xs[1..]| && xs[1..][i] == x && xs[1..][j] == x;
      assert xs[i + 1] == x && xs[j + 1] == x;
    } else {
      var j :| 0 <= j < |xs[1..]| && xs[1..][j] == x;
      assert xs[j + 1] == x;
    }
  }

  /** A spend fails because the UTXO is spent or listed twice, was never created, or the inputs
      do not fit together. */
  lemma {:induction false} SpendLoopCauses<K(!new)>(s: map<K, I128>, ks: seq<K>, available: I128)
    requires forall k :: k in s ==> 0 <= s[k]
    requires SpendLoop(s, ks, available).Err?
    ensures var e := SpendLoop(s, ks, available).error;
      && (e == UtxoAlreadySpent || e == UtxoDoesNotExist || e == Trap)
      && (e == UtxoAlreadySpent ==> exists k :: k in ks && k in s && (s[k] == 0 || Repeats(ks, k)))
      && (e == UtxoDoesNotExist ==> exists k :: k in ks && k !in s)
      && (e == Trap ==> I128_MAX < available + MapSum(s))
    decreases |ks|
  {
    var k, rest := ks[0], ks[1..];
    assert ks == [k] + rest;
    if 0 < BalanceOf(s, k) && available + s[k] <= I128_MAX {
      var s', e := s[k := 0], SpendLoop(s, ks, available).error;
      SpendLoopCauses(s', rest, available + s[k]);
      MapSumUpdate(s, k, 0);
      if e == UtxoAlreadySpent {
        var j :| j in rest && j in s' && (s'[j] == 0 || Repeats(rest, j));
        if j == k || Repeats(rest, j) {
          RepeatsLater(ks, j);
        }
        assert j in ks && j in s;
      } else if e == UtxoDoesNotExist {
        var j :| j in rest && j !in s';
        assert j in ks;
      }
    } else {
      assert k in ks;
      if k in s {
        MapSumBoundsEntry(s, k);
      }
    }
  }

  /** A create fails because the UTXO exists or is listed twice, its amount is not positive, or
      the outputs exceed the range. */
  lemma {:induction false} CreateLoopCauses<K(!new)>(s: map<K, I128>, outs: seq<(K, I128)>, available: I128)
    requires forall k :: k in s ==> 0 <= s[k]
    requires CreateLoop(s, outs, available).Err?
    ensures var e := CreateLoop(s, outs, available).error;
      && (e == UtxoAlreadyExists || e == InvalidCreateAmount || e == Trap)
      && (e == UtxoAlreadyExists ==> exists p :: p in outs && (p.0 in s || Repeats(OutKeys(outs), p.0)))
      && (e == InvalidCreateAmount ==> exists p :: p in outs && p.1 <= 0)
      && (e == Trap ==> exists n :: 0 <= n <= |outs| && available - OutValue(outs[..n]) < I128_MIN)
    decreases |outs|
  {
    var p, rest := outs[0], outs[1..];
    assert outs == [p] + rest;
    if p.0 !in s && 0 < p.1 && available - p.1 >= I128_MIN {
      var s', e := s[p.0 := p.1], CreateLoop(s, outs, available).error;
      CreateLoopCauses(s', rest, available - p.1);
      assert OutKeys(outs)[1..] == OutKeys(rest);
      if e == UtxoAlreadyExists {
        var q :| q in rest && (q.0 in s' || Repeats(OutKeys(rest), q.0));
        if q.0 !in s {
          if q.0 == p.0 {
            FreshKey(rest, p.0);
          }
          RepeatsLater(OutKeys(outs), q.0);
        }
        assert q in outs;
      } else if e == InvalidCreateAmount {
        var q :| q in rest && q.1 <= 0;
        assert q in outs;
      } else {
        var n :| 0 <= n <= |rest| && available - p.1 - OutValue(rest[..n]) < I128_MIN;
        assert outs[..n + 1] == [p] + rest[..n];
        assert available - OutValue(outs[..n + 1]) < I128_MIN;
      }
    } else {
      assert p in outs;
      assert OutValue(outs[..1]) == p.1 + OutValue(outs[..1][1..]);
    }
  }

  /** Some initial part of the list does not fit on top of `total`. */
  ghost predicate Overflows(es: seq<External>, total: int)
  {
    exists n :: 0 <= n <= |es| && I128_MAX < total + Total(es[..n])
  }

  lemma {:induction false} SumCauses(es: seq<External>, total: I128)
    requires 0 <= total && SumExternals(es, total).Err?
    ensures var e := SumExternals(es, total).error;
      && (e == InvalidExternalAmount || e == AmountOverflow)
      && (e == InvalidExternalAmount ==> !AllPositive(es))
      && (e == AmountOverflow ==> Overflows(es, total))
  {
    assert es == [es[0]] + es[1..];
    if 0 < es[0].amount && total + es[0].amount <= I128_MAX {
      SumCauses(es[1..], total + es[0].amount);
      if SumExternals(es, total).error == AmountOverflow {
        var n :| 0 <= n <= |es[1..]| && I128_MAX < total + es[0].amount + Total(es[1..][..n]);
        assert es[..n + 1] == [es[0]] + es[1..][..n];
        assert I128_MAX < total + Total(es[..n + 1]);
      }
    } else {
      assert es[0] in es;
      assert Total(es[..1]) == es[0].amount + Total(es[..1][1..]);
    }
  }

  ghost predicate SettleCause<K(!new)>(
    s: map<K, I128>, ks: seq<K>, outs: seq<(K, I128)>, incoming: int, outgoing: int, e: Error)
  {
    match e
    case UtxoAlreadySpent => exists k :: k in ks && k in s && (s[k] == 0 || Repeats(ks, k))
    case UtxoDoesNotExist => exists k :: k in ks && k !in s
    case UtxoAlreadyExists => exists p :: p in outs && (p.0 in s || Repeats(OutKeys(outs), p.0))
    case InvalidCreateAmount => exists p :: p in outs && p.1 <= 0
    case UnbalancedBundle => incoming + Value(s, ks) != OutValue(outs) + outgoing
    case Trap => I128_MAX < incoming + MapSum(s) || exists n :: 0 <= n <= |outs| && I128_MAX < OutValue(outs[..n])
    case _ => false
  }

  /** Every create and withdrawal listed with a spend or a deposit is executed. */
  ghost predicate ListedAreExecuted(op: Operation)
  {
    && (forall e, c :: e in op.spend && c in e.conditions ==> Executes(op, c))
    && (forall e, c :: e in op.deposit && c in e.conditions ==> Executes(op, c))
  }

  /** What the code says and what is then true of the operation. */
  ghost predicate Cause(d: Deployment, w: World, op: Operation, tx: Tx, e: Error)
  {
    match e
    case BundleHasConflictingConditions =>
      exists c, c' :: Listed(op, c) && Listed(op, c') && ConflictsWith(c, c')
    case InvalidExternalAmount => !AllPositive(op.deposit) || !AllPositive(op.withdraw)
    case AmountOverflow => Overflows(op.deposit, 0) || Overflows(op.withdraw, 0)
    case RepeatedAccountForDeposit => !NoDup(Addresses(op.deposit))
    case RepeatedAccountForWithdraw => !NoDup(Addresses(op.withdraw))
    case ConflictingConditionsForAccount =>
      exists x, y :: x in op.deposit && y in op.withdraw && x.addr == y.addr && x.conditions != y.conditions
    case UnauthorizedOperation => !ListedAreExecuted(op)
    case RepeatedSpendUtxo => !NoDup(SpendKeys(op))
    case RepeatedCreateUtxo => !NoDup(CreateKeys(op))
    case AuthRejected => !AuthAccepted(d.host, w.providers, tx.sigs, w.now, tx.payload, Contexts(d, op, tx))
    case UtxoAlreadySpent | UtxoDoesNotExist | UtxoAlreadyExists | InvalidCreateAmount | UnbalancedBundle | Trap =>
      SettleCause(w.store, SpendDigests(d, op), CreateDigests(d, op), Total(op.deposit), Total(op.withdraw), e)
    case _ => false
  }

  lemma PreprocessCauses(d: Deployment, w: World, op: Operation, tx: Tx)
    requires Preprocess(op).Err?
    ensures Cause(d, w, op, tx, Preprocess(op).error)
  {
    if !PairwiseCompatible(AllConditions(op)) {
      ScanFindsConflicts(op);
    } else if SumExternals(op.deposit, 0).Err? {
      SumCauses(op.deposit, 0);
    } else if SumExternals(op.withdraw, 0).Err? {
      SumCauses(op.withdraw, 0);
    } else if VerifyExternals(op).Ok? {
      BindingMeans(op);
    }
  }

  lemma SettleCauses<K(!new)>(s: map<K, I128>, ks: seq<K>, outs: seq<(K, I128)>, incoming: I128, outgoing: I128)
    requires (forall k :: k in s ==> 0 <= s[k]) && 0 <= incoming
    requires Settle(s, ks, outs, incoming, outgoing).Err?
    ensures SettleCause(s, ks, outs, incoming, outgoing, Settle(s, ks, outs, incoming, outgoing).error)
  {
    SpendLoopExact(s, ks, incoming);
    if SpendLoop(s, ks, incoming).Err? {
      SpendLoopCauses(s, ks, incoming);
    } else {
      var spent := SpendLoop(s, ks, incoming).value;
      ValueNonnegative(s, ks);
      CreateLoopExact(spent.entries, outs, spent.available);
      if CreateLoop(spent.entries, outs, spent.available).Err? {
        CreateLoopCauses(spent.entries, outs, spent.available);
      }
    }
  }

  // ----- The order of the checks -----

  ghost predicate Conflicting(op: Operation)
  {
    exists c, c' :: Listed(op, c) && Listed(op, c') && ConflictsWith(c, c')
  }

  ghost predicate Summable(es: seq<External>)
  {
    AllPositive(es) && Total(es) <= I128_MAX
  }

  /** Which of the preprocessing errors is reported: the first check that fails decides. */
  lemma FirstFailedCheckDecides(op: Operation)
    ensures var r, sound := Preprocess(op), !Conflicting(op) && Summable(op.deposit) && Summable(op.withdraw);
      var distinct, paid := NoDup(Addresses(op.deposit)), NoDup(Addresses(op.withdraw));
      && (r == Err(BundleHasConflictingConditions) <==> Conflicting(op))
      && (r == Err(InvalidExternalAmount) || r == Err(AmountOverflow) <==> !Conflicting(op) && !sound)
      && (r == Err(RepeatedAccountForDeposit) <==> sound && !distinct)
      && (r == Err(RepeatedAccountForWithdraw) <==> sound && distinct && !paid)
      && (r == Err(ConflictingConditionsForAccount) <==>
            sound && distinct && paid
            && exists x, y :: x in op.deposit && y in op.withdraw && x.addr == y.addr && x.conditions != y.conditions)
      && (r == Err(UnauthorizedOperation) ==> !ListedAreExecuted(op))
      && (r.Ok? ==> ListedAreExecuted(op))
  {
    ScanFindsConflicts(op);
    PreprocessExact(op);
    BindingMeans(op);
    if SumExternals(op.deposit, 0).Err? {
      SumCauses(op.deposit, 0);
    }
    if SumExternals(op.withdraw, 0).Err? {
      SumCauses(op.withdraw, 0);
    }
    SumExternalsExact(op.deposit, 0);
    SumExternalsExact(op.withdraw, 0);
  }

  /** Within a list the first entry that is not positive or does not fit decides. */
  lemma {:induction false} FirstBadEntryDecides(es: seq<External>, total: I128, i: nat)
    requires 0 <= total && i < |es|
    requires AllPositive(es[..i]) && total + Total(es[..i]) <= I128_MAX
    ensures es[i].amount <= 0 ==> SumExternals(es, total) == Err(InvalidExternalAmount)
    ensures 0 < es[i].amount && I128_MAX < total + Total(es[..i + 1]) ==> SumExternals(es, total) == Err(AmountOverflow)
    decreases i
  {
    if i == 0 {
      assert es[..1][1..] == [];
    } else {
      assert es[..i] == [es[0]] + es[1..][..i - 1] && es[..i + 1] == [es[0]] + es[1..][..i];
      assert es[0] in es[..i];
      assert forall e :: e in es[1..][..i - 1] ==> e in es[..i];
      SumExternalsExact(es[1..][..i - 1], 0);
      FirstBadEntryDecides(es[1..], total + es[0].amount, i - 1);
    }
  }

  /** The first spend that cannot be made decides: it is spent, also earlier in the list, or was never
      created. */
  lemma {:induction false} FirstBadSpendDecides<K(!new)>(s: map<K, I128>, ks: seq<K>, available: I128, i: nat)
    requires 0 <= available && i < |ks| && forall k :: k in s ==> 0 <= s[k]
    requires SpendsValid(s, ks[..i]) && available + Value(s, ks[..i]) <= I128_MAX
    ensures ks[i] !in s ==> SpendLoop(s, ks, available) == Err(UtxoDoesNotExist)
    ensures ks[i] in s && (s[ks[i]] == 0 || ks[i] in ks[..i]) ==> SpendLoop(s, ks, available) == Err(UtxoAlreadySpent)
    decreases i
  {
    if i > 0 {
      var k, rest := ks[0], ks[1..];
      assert ks[..i][1..] == rest[..i - 1] && ks[..i] == [k] + rest[..i - 1];
      SpendsValidStep(s, ks[..i]);
      ValueFrame(s, k, rest[..i - 1]);
      ValueNonnegative(s, rest[..i - 1]);
      FirstBadSpendDecides(s[k := 0], rest, available + s[k], i - 1);
    }
  }

  /** The first create that cannot be made decides: its key is taken, also earlier in the list, or else
      its amount is not positive. */
  lemma {:induction false} FirstBadCreateDecides<K(!new)>(
    s: map<K, I128>, outs: seq<(K, I128)>, available: I128, i: nat)
    requires i < |outs| && forall k :: k in s ==> 0 <= s[k]
    requires CreatesValid(s, outs[..i]) && I128_MIN <= available - OutValue(outs[..i])
    ensures var taken := outs[i].0 in s || exists p :: p in outs[..i] && p.0 == outs[i].0;
      && (taken ==> CreateLoop(s, outs, available) == Err(UtxoAlreadyExists))
      && (!taken && outs[i].1 <= 0 ==> CreateLoop(s, outs, available) == Err(InvalidCreateAmount))
    decreases i
  {
    if i > 0 {
      var p, rest := outs[0], outs[1..];
      assert outs[..i][1..] == rest[..i - 1] && outs[..i] == [p] + rest[..i - 1];
      CreatesValidStep(s, outs[..i]);
      OutValuePositive(rest[..i - 1]);
      FirstBadCreateDecides(s[p.0 := p.1], rest, available - p.1, i - 1);
    }
  }

  /** Then the whole call: reentrance, preprocessing, repeated keys, authorization, and the two loops,
      each deciding before the next and before the asset is called. */
  lemma FirstFailedPhaseDecides(d: Deployment, w: World, op: Operation, tx: Tx, script: Script)
    ensures w.guard ==> Transact(d, w, op, tx, script) == Err(ReentrantCall)
    ensures !w.guard && Preprocess(op).Err? ==> Transact(d, w, op, tx, script) == Err(Preprocess(op).error)
    ensures !w.guard && Preprocess(op).Ok? ==>
      var r, accepted := Transact(d, w, op, tx, script),
        AuthAccepted(d.host, w.providers, tx.sigs, w.now, tx.payload, Contexts(d, op, tx));
      var bundle := Settle(w.store, SpendDigests(d, op), CreateDigests(d, op),
                           Preprocess(op).value.0, Preprocess(op).value.1);
      && (!NoDup(SpendKeys(op)) ==> r == Err(RepeatedSpendUtxo))
      && (NoDup(SpendKeys(op)) && !NoDup(CreateKeys(op)) ==> r == Err(RepeatedCreateUtxo))
      && (NoDup(SpendKeys(op)) && NoDup(CreateKeys(op)) && !accepted ==> r == Err(AuthRejected))
      && (NoDup(SpendKeys(op)) && NoDup(CreateKeys(op)) && accepted && bundle.Err? ==> r == Err(bundle.error))
  {
  }

  lemma {:induction false} HonestExecuteAppend(d: Deployment, w: World, tx: Tx, xs: seq<Move>, ys: seq<Move>)
    ensures var r := Execute(d, w, tx, xs, Honest);
      Execute(d, w, tx, xs + ys, Honest) == if r.Ok? then Execute(d, r.value, tx, ys, Honest) else r
    decreases |xs|
  {
    if xs == [] {
      assert xs + ys == ys;
    } else {
      assert (xs + ys)[1..] == xs[1..] + ys;
      var r := MakeMove(d, w, tx, xs[0], Honest);
      if r.Ok? {
        HonestExecuteAppend(d, r.value, tx, xs[1..], ys);
      }
    }
  }

  /** Over the token the first deposit that fails decides: no consent to the list or to the payment,
      too small a balance, no room in the channel's balance, or none in the supply. */
  lemma FirstBadDepositDecides(d: Deployment, w: World, tx: Tx, moves: seq<Move>, n: nat)
    requires Sound(w.token) && n < |moves| && moves[n].Pull? && 0 < moves[n].amount
    requires Execute(d, w, tx, moves[..n], Honest).Ok?
    ensures var r, m, w' := Execute(d, w, tx, moves, Honest), moves[n], Execute(d, w, tx, moves[..n], Honest).value;
      if m.from == d.self || (m.from, m.conditions) !in tx.consents || (m.from, m.amount) !in tx.payments then
        r == Err(AuthRejected)
      else if BalanceIn(w'.token.balances, m.from) < m.amount then r == Err(InsufficientBalance)
      else if I128_MAX < BalanceIn(w'.token.balances, d.self) + m.amount then r == Err(Trap)
      else I128_MAX < w'.supply + m.amount ==> r == Err(AmountOverflow)
  {
    assert moves == moves[..n] + moves[n..];
    HonestExecuteAppend(d, w, tx, moves[..n], moves[n..]);
    var m, w' := moves[n], Execute(d, w, tx, moves[..n], Honest).value;
    HonestKeepsSound(d, w, tx, moves[..n]);
    if m.from != d.self {
      TransferMoves(w'.token, m.from, d.self, m.amount);
      TokenRefusals(w'.token, d.self, m.from, d.self, m.amount, w'.now);
    }
  }

  lemma {:induction false} HonestKeepsSound(d: Deployment, w: World, tx: Tx, moves: seq<Move>)
    requires Sound(w.token) && Execute(d, w, tx, moves, Honest).Ok?
    ensures Sound(Execute(d, w, tx, moves, Honest).value.token)
    decreases |moves|
  {
    if moves != [] {
      var m, r := moves[0], MakeMove(d, w, tx, moves[0], Honest).value;
      var from, to := if m.Pull? then m.from else d.self, if m.Pull? then d.self else m.to;
      TransferMoves(w.token, from, to, m.amount);
      HonestKeepsSound(d, r, tx, moves[1..]);
    }
  }

  /** Before any token moves, every rejection names something that is wrong with the operation;
      an overflow is of the total deposited or withdrawn. */
  lemma RejectionHasCause(d: Deployment, w: World, op: Operation, tx: Tx)
    requires Books(w)
    ensures Preprocess(op).Err? ==> Cause(d, w, op, tx, Preprocess(op).error)
    ensures Preprocess(op).Ok? ==>
      var bundle := ProcessBundle(d, w, op, tx, Preprocess(op).value.0, Preprocess(op).value.1);
      bundle.Err? ==> Cause(d, w, op, tx, bundle.error)
  {
    if Preprocess(op).Err? {
      PreprocessCauses(d, w, op, tx);
    } else {
      PreprocessExact(op);
      var totals := Preprocess(op).value;
      if Settle(w.store, SpendDigests(d, op), CreateDigests(d, op), totals.0, totals.1).Err? {
        SettleCauses(w.store, SpendDigests(d, op), CreateDigests(d, op), totals.0, totals.1);
      }
    }
  }

  /** Withdrawing never trips the underflow guard of the supply. */
  lemma NeverUnderflows(supply: I128, op: Operation)
    requires AllPositive(op.deposit) && AllPositive(op.withdraw) && 0 <= supply
    requires 0 <= supply + Total(op.deposit) - Total(op.withdraw)
    ensures SupplyRun(supply, Moves(op)) != Err(AmountUnderflow)
  {
    SupplyRunAppend(supply, Pulls(op.deposit), Pushes(op.withdraw));
    SupplyRunExact(supply, op);
    PullsNeverUnderflow(supply, op.deposit);
    PullsRunExact(supply, op.deposit);
  }

  lemma {:induction false} PullsNeverUnderflow(supply: I128, es: seq<External>)
    requires AllPositive(es)
    ensures SupplyRun(supply, Pulls(es)) != Err(AmountUnderflow)
    decreases |es|
  {
    if es != [] {
      assert Pulls(es)[1..] == Pulls(es[1..]);
      assert es == [es[0]] + es[1..];
      if supply + es[0].amount <= I128_MAX {
        PullsNeverUnderflow(supply + es[0].amount, es[1..]);
      }
    }
  }

  lemma {:induction false} InertExecutes(d: Deployment, w: World, tx: Tx, moves: seq<Move>)
    requires AllConsent(d, tx, moves)
    ensures var r := Execute(d, w, tx, moves, Inert(w.token, |moves|));
      && (r.Err? <==> SupplyRun(w.supply, moves).Err?)
      && (r.Err? ==> SupplyRun(w.supply, moves) == Err(r.error))
      && (r.Err? ==> r.error == AmountOverflow || r.error == AmountUnderflow)
    decreases |moves|
  {
    if moves != [] {
      assert moves[0] in moves;
      assert forall m :: m in moves[1..] ==> m in moves;
      var supply := MoveSupply(w.supply, moves[0]);
      assert AssetTransfer(d, w, tx, moves[0], Inert(w.token, |moves|)) == Ok(w);
      if supply.Ok? {
        InertExecutes(d, w.(supply := supply.value), tx, moves[1..]);
      }
    }
  }

  /** Deposits that do not fit on top of the supply are reported as such, whatever else there is. */
  lemma SupplyOverflowIsReported(d: Deployment, w: World, op: Operation, tx: Tx)
    requires Books(w) && Admissible(d, w, op, tx) && Balanced(d, w, op)
    requires I128_MAX < w.supply + Total(op.deposit)
    requires Total(op.deposit) + SpentValue(d, w, op) <= I128_MAX
    ensures Transact(d, w, op, tx, Inert(w.token, |Moves(op)|)) == Err(AmountOverflow)
  {
    PreprocessExact(op);
    SpentWithinSupply(d, w, op);
    CreatedNonnegative(d, w, op);
    MapSumNonnegative(w.store);
    BundleExact(d, w, op, tx, Preprocess(op).value.0, Preprocess(op).value.1);
    var store := ProcessBundle(d, w, op, tx, Preprocess(op).value.0, Preprocess(op).value.1).value;
    ConsentMeans(d, op, tx);
    SupplyRunExact(w.supply, op);
    NeverUnderflows(w.supply, op);
    InertExecutes(d, w.(guard := true, store := store), tx, Moves(op));
  }
}
