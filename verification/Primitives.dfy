/** Conditions: when two conflict, the scan that looks for a conflict, and list uniqueness. */
module Primitives {
  import opened Types

  // ----- Uniqueness -----

  ghost predicate NoDup<T>(xs: seq<T>)
  {
    forall i, j :: 0 <= i < j < |xs| ==> xs[i] != xs[j]
  }

  /** The scan behind `no_duplicate_keys` and `no_duplicate_addresses`. */
  method NoDuplicates<T(==)>(xs: seq<T>) returns (ok: bool)
    ensures ok <==> NoDup(xs)
  {
    var seen: set<T> := {};
    for i := 0 to |xs|
      invariant NoDup(xs[..i])
      invariant forall x :: x in seen <==> x in xs[..i]
    {
      if xs[i] in seen {
        var j :| 0 <= j < i && xs[..i][j] == xs[i];
        return false;
      }
      seen := seen + {xs[i]};
      assert xs[..i + 1] == xs[..i] + [xs[i]];
    }
    assert xs[..|xs|] == xs;
    return true;
  }

  /** A tail of a list without repetitions has none, and its head does not recur. */
  lemma NoDupTail<T>(xs: seq<T>)
    requires xs != []
    ensures NoDup(xs) <==> NoDup(xs[1..]) && xs[0] !in xs[1..]
  {
    if NoDup(xs[1..]) && xs[0] !in xs[1..] {
      forall i, j | 0 <= i < j < |xs|
        ensures xs[i] != xs[j]
      {
        assert xs[j] == xs[1..][j - 1];
        assert i > 0 ==> xs[i] == xs[1..][i - 1];
      }
    }
    if NoDup(xs) {
      forall i, j | 0 <= i < j < |xs[1..]|
        ensures xs[1..][i] != xs[1..][j]
      {
        assert xs[i + 1] != xs[j + 1];
      }
      assert forall j :: 0 <= j < |xs[1..]| ==> xs[1..][j] == xs[j + 1] && xs[0] != xs[j + 1];
    }
  }

  /** Uniqueness does not depend on the order of the list. */
  lemma {:induction false} NoDupIsMultiplicity<T>(xs: seq<T>)
    ensures NoDup(xs) <==> forall x :: multiset(xs)[x] <= 1
  {
    if xs != [] {
      NoDupTail(xs);
      NoDupIsMultiplicity(xs[1..]);
      assert xs == [xs[0]] + xs[1..];
      assert multiset(xs) == multiset{xs[0]} + multiset(xs[1..]);
      if forall x :: multiset(xs)[x] <= 1 {
        assert multiset(xs)[xs[0]] <= 1;
        forall x
          ensures multiset(xs[1..])[x] <= 1
        {
          assert multiset(xs)[x] <= 1;
        }
      }
    }
  }

  // ----- Conflicts -----

  predicate ConflictsWith(a: Condition, b: Condition)
  {
    match (a, b)
    case (Create(u1, x1), Create(u2, x2)) => u1 == u2 && x1 != x2
    case (ExtDeposit(a1, x1), ExtDeposit(a2, x2)) => a1 == a2 && x1 != x2
    case (ExtWithdraw(a1, x1), ExtWithdraw(a2, x2)) => a1 == a2 && x1 != x2
    case (ExtIntegration(d1, us1, x1), ExtIntegration(d2, us2, x2)) =>
      if d1 != d2 then
        exists u :: u in us1 && u in us2
      else if x1 != x2 || |us1| != |us2| then
        true
      else
        || (exists u :: u in us1 && u !in us2)
        || (exists u :: u in us2 && u !in us1)
    case _ => false
  }

  /** Conflict is symmetric and never relates a condition to itself, kinds do not mix, deposits
      conflict over one account's amount, and integrations are compatible exactly when the same
      adapter asks for the same thing or different adapters share no key. */
  lemma ConflictMeaning(a: Condition, b: Condition)
    ensures ConflictsWith(a, b) <==> ConflictsWith(b, a)
    ensures !ConflictsWith(a, a)
    ensures ConflictsWith(a, b) ==>
      && (a.Create? <==> b.Create?)
      && (a.ExtDeposit? <==> b.ExtDeposit?)
      && (a.ExtWithdraw? <==> b.ExtWithdraw?)
    ensures a.ExtDeposit? && b.ExtDeposit? && !ConflictsWith(a, b) && a.addr == b.addr ==> a == b
    ensures a.ExtDeposit? && b.ExtDeposit? && a.addr != b.addr ==> !ConflictsWith(a, b)
    ensures a.ExtIntegration? && b.ExtIntegration? ==>
      (!ConflictsWith(a, b) <==>
        if a.adapter == b.adapter then
          && a.amount == b.amount
          && |a.utxos| == |b.utxos|
          && (set u | u in a.utxos) == (set u | u in b.utxos)
        else
          (set u | u in a.utxos) !! (set u | u in b.utxos))
  {
    if a.ExtIntegration? && b.ExtIntegration? {
      var sa, sb := set u | u in a.utxos, set u | u in b.utxos;
      assert forall u :: u in sa <==> u in a.utxos;
      assert forall u :: u in sb <==> u in b.utxos;
      assert forall u :: u in sa * sb <==> u in a.utxos && u in b.utxos;
      if u :| u in a.utxos && u in b.utxos {
        assert u in sa * sb;
      }
    }
  }

  predicate CompatibleWithAll(c: Condition, cs: seq<Condition>)
  {
    forall i :: 0 <= i < |cs| ==> !ConflictsWith(cs[i], c)
  }

  predicate PairwiseCompatible(cs: seq<Condition>)
  {
    forall i, j :: 0 <= i < j < |cs| ==> !ConflictsWith(cs[i], cs[j])
  }

  function SpendConditions(es: seq<SpendEntry>): (cs: seq<Condition>)
    ensures forall c :: c in cs <==> exists e :: e in es && c in e.conditions
  {
    if es == [] then []
    else
      assert es == [es[0]] + es[1..];
      es[0].conditions + SpendConditions(es[1..])
  }

  function ExternalConditions(es: seq<External>): (cs: seq<Condition>)
    ensures forall c :: c in cs <==> exists e :: e in es && c in e.conditions
  {
    if es == [] then []
    else
      assert es == [es[0]] + es[1..];
      es[0].conditions + ExternalConditions(es[1..])
  }

  function AllConditions(op: Operation): seq<Condition>
  {
    SpendConditions(op.spend) + ExternalConditions(op.deposit) + ExternalConditions(op.withdraw)
  }

  /** The condition stands in the list of some spend, deposit or withdrawal. */
  ghost predicate Listed(op: Operation, c: Condition)
  {
    || (exists e :: e in op.spend && c in e.conditions)
    || (exists e :: e in op.deposit && c in e.conditions)
    || (exists e :: e in op.withdraw && c in e.conditions)
  }

  /** Being free of conflicts is a property of the set of conditions. */
  lemma CompatibilityIsOrderFree(cs: seq<Condition>)
    ensures PairwiseCompatible(cs) <==> forall a, b :: a in cs && b in cs ==> !ConflictsWith(a, b)
  {
    if PairwiseCompatible(cs) {
      forall a, b | a in cs && b in cs
        ensures !ConflictsWith(a, b)
      {
        ConflictMeaning(a, b);
        var i :| 0 <= i < |cs| && cs[i] == a;
        var j :| 0 <= j < |cs| && cs[j] == b;
        if i < j {
          assert !ConflictsWith(cs[i], cs[j]);
        } else if j < i {
          assert !ConflictsWith(cs[j], cs[i]);
        }
      }
    }
  }

  /** Scanning the concatenated lists looks at every condition of the operation and no other. */
  lemma ScanFindsConflicts(op: Operation)
    ensures forall c :: c in AllConditions(op) <==> Listed(op, c)
    ensures PairwiseCompatible(AllConditions(op)) <==>
      forall a, b :: Listed(op, a) && Listed(op, b) ==> !ConflictsWith(a, b)
  {
    CompatibilityIsOrderFree(AllConditions(op));
  }

  /** `op_has_no_conflicting_conditions`: the incremental scan accepts iff no two conditions listed
      anywhere in the operation conflict. */
  method OpHasNoConflictingConditions(op: Operation) returns (ok: bool)
    ensures ok <==> PairwiseCompatible(AllConditions(op))
    ensures ok <==> forall a, b :: Listed(op, a) && Listed(op, b) ==> !ConflictsWith(a, b)
  {
    var verified: seq<Condition> := [];
    var toCheck := AllConditions(op);
    for i := 0 to |toCheck|
      invariant verified == toCheck[..i]
      invariant PairwiseCompatible(toCheck[..i])
    {
      if !CompatibleWithAll(toCheck[i], verified) {
        var j :| 0 <= j < i && ConflictsWith(toCheck[..i][j], toCheck[i]);
        assert ConflictsWith(toCheck[j], toCheck[i]);
        ScanFindsConflicts(op);
        return false;
      }
      verified := verified + [toCheck[i]];
      assert toCheck[..i + 1] == toCheck[..i] + [toCheck[i]];
    }
    assert toCheck[..|toCheck|] == toCheck;
    ScanFindsConflicts(op);
    return true;
  }

  /** The scan's answer is the same for any rearrangement of an operation's lists and of the
      conditions inside them. */
  lemma ScanIsOrderFree(op: Operation, op': Operation)
    requires forall c :: Listed(op, c) <==> Listed(op', c)
    ensures PairwiseCompatible(AllConditions(op)) <==> PairwiseCompatible(AllConditions(op'))
  {
    ScanFindsConflicts(op);
    ScanFindsConflicts(op');
  }

  /** Permuting the spends, deposits and withdrawals is such a rearrangement. */
  lemma PermutedOperationScansAlike(op: Operation, op': Operation)
    requires multiset(op.spend) == multiset(op'.spend)
    requires multiset(op.deposit) == multiset(op'.deposit)
    requires multiset(op.withdraw) == multiset(op'.withdraw)
    ensures PairwiseCompatible(AllConditions(op)) <==> PairwiseCompatible(AllConditions(op'))
  {
    forall e: SpendEntry
      ensures e in op.spend <==> e in op'.spend
    {
      assert e in op.spend <==> e in multiset(op.spend);
      assert e in op'.spend <==> e in multiset(op'.spend);
    }
    forall e: External
      ensures e in op.deposit <==> e in op'.deposit
      ensures e in op.withdraw <==> e in op'.withdraw
    {
      assert e in op.deposit <==> e in multiset(op.deposit);
      assert e in op'.deposit <==> e in multiset(op'.deposit);
      assert e in op.withdraw <==> e in multiset(op.withdraw);
      assert e in op'.withdraw <==> e in multiset(op'.withdraw);
    }
    ScanIsOrderFree(op, op');
  }
}
