/** The two loops of a bundle, on a store keyed by any type: spends first, then creates, with a
    running 128-bit balance that is compared with the outgoing amount only at the end. */
module Settlement {
  import opened Types
  import opened Sums
  import opened Primitives
  import opened Storage

  datatype Accum<K> = Accum(entries: map<K, I128>, available: I128)

  function SpendLoop<K(==)>(s: map<K, I128>, ks: seq<K>, available: I128): Result<Accum<K>>
  {
    if ks == [] then Ok(Accum(s, available))
    else
      var amount := BalanceOf(s, ks[0]);
      if amount == 0 then Err(UtxoAlreadySpent)
      else if amount < 0 then Err(UtxoDoesNotExist)
      else if available + amount > I128_MAX then Err(Trap)
      else SpendLoop(s[ks[0] := 0], ks[1..], available + amount)
  }

  function CreateLoop<K(==)>(s: map<K, I128>, outs: seq<(K, I128)>, available: I128): Result<Accum<K>>
    decreases |outs|
  {
    if outs == [] then Ok(Accum(s, available))
    else
      var (k, amount) := outs[0];
      if BalanceOf(s, k) != -1 then Err(UtxoAlreadyExists)
      else if amount <= 0 then Err(InvalidCreateAmount)
      else if k in s then Err(UtxoAlreadyExists)
      else if available - amount < I128_MIN then Err(Trap)
      else CreateLoop(s[k := amount], outs[1..], available - amount)
  }

  function Settle<K(==)>(s: map<K, I128>, spends: seq<K>, creates: seq<(K, I128)>, incoming: I128, outgoing: I128)
    : Result<map<K, I128>>
  {
    var spent :- SpendLoop(s, spends, incoming);
    var created :- CreateLoop(spent.entries, creates, spent.available);
    if created.available != outgoing then Err(UnbalancedBundle) else Ok(created.entries)
  }

  // ----- Conservation, for any keys and any hash -----

  lemma {:induction false} SpendLoopConserves<K>(s: map<K, I128>, ks: seq<K>, available: I128)
    requires SpendLoop(s, ks, available).Ok?
    ensures var r := SpendLoop(s, ks, available).value;
      MapSum(r.entries) + r.available == MapSum(s) + available
    ensures SpendLoop(s, ks, available).value.entries.Keys == s.Keys
  {
    if ks != [] {
      MapSumUpdate(s, ks[0], 0);
      SpendLoopConserves(s[ks[0] := 0], ks[1..], available + s[ks[0]]);
    }
  }

  lemma {:induction false} CreateLoopConserves<K>(s: map<K, I128>, outs: seq<(K, I128)>, available: I128)
    requires CreateLoop(s, outs, available).Ok?
    ensures var r := CreateLoop(s, outs, available).value;
      MapSum(r.entries) + r.available == MapSum(s) + available
    decreases |outs|
  {
    if outs != [] {
      MapSumUpdate(s, outs[0].0, outs[0].1);
      CreateLoopConserves(s[outs[0].0 := outs[0].1], outs[1..], available - outs[0].1);
    }
  }

  /** An accepted bundle changes the total value stored by what came in minus what went out. */
  lemma SettleConserves<K>(s: map<K, I128>, spends: seq<K>, creates: seq<(K, I128)>, incoming: I128, outgoing: I128)
    requires Settle(s, spends, creates, incoming, outgoing).Ok?
    ensures MapSum(Settle(s, spends, creates, incoming, outgoing).value) == MapSum(s) + incoming - outgoing
  {
    SpendLoopConserves(s, spends, incoming);
    var spent := SpendLoop(s, spends, incoming).value;
    CreateLoopConserves(spent.entries, creates, spent.available);
  }

  // ----- The loops against an atomic update -----

  function Value<K(==)>(s: map<K, I128>, ks: seq<K>): int
  {
    if ks == [] then 0 else (if ks[0] in s then s[ks[0]] else 0) + Value(s, ks[1..])
  }

  function OutValue<K>(outs: seq<(K, I128)>): int
  {
    if outs == [] then 0 else outs[0].1 + OutValue(outs[1..])
  }

  function OutKeys<K>(outs: seq<(K, I128)>): (ks: seq<K>)
    ensures |ks| == |outs|
  {
    seq(|outs|, i requires 0 <= i < |outs| => outs[i].0)
  }

  ghost predicate SpendsValid<K>(s: map<K, I128>, ks: seq<K>)
  {
    NoDup(ks) && forall k :: k in ks ==> k in s && 0 < s[k]
  }

  ghost predicate CreatesValid<K>(s: map<K, I128>, outs: seq<(K, I128)>)
  {
    NoDup(OutKeys(outs)) && forall p :: p in outs ==> p.0 !in s && 0 < p.1
  }

  /** `r` is `s` with every spent key at zero and every created key at its amount. */
  ghost predicate AtomicUpdate<K(!new)>(s: map<K, I128>, spends: seq<K>, creates: seq<(K, I128)>, r: map<K, I128>)
  {
    && (forall k :: k in r <==> k in s || exists p :: p in creates && p.0 == k)
    && (forall k :: k in spends ==> k in r && r[k] == 0)
    && (forall p :: p in creates ==> p.0 in r && r[p.0] == p.1)
    && (forall k :: k in s && k !in spends ==> k in r && r[k] == s[k])
  }

  function Zeroed<K>(s: map<K, I128>, ks: seq<K>): map<K, I128>
  {
    map k | k in s :: if k in ks then 0 else s[k]
  }

  lemma {:induction false} ValueFrame<K>(s: map<K, I128>, k: K, ks: seq<K>)
    requires k !in ks && k in s
    ensures Value(s[k := 0], ks) == Value(s, ks)
  {
    if ks != [] {
      assert ks == [ks[0]] + ks[1..];
      ValueFrame(s, k, ks[1..]);
    }
  }

  lemma {:induction false} ValueNonnegative<K>(s: map<K, I128>, ks: seq<K>)
    requires forall k :: k in ks ==> k in s && 0 < s[k]
    ensures 0 <= Value(s, ks)
  {
    if ks != [] {
      ValueNonnegative(s, ks[1..]);
    }
  }

  lemma SpendsValidStep<K>(s: map<K, I128>, ks: seq<K>)
    requires ks != []
    ensures SpendsValid(s, ks) <==> 0 < BalanceOf(s, ks[0]) && SpendsValid(s[ks[0] := 0], ks[1..])
    ensures SpendsValid(s, ks) ==> ks[0] !in ks[1..]
  {
    NoDupTail(ks);
    var k, rest, s' := ks[0], ks[1..], s[ks[0] := 0];
    assert ks == [k] + rest;
    if 0 < BalanceOf(s, k) && SpendsValid(s', rest) {
      assert k !in rest;
      assert forall j :: j in rest ==> j in s' && s'[j] == s[j];
    }
  }

  lemma {:induction false} SpendLoopExact<K>(s: map<K, I128>, ks: seq<K>, available: I128)
    requires 0 <= available
    ensures SpendLoop(s, ks, available).Ok? <==> SpendsValid(s, ks) && available + Value(s, ks) <= I128_MAX
    ensures SpendLoop(s, ks, available).Ok? ==>
      && SpendLoop(s, ks, available).value.entries == Zeroed(s, ks)
      && SpendLoop(s, ks, available).value.available == available + Value(s, ks)
  {
    if ks == [] {
      assert Zeroed(s, ks) == s;
    } else {
      SpendsValidStep(s, ks);
      var k, rest := ks[0], ks[1..];
      assert ks == [k] + rest;
      if 0 < BalanceOf(s, k) {
        if available + s[k] <= I128_MAX {
          SpendLoopExact(s[k := 0], rest, available + s[k]);
          assert k in s;
        }
        if SpendsValid(s, ks) {
          ValueFrame(s, k, rest);
          ValueNonnegative(s, rest);
          assert Zeroed(s[k := 0], rest) == Zeroed(s, ks);
        }
      }
    }
  }

  lemma CreatesValidStep<K>(s: map<K, I128>, outs: seq<(K, I128)>)
    requires outs != []
    ensures CreatesValid(s, outs) <==>
      outs[0].0 !in s && 0 < outs[0].1 && CreatesValid(s[outs[0].0 := outs[0].1], outs[1..])
  {
    var p, rest := outs[0], outs[1..];
    assert outs == [p] + rest;
    assert OutKeys(outs) == [p.0] + OutKeys(rest);
    NoDupTail(OutKeys(outs));
    FreshKey(rest, p.0);
  }

  lemma FreshKey<K>(outs: seq<(K, I128)>, k: K)
    ensures k !in OutKeys(outs) <==> forall p :: p in outs ==> p.0 != k
  {
    assert forall i :: 0 <= i < |outs| ==> OutKeys(outs)[i] == outs[i].0 && outs[i] in outs;
  }

  lemma {:induction false} OutValuePositive<K>(outs: seq<(K, I128)>)
    requires forall p :: p in outs ==> 0 < p.1
    ensures 0 <= OutValue(outs)
  {
    if outs != [] {
      OutValuePositive(outs[1..]);
    }
  }

  lemma {:induction false} CreateLoopExact<K(!new)>(s: map<K, I128>, outs: seq<(K, I128)>, available: I128)
    ensures CreateLoop(s, outs, available).Ok? <==>
      CreatesValid(s, outs) && available - OutValue(outs) >= I128_MIN
    ensures CreateLoop(s, outs, available).Ok? ==>
      var r := CreateLoop(s, outs, available).value;
      r.available == available - OutValue(outs) && AtomicUpdate(s, [], outs, r.entries)
    decreases |outs|
  {
    if outs != [] {
      CreatesValidStep(s, outs);
      var (k, a) := outs[0];
      assert outs == [outs[0]] + outs[1..];
      if k !in s && 0 < a && available - a >= I128_MIN {
        CreateLoopExact(s[k := a], outs[1..], available - a);
      }
      if CreatesValid(s, outs) {
        OutValuePositive(outs[1..]);
      }
    }
  }

  /** The two loops accept exactly the bundles an atomic update would accept: distinct unspent
      spends, distinct fresh positive creates, and an exact balance. No intermediate overflow of
      the running balance rejects anything else, except that the inputs must fit together. */
  lemma SettleExact<K(!new)>(s: map<K, I128>, spends: seq<K>, creates: seq<(K, I128)>, incoming: I128, outgoing: I128)
    requires 0 <= incoming
    ensures Settle(s, spends, creates, incoming, outgoing).Ok? <==>
      && SpendsValid(s, spends)
      && CreatesValid(s, creates)
      && incoming + Value(s, spends) <= I128_MAX
      && incoming + Value(s, spends) == OutValue(creates) + outgoing
    ensures Settle(s, spends, creates, incoming, outgoing).Ok? ==>
      && AtomicUpdate(s, spends, creates, Settle(s, spends, creates, incoming, outgoing).value)
      && forall p :: p in creates ==> p.0 !in spends
  {
    SpendLoopExact(s, spends, incoming);
    if SpendLoop(s, spends, incoming).Ok? {
      var spent := SpendLoop(s, spends, incoming).value;
      CreateLoopExact(spent.entries, creates, spent.available);
      assert CreatesValid(spent.entries, creates) <==> CreatesValid(s, creates);
    }
  }

  lemma AtomicUpdateUnique<K(!new)>(s: map<K, I128>, spends: seq<K>, creates: seq<(K, I128)>,
                                    spends': seq<K>, creates': seq<(K, I128)>, r: map<K, I128>, r': map<K, I128>)
    requires forall k :: k in spends <==> k in spends'
    requires forall p :: p in creates <==> p in creates'
    requires AtomicUpdate(s, spends, creates, r) && AtomicUpdate(s, spends', creates', r')
    ensures r == r'
  {
    forall k | k in r
      ensures k in r' && r[k] == r'[k]
    {
      if k !in s {
        var p :| p in creates && p.0 == k;
        assert p in creates';
      }
    }
    assert forall k :: k in r' ==> k in r;
  }

  /** Reordering the lists changes neither the verdict nor the store. */
  lemma SettleIsOrderFree<K(!new)>(s: map<K, I128>, spends: seq<K>, spends': seq<K>,
                                   creates: seq<(K, I128)>, creates': seq<(K, I128)>, incoming: I128, outgoing: I128)
    requires 0 <= incoming
    requires multiset(spends) == multiset(spends') && multiset(creates) == multiset(creates')
    requires Settle(s, spends, creates, incoming, outgoing).Ok?
    ensures Settle(s, spends', creates', incoming, outgoing) == Settle(s, spends, creates, incoming, outgoing)
  {
    SettleExact(s, spends, creates, incoming, outgoing);
    SettleExact(s, spends', creates', incoming, outgoing);
    SameMembers(spends, spends');
    SameMembers(creates, creates');
    NoDupIsMultiplicity(spends);
    NoDupIsMultiplicity(spends');
    assert SpendsValid(s, spends');
    CreatesValidOrderFree(s, creates, creates');
    ValueByEntries(s, spends);
    ValueByEntries(s, spends');
    assert Zeroed(s, spends) == Zeroed(s, spends');
    OutValueByEntries(s, creates);
    OutValueByEntries(s, creates');
    AtomicUpdateUnique(s, [], creates, [], creates', WithOutputs(s, creates), WithOutputs(s, creates'));
    AtomicUpdateUnique(s, spends, creates, spends', creates',
                       Settle(s, spends, creates, incoming, outgoing).value,
                       Settle(s, spends', creates', incoming, outgoing).value);
  }

  lemma SameMembers<T>(xs: seq<T>, ys: seq<T>)
    requires multiset(xs) == multiset(ys)
    ensures forall x :: x in xs <==> x in ys
  {
    forall x
      ensures x in xs <==> x in ys
    {
      assert x in xs <==> x in multiset(xs);
      assert x in ys <==> x in multiset(ys);
    }
  }

  lemma CreatesValidOrderFree<K>(s: map<K, I128>, outs: seq<(K, I128)>, outs': seq<(K, I128)>)
    requires multiset(outs) == multiset(outs')
    requires CreatesValid(s, outs)
    ensures CreatesValid(s, outs')
  {
    SameMembers(outs, outs');
    assert NoDup(outs) by {
      assert forall i :: 0 <= i < |outs| ==> OutKeys(outs)[i] == outs[i].0;
    }
    NoDupIsMultiplicity(outs);
    NoDupIsMultiplicity(outs');
    forall i, j | 0 <= i < j < |outs'|
      ensures OutKeys(outs')[i] != OutKeys(outs')[j]
    {
      assert outs'[i] in outs' && outs'[j] in outs';
      var i' :| 0 <= i' < |outs| && outs[i'] == outs'[i];
      var j' :| 0 <= j' < |outs| && outs[j'] == outs'[j];
      assert i' != j';
      assert OutKeys(outs)[i'] != OutKeys(outs)[j'];
    }
  }

  /** The value of valid spends is what zeroing them takes out of the store. */
  lemma {:induction false} ValueByEntries<K>(s: map<K, I128>, ks: seq<K>)
    requires SpendsValid(s, ks)
    ensures Value(s, ks) == MapSum(s) - MapSum(Zeroed(s, ks))
  {
    if ks == [] {
      assert Zeroed(s, ks) == s;
    } else {
      SpendsValidStep(s, ks);
      var k, rest := ks[0], ks[1..];
      assert ks == [k] + rest;
      ValueByEntries(s[k := 0], rest);
      ValueFrame(s, k, rest);
      MapSumUpdate(s, k, 0);
      assert Zeroed(s[k := 0], rest) == Zeroed(s, ks);
    }
  }

  function WithOutputs<K(==)>(s: map<K, I128>, outs: seq<(K, I128)>): map<K, I128>
    decreases |outs|
  {
    if outs == [] then s else WithOutputs(s[outs[0].0 := outs[0].1], outs[1..])
  }

  /** The value of valid creates is what adding them puts into the store. */
  lemma {:induction false} OutValueByEntries<K(!new)>(s: map<K, I128>, outs: seq<(K, I128)>)
    requires CreatesValid(s, outs)
    ensures OutValue(outs) == MapSum(WithOutputs(s, outs)) - MapSum(s)
    ensures AtomicUpdate(s, [], outs, WithOutputs(s, outs))
    decreases |outs|
  {
    if outs != [] {
      CreatesValidStep(s, outs);
      assert outs == [outs[0]] + outs[1..];
      MapSumUpdate(s, outs[0].0, outs[0].1);
      OutValueByEntries(s[outs[0].0 := outs[0].1], outs[1..]);
    }
  }
}
