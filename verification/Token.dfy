/** The asset: balances and expiring allowances, step by step as the contract performs them. */
module Token {
  import opened Types
  import opened Sums

  datatype Allowance = Allowance(amount: I128, expiration: U32)
  datatype Ledger = Ledger(balances: map<Address, I128>, allowances: map<(Address, Address), Allowance>)

  function BalanceIn(balances: map<Address, I128>, a: Address): I128
  {
    if a in balances then balances[a] else 0
  }

  /** An expired allowance reads as zero, and so does one never given. */
  function AllowanceIn(t: Ledger, from: Address, spender: Address, now: nat): Allowance
  {
    if (from, spender) !in t.allowances then Allowance(0, 0)
    else
      var a := t.allowances[(from, spender)];
      if a.expiration < now then a.(amount := 0) else a
  }

  function Receive(t: Ledger, a: Address, amount: I128): Result<Ledger>
  {
    var sum := BalanceIn(t.balances, a) + amount;
    if I128_MIN <= sum <= I128_MAX then Ok(t.(balances := t.balances[a := sum])) else Err(Trap)
  }

  function Spend(t: Ledger, a: Address, amount: I128): Result<Ledger>
  {
    var rest := BalanceIn(t.balances, a) - amount;
    if rest < 0 then Err(InsufficientBalance)
    else if rest > I128_MAX then Err(Trap)
    else Ok(t.(balances := t.balances[a := rest]))
  }

  function WriteAllowance(t: Ledger, from: Address, spender: Address, a: Allowance, now: nat): Result<Ledger>
  {
    if 0 < a.amount && a.expiration < now then Err(BadExpiration)
    else Ok(t.(allowances := t.allowances[(from, spender) := a]))
  }

  function SpendAllowance(t: Ledger, from: Address, spender: Address, amount: I128, now: nat): Result<Ledger>
  {
    var a := AllowanceIn(t, from, spender, now);
    if a.amount < amount then Err(InsufficientAllowance)
    else if 0 < amount then
      if a.amount - amount < I128_MIN then Err(Trap)
      else WriteAllowance(t, from, spender, a.(amount := a.amount - amount), now)
    else Ok(t)
  }

  /** `byAdmin` says whether the administrator's authorization is present. */
  function AuthorizedMintSpec(t: Ledger, to: Address, amount: I128, byAdmin: bool): Result<Ledger>
  {
    if amount < 0 then Err(NegativeAmount)
    else if !byAdmin then Err(AuthRejected)
    else MintSpec(t, to, amount)
  }

  function MintSpec(t: Ledger, to: Address, amount: I128): Result<Ledger>
  {
    if amount < 0 then Err(NegativeAmount) else Receive(t, to, amount)
  }

  function ApproveSpec(t: Ledger, from: Address, spender: Address, a: Allowance, now: nat): Result<Ledger>
  {
    if a.amount < 0 then Err(NegativeAmount) else WriteAllowance(t, from, spender, a, now)
  }

  function TransferSpec(t: Ledger, from: Address, to: Address, amount: I128): Result<Ledger>
  {
    if amount < 0 then Err(NegativeAmount)
    else
      var t1 :- Spend(t, from, amount);
      Receive(t1, to, amount)
  }

  function TransferFromSpec(t: Ledger, spender: Address, from: Address, to: Address, amount: I128, now: nat)
    : Result<Ledger>
  {
    if amount < 0 then Err(NegativeAmount)
    else
      var t1 :- SpendAllowance(t, from, spender, amount, now);
      var t2 :- Spend(t1, from, amount);
      Receive(t2, to, amount)
  }

  function BurnSpec(t: Ledger, from: Address, amount: I128): Result<Ledger>
  {
    if amount < 0 then Err(NegativeAmount) else Spend(t, from, amount)
  }

  function BurnFromSpec(t: Ledger, spender: Address, from: Address, amount: I128, now: nat): Result<Ledger>
  {
    if amount < 0 then Err(NegativeAmount)
    else
      var t1 :- SpendAllowance(t, from, spender, amount, now);
      Spend(t1, from, amount)
  }

  /** `require_auth` comes first: the outcome counts only with the actor's authorization. */
  function IfAuthorized(authorized: bool, r: Result<Ledger>): Result<Ledger>
  {
    if authorized then r else Err(AuthRejected)
  }

  // ----- What the steps mean for the holders -----

  ghost predicate Sound(t: Ledger)
  {
    && (forall a :: a in t.balances ==> 0 <= t.balances[a])
    && (forall k :: k in t.allowances ==> 0 <= t.allowances[k].amount)
  }

  /** A transfer moves exactly the amount and touches nobody else; it is refused only for a
      negative amount, too small a balance, or a recipient that would overflow. */
  lemma TransferMoves(t: Ledger, from: Address, to: Address, amount: I128)
    requires Sound(t)
    ensures TransferSpec(t, from, to, amount).Ok? <==>
      && 0 <= amount <= BalanceIn(t.balances, from)
      && (from != to ==> BalanceIn(t.balances, to) + amount <= I128_MAX)
    ensures TransferSpec(t, from, to, amount).Ok? ==>
      var t' := TransferSpec(t, from, to, amount).value;
      && Sound(t') && t'.allowances == t.allowances
      && (forall a :: BalanceIn(t'.balances, a) == BalanceIn(t.balances, a)
           - (if a == from then amount else 0) + (if a == to then amount else 0))
  {
  }

  /** A transfer keeps the amount in circulation. */
  lemma TransferKeepsTotal(t: Ledger, from: Address, to: Address, amount: I128)
    requires TransferSpec(t, from, to, amount).Ok?
    ensures MapSum(TransferSpec(t, from, to, amount).value.balances) == MapSum(t.balances)
  {
    var t1 := Spend(t, from, amount).value;
    MapSumUpdate(t.balances, from, BalanceIn(t.balances, from) - amount);
    MapSumUpdate(t1.balances, to, BalanceIn(t1.balances, to) + amount);
  }

  /** Spending for someone else needs a live allowance that covers the amount and uses it up by
      exactly that amount. */
  lemma SpendAllowanceUses(t: Ledger, from: Address, spender: Address, amount: I128, now: nat)
    requires Sound(t) && 0 <= amount
    ensures SpendAllowance(t, from, spender, amount, now).Ok? <==> amount <= AllowanceIn(t, from, spender, now).amount
    ensures SpendAllowance(t, from, spender, amount, now).Ok? ==>
      var t' := SpendAllowance(t, from, spender, amount, now).value;
      && Sound(t') && t'.balances == t.balances
      && AllowanceIn(t', from, spender, now).amount == AllowanceIn(t, from, spender, now).amount - amount
      && (forall f, s :: (f, s) != (from, spender) ==> AllowanceIn(t', f, s, now) == AllowanceIn(t, f, s, now))
  {
  }

  /** A delegated transfer is accepted exactly when the allowance and the balance cover it and the
      recipient does not overflow; it moves the amount and uses up the allowance. */
  lemma DelegatedTransferMoves(t: Ledger, spender: Address, from: Address, to: Address, amount: I128, now: nat)
    requires Sound(t)
    ensures TransferFromSpec(t, spender, from, to, amount, now).Ok? <==>
      && 0 <= amount <= BalanceIn(t.balances, from)
      && amount <= AllowanceIn(t, from, spender, now).amount
      && (from != to ==> BalanceIn(t.balances, to) + amount <= I128_MAX)
    ensures TransferFromSpec(t, spender, from, to, amount, now).Ok? ==>
      var t' := TransferFromSpec(t, spender, from, to, amount, now).value;
      && AllowanceIn(t', from, spender, now).amount == AllowanceIn(t, from, spender, now).amount - amount
      && (forall a :: BalanceIn(t'.balances, a) == BalanceIn(t.balances, a)
           - (if a == from then amount else 0) + (if a == to then amount else 0))
  {
    if 0 <= amount {
      SpendAllowanceUses(t, from, spender, amount, now);
      var used := SpendAllowance(t, from, spender, amount, now);
      if used.Ok? {
        TransferMoves(used.value, from, to, amount);
      }
    }
  }

  /** An approval replaces the allowance of that pair, until it expires, and of no other pair; a
      positive one that has expired already is refused. */
  lemma ApprovalGrants(t: Ledger, from: Address, spender: Address, a: Allowance, now: nat, later: nat)
    requires now <= later
    ensures ApproveSpec(t, from, spender, a, now).Ok? <==> 0 == a.amount || (0 < a.amount && now <= a.expiration)
    ensures ApproveSpec(t, from, spender, a, now).Ok? ==>
      var t' := ApproveSpec(t, from, spender, a, now).value;
      && t'.balances == t.balances
      && AllowanceIn(t', from, spender, later).amount == (if later <= a.expiration then a.amount else 0)
      && (forall f, s :: (f, s) != (from, spender) ==> AllowanceIn(t', f, s, later) == AllowanceIn(t, f, s, later))
  {
  }

  /** Burning takes the amount from the holder and out of circulation; minting puts it in. */
  lemma MintAndBurnChangeTheTotal(t: Ledger, a: Address, amount: I128)
    requires Sound(t)
    ensures MintSpec(t, a, amount).Ok? <==> 0 <= amount && BalanceIn(t.balances, a) + amount <= I128_MAX
    ensures MintSpec(t, a, amount).Ok? ==>
      var t' := MintSpec(t, a, amount).value;
      && MapSum(t'.balances) == MapSum(t.balances) + amount
      && BalanceIn(t'.balances, a) == BalanceIn(t.balances, a) + amount
    ensures BurnSpec(t, a, amount).Ok? <==> 0 <= amount <= BalanceIn(t.balances, a)
    ensures BurnSpec(t, a, amount).Ok? ==>
      var t' := BurnSpec(t, a, amount).value;
      && MapSum(t'.balances) == MapSum(t.balances) - amount
      && BalanceIn(t'.balances, a) == BalanceIn(t.balances, a) - amount
  {
    if MintSpec(t, a, amount).Ok? {
      MapSumUpdate(t.balances, a, BalanceIn(t.balances, a) + amount);
    }
    if BurnSpec(t, a, amount).Ok? {
      MapSumUpdate(t.balances, a, BalanceIn(t.balances, a) - amount);
    }
  }

  /** A delegated burn is accepted exactly when the allowance and the balance cover it; it takes the
      amount from the holder, out of circulation and off the allowance, and from nobody else. */
  lemma DelegatedBurnTakes(t: Ledger, spender: Address, from: Address, amount: I128, now: nat)
    requires Sound(t)
    ensures BurnFromSpec(t, spender, from, amount, now).Ok? <==>
      && 0 <= amount <= BalanceIn(t.balances, from)
      && amount <= AllowanceIn(t, from, spender, now).amount
    ensures BurnFromSpec(t, spender, from, amount, now).Ok? ==>
      var t' := BurnFromSpec(t, spender, from, amount, now).value;
      && AllowanceIn(t', from, spender, now).amount == AllowanceIn(t, from, spender, now).amount - amount
      && (forall f, s :: (f, s) != (from, spender) ==> AllowanceIn(t', f, s, now) == AllowanceIn(t, f, s, now))
      && (forall a :: BalanceIn(t'.balances, a) == BalanceIn(t.balances, a) - if a == from then amount else 0)
      && MapSum(t'.balances) == MapSum(t.balances) - amount
  {
    if 0 <= amount {
      SpendAllowanceUses(t, from, spender, amount, now);
      var used := SpendAllowance(t, from, spender, amount, now);
      if used.Ok? {
        MintAndBurnChangeTheTotal(used.value, from, amount);
      }
    }
  }

  /** Only the administrator mints, and mints exactly the amount to exactly the recipient. */
  lemma OnlyTheAdministratorMints(t: Ledger, to: Address, amount: I128, byAdmin: bool)
    requires Sound(t)
    ensures AuthorizedMintSpec(t, to, amount, byAdmin).Ok? <==>
      byAdmin && 0 <= amount && BalanceIn(t.balances, to) + amount <= I128_MAX
    ensures AuthorizedMintSpec(t, to, amount, byAdmin).Ok? ==>
      var t' := AuthorizedMintSpec(t, to, amount, byAdmin).value;
      && t'.allowances == t.allowances
      && (forall a :: BalanceIn(t'.balances, a) == BalanceIn(t.balances, a) + if a == to then amount else 0)
      && MapSum(t'.balances) == MapSum(t.balances) + amount
  {
    MintAndBurnChangeTheTotal(t, to, amount);
  }

  /** Why the token refuses: the first of the sign, the allowance and the balance that fails, else a
      recipient that would overflow. */
  lemma TokenRefusals(t: Ledger, spender: Address, from: Address, to: Address, amount: I128, now: nat)
    requires Sound(t)
    ensures TransferSpec(t, from, to, amount).Err? ==>
      TransferSpec(t, from, to, amount).error ==
        if amount < 0 then NegativeAmount
        else if BalanceIn(t.balances, from) < amount then InsufficientBalance
        else Trap
    ensures TransferFromSpec(t, spender, from, to, amount, now).Err? ==>
      TransferFromSpec(t, spender, from, to, amount, now).error ==
        if amount < 0 then NegativeAmount
        else if AllowanceIn(t, from, spender, now).amount < amount then InsufficientAllowance
        else if BalanceIn(t.balances, from) < amount then InsufficientBalance
        else Trap
    ensures BurnFromSpec(t, spender, from, amount, now).Err? ==>
      BurnFromSpec(t, spender, from, amount, now).error ==
        if amount < 0 then NegativeAmount
        else if AllowanceIn(t, from, spender, now).amount < amount then InsufficientAllowance
        else InsufficientBalance
  {
    if 0 <= amount {
      SpendAllowanceUses(t, from, spender, amount, now);
    }
  }

  // ----- The contract -----

  class AssetContract {
    var balances: map<Address, I128>
    var allowances: map<(Address, Address), Allowance>

    constructor ()
      ensures balances == map[] && allowances == map[]
    {
      balances, allowances := map[], map[];
    }

    function State(): Ledger
      reads this
    {
      Ledger(balances, allowances)
    }

    method ReceiveBalance(a: Address, amount: I128) returns (r: Result<Unit>)
      modifies this
      ensures r.Ok? ==> Receive(old(State()), a, amount) == Ok(State())
      ensures r.Err? ==> Receive(old(State()), a, amount) == Err(r.error)
    {
      var sum := BalanceIn(balances, a) + amount;
      if sum < I128_MIN || sum > I128_MAX {
        return Err(Trap);
      }
      balances := balances[a := sum];
      return Ok(Unit);
    }

    method SpendBalance(a: Address, amount: I128) returns (r: Result<Unit>)
      modifies this
      ensures r.Ok? ==> Spend(old(State()), a, amount) == Ok(State())
      ensures r.Err? ==> Spend(old(State()), a, amount) == Err(r.error)
    {
      var balance := BalanceIn(balances, a);
      if balance < amount {
        return Err(InsufficientBalance);
      }
      if balance - amount > I128_MAX {
        return Err(Trap);
      }
      balances := balances[a := balance - amount];
      return Ok(Unit);
    }

    method SetAllowance(from: Address, spender: Address, a: Allowance, now: nat) returns (r: Result<Unit>)
      modifies this
      ensures r.Ok? ==> WriteAllowance(old(State()), from, spender, a, now) == Ok(State())
      ensures r.Err? ==> WriteAllowance(old(State()), from, spender, a, now) == Err(r.error)
    {
      if 0 < a.amount && a.expiration < now {
        return Err(BadExpiration);
      }
      allowances := allowances[(from, spender) := a];
      return Ok(Unit);
    }

    method UseAllowance(from: Address, spender: Address, amount: I128, now: nat) returns (r: Result<Unit>)
      modifies this
      ensures r.Ok? ==> SpendAllowance(old(State()), from, spender, amount, now) == Ok(State())
      ensures r.Err? ==> SpendAllowance(old(State()), from, spender, amount, now) == Err(r.error)
    {
      var a := AllowanceIn(State(), from, spender, now);
      if a.amount < amount {
        return Err(InsufficientAllowance);
      }
      if 0 < amount {
        if a.amount - amount < I128_MIN {
          return Err(Trap);
        }
        r := SetAllowance(from, spender, a.(amount := a.amount - amount), now);
      } else {
        r := Ok(Unit);
      }
    }

    /** Put back the state before a failed call: the host discards its writes. */
    method Rollback(saved: Ledger)
      modifies this
      ensures State() == saved
    {
      balances, allowances := saved.balances, saved.allowances;
    }

    method Mint(to: Address, amount: I128, byAdmin: bool) returns (r: Result<Unit>)
      modifies this
      ensures r.Ok? ==> byAdmin && 0 <= amount
      ensures AuthorizedMintSpec(old(State()), to, amount, byAdmin) == (if r.Ok? then Ok(State()) else Err(r.error))
      ensures r.Err? ==> State() == old(State())
    {
      if amount < 0 {
        return Err(NegativeAmount);
      }
      if !byAdmin {
        return Err(AuthRejected);
      }
      var saved := State();
      r := ReceiveBalance(to, amount);
      if r.Err? {
        Rollback(saved);
      }
    }

    method Approve(from: Address, spender: Address, a: Allowance, now: nat, authorized: bool)
      returns (r: Result<Unit>)
      modifies this
      ensures !authorized ==> r == Err(AuthRejected)
      ensures IfAuthorized(authorized, ApproveSpec(old(State()), from, spender, a, now))
        == if r.Ok? then Ok(State()) else Err(r.error)
      ensures r.Err? ==> State() == old(State())
    {
      if !authorized {
        return Err(AuthRejected);
      }
      if a.amount < 0 {
        return Err(NegativeAmount);
      }
      var saved := State();
      r := SetAllowance(from, spender, a, now);
      if r.Err? {
        Rollback(saved);
      }
    }

    method Transfer(from: Address, to: Address, amount: I128, authorized: bool)
      returns (r: Result<Unit>)
      modifies this
      ensures !authorized ==> r == Err(AuthRejected)
      ensures IfAuthorized(authorized, TransferSpec(old(State()), from, to, amount))
        == if r.Ok? then Ok(State()) else Err(r.error)
      ensures r.Err? ==> State() == old(State())
    {
      if !authorized {
        return Err(AuthRejected);
      }
      if amount < 0 {
        return Err(NegativeAmount);
      }
      var saved := State();
      r := SpendBalance(from, amount);
      if r.Ok? {
        r := ReceiveBalance(to, amount);
      }
      if r.Err? {
        Rollback(saved);
      }
    }

    method TransferFrom(spender: Address, from: Address, to: Address, amount: I128, now: nat, authorized: bool)
      returns (r: Result<Unit>)
      modifies this
      ensures !authorized ==> r == Err(AuthRejected)
      ensures IfAuthorized(authorized, TransferFromSpec(old(State()), spender, from, to, amount, now))
        == if r.Ok? then Ok(State()) else Err(r.error)
      ensures r.Err? ==> State() == old(State())
    {
      if !authorized {
        return Err(AuthRejected);
      }
      if amount < 0 {
        return Err(NegativeAmount);
      }
      var saved := State();
      r := UseAllowance(from, spender, amount, now);
      if r.Ok? {
        r := SpendBalance(from, amount);
      }
      if r.Ok? {
        r := ReceiveBalance(to, amount);
      }
      if r.Err? {
        Rollback(saved);
      }
    }

    method Burn(from: Address, amount: I128, authorized: bool)
      returns (r: Result<Unit>)
      modifies this
      ensures !authorized ==> r == Err(AuthRejected)
      ensures IfAuthorized(authorized, BurnSpec(old(State()), from, amount))
        == if r.Ok? then Ok(State()) else Err(r.error)
      ensures r.Err? ==> State() == old(State())
    {
      if !authorized {
        return Err(AuthRejected);
      }
      if amount < 0 {
        return Err(NegativeAmount);
      }
      var saved := State();
      r := SpendBalance(from, amount);
      if r.Err? {
        Rollback(saved);
      }
    }

    method BurnFrom(spender: Address, from: Address, amount: I128, now: nat, authorized: bool)
      returns (r: Result<Unit>)
      modifies this
      ensures !authorized ==> r == Err(AuthRejected)
      ensures IfAuthorized(authorized, BurnFromSpec(old(State()), spender, from, amount, now))
        == if r.Ok? then Ok(State()) else Err(r.error)
      ensures r.Err? ==> State() == old(State())
    {
      if !authorized {
        return Err(AuthRejected);
      }
      if amount < 0 {
        return Err(NegativeAmount);
      }
      var saved := State();
      r := UseAllowance(from, spender, amount, now);
      if r.Ok? {
        r := SpendBalance(from, amount);
      }
      if r.Err? {
        Rollback(saved);
      }
    }
  }
}
