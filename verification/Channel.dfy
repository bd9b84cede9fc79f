/** What `transact` computes, as a function of the ledger state: preprocessing, the bundle, and
    the external transfers, during which the asset contract may call back. */
module Channel {
  import opened Types
  import opened Primitives
  import opened Settlement
  import opened ChannelAuth
  import opened Token

  /** Everything on the ledger that a call can depend on or change. */
  datatype World = World(
    store: map<Digest, I128>,
    supply: I128,
    guard: bool,
    token: Ledger,
    providers: set<Address>,
    log: seq<RegistryEvent>,
    now: nat)

  datatype Deployment = Deployment(host: Host, self: Address)

  /** What the submitter attaches: signatures and authorized contexts for the auth contract, the
      condition lists depositors authorized, and the token transfers they authorized. */
  datatype Tx = Tx(
    payload: Digest,
    sigs: Signatures,
    before: seq<Context>,
    after: seq<Context>,
    consents: set<(Address, seq<Condition>)>,
    payments: set<(Address, I128)>)

  /** How the asset contract behaves in the external calls of one `transact`, call by call: first
      it attempts nested `transact` calls, each failure passed on or swallowed, then it answers. */
  datatype Script = Honest | Calls(attempts: Attempts, verdict: Verdict, rest: Script)
  datatype Attempts = NoAttempts | Attempt(op: Operation, tx: Tx, script: Script, propagate: bool, others: Attempts)
  datatype Verdict = Follow | Answer(after: Ledger) | Revert

  datatype Move = Pull(from: Address, amount: I128, conditions: seq<Condition>) | Push(to: Address, amount: I128)

  // ----- Preprocessing -----

  function SumExternals(es: seq<External>, total: I128): Result<I128>
  {
    if es == [] then Ok(total)
    else if es[0].amount <= 0 then Err(InvalidExternalAmount)
    else if total + es[0].amount > I128_MAX then Err(AmountOverflow)
    else SumExternals(es[1..], total + es[0].amount)
  }

  function Addresses(es: seq<External>): (r: seq<Address>)
    ensures |r| == |es|
  {
    seq(|es|, i requires 0 <= i < |es| => es[i].addr)
  }

  /** An account on both sides must carry the same condition list on both. */
  ghost predicate SameConditionsOnBothSides(op: Operation)
  {
    forall d, w :: d in op.deposit && w in op.withdraw && d.addr == w.addr ==> d.conditions == w.conditions
  }

  ghost function VerifyExternals(op: Operation): Result<Unit>
  {
    if !NoDup(Addresses(op.deposit)) then Err(RepeatedAccountForDeposit)
    else if !NoDup(Addresses(op.withdraw)) then Err(RepeatedAccountForWithdraw)
    else if !SameConditionsOnBothSides(op) then Err(ConflictingConditionsForAccount)
    else Ok(Unit)
  }

  predicate ExecutionBound(c: Condition)
  {
    c.Create? || c.ExtWithdraw?
  }

  function ListedEffects(op: Operation): set<Condition>
  {
    set c | c in SpendConditions(op.spend) + ExternalConditions(op.deposit) && ExecutionBound(c)
  }

  function ExecutedList(op: Operation): (cs: seq<Condition>)
    ensures |cs| == |op.create| + |op.withdraw|
  {
    seq(|op.create|, i requires 0 <= i < |op.create| => Create(op.create[i].utxo, op.create[i].amount)) +
    seq(|op.withdraw|, i requires 0 <= i < |op.withdraw| => ExtWithdraw(op.withdraw[i].addr, op.withdraw[i].amount))
  }

  function ExecutedEffects(op: Operation): set<Condition>
  {
    set c | c in ExecutedList(op)
  }

  ghost function Preprocess(op: Operation): Result<(I128, I128)>
  {
    if !PairwiseCompatible(AllConditions(op)) then Err(BundleHasConflictingConditions)
    else
      var deposited :- SumExternals(op.deposit, 0);
      var withdrawn :- SumExternals(op.withdraw, 0);
      var _ :- VerifyExternals(op);
      if !(ListedEffects(op) <= ExecutedEffects(op)) then Err(UnauthorizedOperation)
      else Ok((deposited, withdrawn))
  }

  // ----- Bundle -----

  /** `Map.set` overwrites: only later is it checked that no key occurs twice. */
  function AddRequirements(req: AuthRequirements, es: seq<SpendEntry>): AuthRequirements
    decreases |es|
  {
    if es == [] then req else AddRequirements(req[P256(es[0].utxo) := es[0].conditions], es[1..])
  }

  function AuthArgs(op: Operation): seq<Arg>
  {
    var req := AddRequirements(map[], op.spend);
    if req == map[] then [] else [Requirements(req)]
  }

  function Contexts(d: Deployment, op: Operation, tx: Tx): seq<Context>
  {
    tx.before + [ContractCall(d.self, AuthArgs(op))] + tx.after
  }

  function SpendKeys(op: Operation): (r: seq<Utxo>)
    ensures |r| == |op.spend|
  {
    seq(|op.spend|, i requires 0 <= i < |op.spend| => op.spend[i].utxo)
  }

  function CreateKeys(op: Operation): (r: seq<Utxo>)
    ensures |r| == |op.create|
  {
    seq(|op.create|, i requires 0 <= i < |op.create| => op.create[i].utxo)
  }

  function SpendDigests(d: Deployment, op: Operation): (r: seq<Digest>)
    ensures |r| == |op.spend|
  {
    seq(|op.spend|, i requires 0 <= i < |op.spend| => d.host.sha256(op.spend[i].utxo.bytes))
  }

  function CreateDigests(d: Deployment, op: Operation): (r: seq<(Digest, I128)>)
    ensures |r| == |op.create|
  {
    seq(|op.create|, i requires 0 <= i < |op.create| => (d.host.sha256(op.create[i].utxo.bytes), op.create[i].amount))
  }

  ghost function ProcessBundle(d: Deployment, w: World, op: Operation, tx: Tx, incoming: I128, outgoing: I128)
    : Result<map<Digest, I128>>
  {
    if !NoDup(SpendKeys(op)) then Err(RepeatedSpendUtxo)
    else if !NoDup(CreateKeys(op)) then Err(RepeatedCreateUtxo)
    else if !AuthAccepted(d.host, w.providers, tx.sigs, w.now, tx.payload, Contexts(d, op, tx)) then Err(AuthRejected)
    else Settle(w.store, SpendDigests(d, op), CreateDigests(d, op), incoming, outgoing)
  }

  // ----- External transfers -----

  function Pulls(es: seq<External>): (r: seq<Move>)
    ensures |r| == |es|
  {
    if es == [] then [] else [Pull(es[0].addr, es[0].amount, es[0].conditions)] + Pulls(es[1..])
  }

  function Pushes(es: seq<External>): (r: seq<Move>)
    ensures |r| == |es|
  {
    if es == [] then [] else [Push(es[0].addr, es[0].amount)] + Pushes(es[1..])
  }

  function Moves(op: Operation): seq<Move>
  {
    Pulls(op.deposit) + Pushes(op.withdraw)
  }

  /** The depositor authorized this condition list. The channel has no `__check_auth`, so it never
      authorizes itself as a depositor. */
  predicate Consents(d: Deployment, tx: Tx, m: Move)
  {
    m.Pull? ==> m.from != d.self && (m.from, m.conditions) in tx.consents
  }

  /** The transfer as the token contract performs it; the channel authorizes its own pushes. */
  function TokenTransfer(d: Deployment, t: Ledger, tx: Tx, m: Move): Result<Ledger>
  {
    match m
    case Pull(from, amount, _) =>
      IfAuthorized((from, amount) in tx.payments, TransferSpec(t, from, d.self, amount))
    case Push(to, amount) => TransferSpec(t, d.self, to, amount)
  }

  function MoveSupply(supply: I128, m: Move): Result<I128>
  {
    match m
    case Pull(_, amount, _) =>
      if I128_MIN <= supply + amount <= I128_MAX then Ok(supply + amount) else Err(AmountOverflow)
    case Push(_, amount) =>
      if I128_MIN <= supply - amount <= I128_MAX then Ok(supply - amount) else Err(AmountUnderflow)
  }

  function Next(script: Script): Script
  {
    if script.Honest? then Honest else script.rest
  }

  ghost function Transact(d: Deployment, w: World, op: Operation, tx: Tx, script: Script): Result<World>
    decreases script, 2, 0
  {
    if w.guard then Err(ReentrantCall)
    else
      var totals :- Preprocess(op);
      var store :- ProcessBundle(d, w, op, tx, totals.0, totals.1);
      var w' :- Execute(d, w.(guard := true, store := store), tx, Moves(op), script);
      Ok(w'.(guard := false))
  }

  ghost function Execute(d: Deployment, w: World, tx: Tx, moves: seq<Move>, script: Script): Result<World>
    decreases script, 1, |moves|
  {
    if moves == [] then Ok(w)
    else
      var w' :- MakeMove(d, w, tx, moves[0], script);
      Execute(d, w', tx, moves[1..], Next(script))
  }

  ghost function MakeMove(d: Deployment, w: World, tx: Tx, m: Move, script: Script): Result<World>
    decreases script, 0, 1
  {
    if !Consents(d, tx, m) then Err(AuthRejected)
    else
      var w' :- AssetTransfer(d, w, tx, m, script);
      var supply :- MoveSupply(w'.supply, m);
      Ok(w'.(supply := supply))
  }

  ghost function AssetTransfer(d: Deployment, w: World, tx: Tx, m: Move, script: Script): Result<World>
    decreases script, 0, 0
  {
    match script
    case Honest =>
      var t :- TokenTransfer(d, w.token, tx, m);
      Ok(w.(token := t))
    case Calls(attempts, verdict, _) =>
      var w' :- RunAttempts(d, w, attempts);
      match verdict
      case Follow =>
        var t :- TokenTransfer(d, w'.token, tx, m);
        Ok(w'.(token := t))
      case Answer(after) => Ok(w'.(token := after))
      case Revert => Err(AssetReverted)
  }

  /** A failed nested call leaves no trace; the asset passes its failure on or carries on. */
  ghost function RunAttempts(d: Deployment, w: World, attempts: Attempts): Result<World>
    decreases attempts, 0, 0
  {
    match attempts
    case NoAttempts => Ok(w)
    case Attempt(op, tx, script, propagate, others) =>
      match Transact(d, w, op, tx, script)
      case Ok(w') => RunAttempts(d, w', others)
      case Err(e) => if propagate then Err(e) else RunAttempts(d, w, others)
  }
}
