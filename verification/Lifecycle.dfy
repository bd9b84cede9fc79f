/** The history of every UTXO over whole runs, and where all the value went. */
module Lifecycle {
  import opened Types
  import opened Sums
  import opened Storage
  import opened Settlement
  import opened Channel
  import opened Accounting
  import opened Runs

  datatype Event =
    | Created(key: Digest, amount: I128)
    | Spent(key: Digest, amount: I128)
    | Deposited(account: Address, amount: I128)
    | Withdrawn(account: Address, amount: I128)

  /** A run together with what the accepted bundles did, in order. */
  datatype Trace = Trace(world: World, history: seq<Event>)

  function SpendEvents(s: map<Digest, I128>, ks: seq<Digest>): seq<Event>
    decreases |ks|
  {
    if ks == [] then [] else [Spent(ks[0], BalanceOf(s, ks[0]))] + SpendEvents(s[ks[0] := 0], ks[1..])
  }

  function CreateEvents(outs: seq<(Digest, I128)>): seq<Event>
  {
    if outs == [] then [] else [Created(outs[0].0, outs[0].1)] + CreateEvents(outs[1..])
  }

  function MoveEvent(m: Move): Event
  {
    match m
    case Pull(from, amount, _) => Deposited(from, amount)
    case Push(to, amount) => Withdrawn(to, amount)
  }

  function MoveEvents(moves: seq<Move>): seq<Event>
  {
    if moves == [] then [] else [MoveEvent(moves[0])] + MoveEvents(moves[1..])
  }

  function BundleEvents(d: Deployment, w: World, op: Operation): seq<Event>
  {
    SpendEvents(w.store, SpendDigests(d, op)) + CreateEvents(CreateDigests(d, op)) + MoveEvents(Moves(op))
  }

  ghost function Advance(d: Deployment, t: Trace, c: Call): Trace
  {
    Trace(Step(d, t.world, c),
          if c.Bundle? && Try(d, t.world, c).Ok? then t.history + BundleEvents(d, t.world, c.op) else t.history)
  }

  ghost function Record(d: Deployment, w: World, calls: seq<Call>): Trace
  {
    if calls == [] then Trace(w, []) else Advance(d, Record(d, w, calls[..|calls| - 1]), calls[|calls| - 1])
  }

  // ----- One UTXO -----

  function Story(h: seq<Event>, k: Digest): seq<Event>
  {
    if h == [] then []
    else
      var rest, last := Story(h[..|h| - 1], k), h[|h| - 1];
      if (last.Created? || last.Spent?) && last.key == k then rest + [last] else rest
  }

  /** An absent key has no story; an unspent one was created once, for what it holds; a spent one
      was created once and then spent once, for the amount it was created with. */
  ghost predicate StoryFits(story: seq<Event>, k: Digest, s: map<Digest, I128>)
  {
    if k !in s then story == []
    else if s[k] != 0 then 0 < s[k] && story == [Created(k, s[k])]
    else
      && |story| == 2 && story[0].Created? && 0 < story[0].amount
      && story == [Created(k, story[0].amount), Spent(k, story[0].amount)]
  }

  ghost predicate StoriesFit(h: seq<Event>, s: map<Digest, I128>)
  {
    forall k :: StoryFits(Story(h, k), k, s)
  }

  lemma StoryPush(h: seq<Event>, e: Event, k: Digest)
    ensures Story(h + [e], k) == if (e.Created? || e.Spent?) && e.key == k then Story(h, k) + [e] else Story(h, k)
  {
    assert (h + [e])[..|h|] == h;
  }

  lemma SpendFits(h: seq<Event>, s: map<Digest, I128>, k: Digest)
    requires StoriesFit(h, s) && k in s && 0 < s[k]
    ensures StoriesFit(h + [Spent(k, s[k])], s[k := 0])
  {
    var h' := h + [Spent(k, s[k])];
    forall j
      ensures StoryFits(Story(h', j), j, s[k := 0])
    {
      StoryPush(h, Spent(k, s[k]), j);
      assert StoryFits(Story(h, j), j, s);
    }
  }

  lemma CreateFits(h: seq<Event>, s: map<Digest, I128>, k: Digest, amount: I128)
    requires StoriesFit(h, s) && k !in s && 0 < amount
    ensures StoriesFit(h + [Created(k, amount)], s[k := amount])
  {
    var h' := h + [Created(k, amount)];
    forall j
      ensures StoryFits(Story(h', j), j, s[k := amount])
    {
      StoryPush(h, Created(k, amount), j);
      assert StoryFits(Story(h, j), j, s);
    }
  }

  lemma MoveFits(h: seq<Event>, s: map<Digest, I128>, e: Event)
    requires StoriesFit(h, s) && (e.Deposited? || e.Withdrawn?)
    ensures StoriesFit(h + [e], s)
  {
    forall j
      ensures StoryFits(Story(h + [e], j), j, s)
    {
      StoryPush(h, e, j);
      assert StoryFits(Story(h, j), j, s);
    }
  }

  lemma PushFront(h: seq<Event>, e: Event, rest: seq<Event>)
    ensures h + ([e] + rest) == h + [e] + rest
    ensures h + [] == h
  {
  }

  lemma {:induction false} SpendsFit(h: seq<Event>, s: map<Digest, I128>, ks: seq<Digest>, available: I128)
    requires StoriesFit(h, s) && SpendLoop(s, ks, available).Ok?
    ensures StoriesFit(h + SpendEvents(s, ks), SpendLoop(s, ks, available).value.entries)
    decreases |ks|
  {
    if ks == [] {
      assert h + SpendEvents(s, ks) == h;
    } else {
      SpendFits(h, s, ks[0]);
      SpendsFit(h + [Spent(ks[0], s[ks[0]])], s[ks[0] := 0], ks[1..], available + s[ks[0]]);
      PushFront(h, Spent(ks[0], s[ks[0]]), SpendEvents(s[ks[0] := 0], ks[1..]));
    }
  }

  lemma {:induction false} CreatesFit(h: seq<Event>, s: map<Digest, I128>, outs: seq<(Digest, I128)>, available: I128)
    requires StoriesFit(h, s) && CreateLoop(s, outs, available).Ok?
    ensures StoriesFit(h + CreateEvents(outs), CreateLoop(s, outs, available).value.entries)
    decreases |outs|
  {
    if outs == [] {
      assert h + CreateEvents(outs) == h;
    } else {
      var (k, a) := outs[0];
      CreateFits(h, s, k, a);
      CreatesFit(h + [Created(k, a)], s[k := a], outs[1..], available - a);
      PushFront(h, Created(k, a), CreateEvents(outs[1..]));
    }
  }

  lemma {:induction false} MovesFit(h: seq<Event>, s: map<Digest, I128>, moves: seq<Move>)
    requires StoriesFit(h, s)
    ensures StoriesFit(h + MoveEvents(moves), s)
    decreases |moves|
  {
    if moves == [] {
      assert h + MoveEvents(moves) == h;
    } else {
      var e := MoveEvent(moves[0]);
      MoveFits(h, s, e);
      MovesFit(h + [e], s, moves[1..]);
      PushFront(h, e, MoveEvents(moves[1..]));
    }
  }

  // ----- All value -----

  datatype Flow = Creating | Spending | Depositing | Withdrawing

  function FlowOf(e: Event): Flow
  {
    match e
    case Created(_, _) => Creating
    case Spent(_, _) => Spending
    case Deposited(_, _) => Depositing
    case Withdrawn(_, _) => Withdrawing
  }

  function Tally(f: Flow, h: seq<Event>): int
  {
    if h == [] then 0 else (if FlowOf(h[0]) == f then h[0].amount else 0) + Tally(f, h[1..])
  }

  lemma {:induction false} TallyAppend(f: Flow, g: seq<Event>, h: seq<Event>)
    ensures Tally(f, g + h) == Tally(f, g) + Tally(f, h)
  {
    if g == [] {
      assert g + h == h;
    } else {
      TallyAppend(f, g[1..], h);
      assert (g + h)[1..] == g[1..] + h;
    }
  }

  lemma {:induction false} TallySpends(f: Flow, s: map<Digest, I128>, ks: seq<Digest>)
    requires SpendsValid(s, ks)
    ensures Tally(f, SpendEvents(s, ks)) == if f == Spending then Value(s, ks) else 0
    decreases |ks|
  {
    if ks != [] {
      SpendsValidStep(s, ks);
      ValueFrame(s, ks[0], ks[1..]);
      TallySpends(f, s[ks[0] := 0], ks[1..]);
      assert SpendEvents(s, ks)[1..] == SpendEvents(s[ks[0] := 0], ks[1..]);
    }
  }

  lemma {:induction false} TallyCreates(f: Flow, outs: seq<(Digest, I128)>)
    ensures Tally(f, CreateEvents(outs)) == if f == Creating then OutValue(outs) else 0
    decreases |outs|
  {
    if outs != [] {
      TallyCreates(f, outs[1..]);
      assert CreateEvents(outs)[1..] == CreateEvents(outs[1..]);
    }
  }

  lemma {:induction false} TallyMoves(moves: seq<Move>)
    ensures Tally(Depositing, MoveEvents(moves)) - Tally(Withdrawing, MoveEvents(moves)) == Net(moves)
    ensures Tally(Creating, MoveEvents(moves)) == Tally(Spending, MoveEvents(moves)) == 0
  {
    if moves != [] {
      TallyMoves(moves[1..]);
      assert MoveEvents(moves)[1..] == MoveEvents(moves[1..]);
    }
  }

  lemma TallyOfBundle(f: Flow, d: Deployment, w: World, op: Operation)
    requires SpendsValid(w.store, SpendDigests(d, op))
    ensures Tally(f, BundleEvents(d, w, op)) ==
      (if f == Spending then SpentValue(d, w, op) else 0)
      + (if f == Creating then CreatedValue(d, op) else 0)
      + Tally(f, MoveEvents(Moves(op)))
  {
    var a, b, c := SpendEvents(w.store, SpendDigests(d, op)), CreateEvents(CreateDigests(d, op)), MoveEvents(Moves(op));
    TallyAppend(f, a, b);
    TallyAppend(f, a + b, c);
    TallySpends(f, w.store, SpendDigests(d, op));
    TallyCreates(f, CreateDigests(d, op));
  }

  lemma BundleTally(d: Deployment, w: World, op: Operation)
    requires SpendsValid(w.store, SpendDigests(d, op))
    ensures var h := BundleEvents(d, w, op);
      && Tally(Creating, h) == CreatedValue(d, op)
      && Tally(Spending, h) == SpentValue(d, w, op)
      && Tally(Depositing, h) - Tally(Withdrawing, h) == Total(op.deposit) - Total(op.withdraw)
  {
    TallyOfBundle(Creating, d, w, op);
    TallyOfBundle(Spending, d, w, op);
    TallyOfBundle(Depositing, d, w, op);
    TallyOfBundle(Withdrawing, d, w, op);
    TallyMoves(Moves(op));
    NetAppend(Pulls(op.deposit), Pushes(op.withdraw));
    NetOfPulls(op.deposit);
    NetOfPushes(op.withdraw);
  }

  /** The history explains the store key by key, and the books in total. */
  ghost predicate Explained(t: Trace)
  {
    && Books(t.world)
    && StoriesFit(t.history, t.world.store)
    && Tally(Creating, t.history) == Tally(Spending, t.history) + MapSum(t.world.store)
    && Tally(Depositing, t.history) - Tally(Withdrawing, t.history) == t.world.supply
  }

  lemma SettledStoriesFit(h: seq<Event>, s: map<Digest, I128>, spends: seq<Digest>, creates: seq<(Digest, I128)>,
                          incoming: I128, outgoing: I128)
    requires StoriesFit(h, s) && Settle(s, spends, creates, incoming, outgoing).Ok?
    ensures StoriesFit(h + SpendEvents(s, spends) + CreateEvents(creates),
                       Settle(s, spends, creates, incoming, outgoing).value)
  {
    SpendsFit(h, s, spends, incoming);
    var spent := SpendLoop(s, spends, incoming).value;
    CreatesFit(h + SpendEvents(s, spends), spent.entries, creates, spent.available);
  }

  lemma BundleStoriesFit(d: Deployment, w: World, h: seq<Event>, op: Operation, incoming: I128, outgoing: I128)
    requires StoriesFit(h, w.store)
    requires Settle(w.store, SpendDigests(d, op), CreateDigests(d, op), incoming, outgoing).Ok?
    ensures StoriesFit(h + BundleEvents(d, w, op),
                       Settle(w.store, SpendDigests(d, op), CreateDigests(d, op), incoming, outgoing).value)
  {
    var spends, creates := SpendDigests(d, op), CreateDigests(d, op);
    SettledStoriesFit(h, w.store, spends, creates, incoming, outgoing);
    var settled := h + SpendEvents(w.store, spends) + CreateEvents(creates);
    MovesFit(settled, Settle(w.store, spends, creates, incoming, outgoing).value, Moves(op));
    Regroup(h, SpendEvents(w.store, spends), CreateEvents(creates), MoveEvents(Moves(op)));
  }

  lemma Regroup(a: seq<Event>, b: seq<Event>, c: seq<Event>, d: seq<Event>)
    ensures a + (b + c + d) == a + b + c + d
  {
  }

  lemma AdvanceKeepsExplained(d: Deployment, t: Trace, c: Call)
    requires Explained(t)
    ensures Explained(Advance(d, t, c))
  {
    if c.Bundle? {
      TransactExact(d, t.world, c.op, c.tx, c.script);
      if Try(d, t.world, c).Ok? {
        AcceptedStore(d, t.world, c.op, c.tx, c.script);
        BundleStoriesFit(d, t.world, t.history, c.op, Preprocess(c.op).value.0, Preprocess(c.op).value.1);
        BundleTally(d, t.world, c.op);
        TallyAppend(Creating, t.history, BundleEvents(d, t.world, c.op));
        TallyAppend(Spending, t.history, BundleEvents(d, t.world, c.op));
        TallyAppend(Depositing, t.history, BundleEvents(d, t.world, c.op));
        TallyAppend(Withdrawing, t.history, BundleEvents(d, t.world, c.op));
      }
    }
  }

  /** Over every run each key goes absent, unspent, spent, at most once each and for one amount;
      all value ever created was spent or is unspent; deposits less withdrawals are the supply. */
  lemma {:induction false} EveryRunIsExplained(d: Deployment, w: World, calls: seq<Call>)
    requires Deployed(d, w)
    ensures Explained(Record(d, w, calls))
    ensures Record(d, w, calls).world == Run(d, w, calls)
  {
    if calls == [] {
      DeployedBooks(d, w);
    } else {
      EveryRunIsExplained(d, w, calls[..|calls| - 1]);
      AdvanceKeepsExplained(d, Record(d, w, calls[..|calls| - 1]), calls[|calls| - 1]);
    }
  }
}
