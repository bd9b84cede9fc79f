/** The byte string a UTXO owner signs, and how much of the condition list it determines. */
module Payload {
  import opened Types

  // ----- Little-endian integers -----

  function Pow256(w: nat): nat
  {
    if w == 0 then 1 else 256 * Pow256(w - 1)
  }

  lemma Pow256Values()
    ensures Pow256(4) == 0x1_0000_0000
    ensures Pow256(16) == 0x1_0000_0000_0000_0000_0000_0000_0000_0000
  {
    assert Pow256(4) == 0x1_0000_0000;
    assert Pow256(8) == 0x1_0000_0000_0000_0000;
    assert Pow256(12) == 0x1_0000_0000_0000_0000_0000_0000;
  }

  function Le(n: nat, width: nat): (b: seq<byte>)
    ensures |b| == width
  {
    if width == 0 then [] else [(n % 256) as byte] + Le(n / 256, width - 1)
  }

  function FromLe(b: seq<byte>): nat
  {
    if b == [] then 0 else b[0] as int + 256 * FromLe(b[1..])
  }

  lemma {:induction false} LeRoundTrip(n: nat, width: nat)
    requires n < Pow256(width)
    ensures FromLe(Le(n, width)) == n
  {
    if width > 0 {
      LeRoundTrip(n / 256, width - 1);
      assert Le(n, width)[1..] == Le(n / 256, width - 1);
    }
  }

  /** Two's complement in sixteen bytes, least significant first. */
  function I128ToLe(x: I128): (b: seq<byte>)
    ensures |b| == 16
  {
    Le(if x < 0 then x + 0x1_0000_0000_0000_0000_0000_0000_0000_0000 else x, 16)
  }

  function I128FromLe(b: seq<byte>): int
  {
    var n := FromLe(b);
    if n <= I128_MAX then n else n - 0x1_0000_0000_0000_0000_0000_0000_0000_0000
  }

  lemma I128RoundTrip(x: I128)
    ensures I128FromLe(I128ToLe(x)) == x
  {
    Pow256Values();
    LeRoundTrip(if x < 0 then x + 0x1_0000_0000_0000_0000_0000_0000_0000_0000 else x, 16);
  }

  // ----- The preimage -----

  datatype Kind = Creates | Deposits | Withdraws | Integrations

  function KindOf(c: Condition): Kind
  {
    match c
    case Create(_, _) => Creates
    case ExtDeposit(_, _) => Deposits
    case ExtWithdraw(_, _) => Withdraws
    case ExtIntegration(_, _, _) => Integrations
  }

  function KeyBytes(us: seq<Utxo>): seq<byte>
  {
    if us == [] then [] else KeyBytes(us[..|us| - 1]) + us[|us| - 1].bytes
  }

  function Block(c: Condition): seq<byte>
  {
    match c
    case Create(u, x) => u.bytes + I128ToLe(x)
    case ExtDeposit(a, x) => a.strkey + I128ToLe(x)
    case ExtWithdraw(a, x) => a.strkey + I128ToLe(x)
    case ExtIntegration(a, us, x) => a.strkey + KeyBytes(us) + I128ToLe(x)
  }

  function Concat(bs: seq<seq<byte>>): seq<byte>
  {
    if bs == [] then [] else bs[0] + Concat(bs[1..])
  }

  function Encoded(cs: seq<Condition>): (bs: seq<seq<byte>>)
    ensures |bs| == |cs|
  {
    seq(|cs|, i requires 0 <= i < |cs| => Block(cs[i]))
  }

  function Only(k: Kind, cs: seq<Condition>): (r: seq<Condition>)
    ensures forall c :: c in r ==> c in cs && KindOf(c) == k
  {
    if cs == [] then []
    else
      var rest, last := Only(k, cs[..|cs| - 1]), cs[|cs| - 1];
      if KindOf(last) == k then rest + [last] else rest
  }

  function Section(k: Kind, cs: seq<Condition>): seq<byte>
  {
    Concat(Encoded(Only(k, cs)))
  }

  function Preimage(cs: seq<Condition>, live: U32, contract: seq<byte>): seq<byte>
  {
    contract + Section(Creates, cs) + Section(Deposits, cs) + Section(Withdraws, cs)
    + Section(Integrations, cs) + Le(live, 4)
  }

  /** `hash_payload`: one pass that distributes the conditions over four buffers. */
  method HashPayload(sha256: seq<byte> -> Digest, cs: seq<Condition>, live: U32, contract: seq<byte>)
    returns (digest: Digest)
    ensures digest == sha256(Preimage(cs, live, contract))
  {
    var bCreate: seq<byte>, bDeposit: seq<byte>, bWithdraw: seq<byte>, bIntegrate: seq<byte> := [], [], [], [];
    for i := 0 to |cs|
      invariant bCreate == Section(Creates, cs[..i]) && bDeposit == Section(Deposits, cs[..i])
      invariant bWithdraw == Section(Withdraws, cs[..i]) && bIntegrate == Section(Integrations, cs[..i])
    {
      assert cs[..i + 1] == cs[..i] + [cs[i]];
      SectionPush(Creates, cs[..i], cs[i]);
      SectionPush(Deposits, cs[..i], cs[i]);
      SectionPush(Withdraws, cs[..i], cs[i]);
      SectionPush(Integrations, cs[..i], cs[i]);
      match cs[i] {
        case Create(u, x) =>
          bCreate := bCreate + (u.bytes + I128ToLe(x));
        case ExtDeposit(a, x) =>
          bDeposit := bDeposit + (a.strkey + I128ToLe(x));
        case ExtWithdraw(a, x) =>
          bWithdraw := bWithdraw + (a.strkey + I128ToLe(x));
        case ExtIntegration(a, us, x) =>
          var keys := AppendKeys(a.strkey, us);
          bIntegrate := bIntegrate + (keys + I128ToLe(x));
      }
    }
    assert cs[..|cs|] == cs;
    return sha256(contract + bCreate + bDeposit + bWithdraw + bIntegrate + Le(live, 4));
  }

  method AppendKeys(prefix: seq<byte>, us: seq<Utxo>) returns (b: seq<byte>)
    ensures b == prefix + KeyBytes(us)
  {
    b := prefix;
    for j := 0 to |us|
      invariant b == prefix + KeyBytes(us[..j])
    {
      assert us[..j + 1][..j] == us[..j];
      b := b + us[j].bytes;
    }
    assert us[..|us|] == us;
  }

  lemma SectionPush(k: Kind, cs: seq<Condition>, c: Condition)
    ensures Section(k, cs + [c]) == Section(k, cs) + if KindOf(c) == k then Block(c) else []
  {
    assert (cs + [c])[..|cs|] == cs;
    if KindOf(c) == k {
      assert Encoded(Only(k, cs) + [c]) == Encoded(Only(k, cs)) + [Block(c)];
      ConcatAppend(Encoded(Only(k, cs)), [Block(c)]);
      assert Concat([Block(c)]) == Block(c);
    }
  }

  lemma {:induction false} ConcatAppend(xs: seq<seq<byte>>, ys: seq<seq<byte>>)
    ensures Concat(xs + ys) == Concat(xs) + Concat(ys)
  {
    if xs == [] {
      assert xs + ys == ys;
    } else {
      ConcatAppend(xs[1..], ys);
      assert (xs + ys)[1..] == xs[1..] + ys;
      Assoc(xs[0], Concat(xs[1..]), Concat(ys));
    }
  }

  lemma Assoc(a: seq<byte>, b: seq<byte>, c: seq<byte>)
    ensures a + (b + c) == a + b + c
  {
  }

  // ----- Byte positions -----

  /** Byte `i` is the `i`-th digit to base 256. */
  lemma {:induction false} LeDigit(n: nat, width: nat, i: nat)
    requires i < width
    ensures 0 < Pow256(i)
    ensures Le(n, width)[i] as int == n / Pow256(i) % 256
  {
    if i > 0 {
      LeDigit(n / 256, width - 1, i - 1);
      DivideTwice(n, Pow256(i - 1));
    }
  }

  lemma DivideTwice(n: nat, p: nat)
    requires 0 < p
    ensures n / 256 / p == n / (256 * p)
  {
    var q, r := n / 256 / p, n / 256 % p;
    assert n == 256 * (p * q + r) + n % 256;
    assert n == (256 * p) * q + (256 * r + n % 256);
    assert 256 * r + n % 256 < 256 * p;
    QuotientIs(n, 256 * p, q, 256 * r + n % 256);
  }

  lemma QuotientIs(n: int, p: int, q: int, r: int)
    requires 0 <= r < p && n == p * q + r
    ensures n / p == q
  {
    assert p * (n / p - q) == r - n % p;
    SmallMultiple(p, n / p - q);
  }

  lemma SmallMultiple(p: int, k: int)
    requires -p < p * k < p
    ensures k == 0
  {
    if k > 0 {
      AtLeast(p, k);
    } else if k < 0 {
      AtLeast(p, -k);
    }
  }

  lemma AtLeast(p: int, k: int)
    requires 0 < p && 0 < k
    ensures p <= p * k
  {
  }

  lemma {:induction false} Pow256Splits(i: nat, n: nat)
    requires i < n
    ensures Pow256(n) == Pow256(i) * (256 * Pow256(n - i - 1)) && 0 < Pow256(i)
    decreases n
  {
    if i > 0 {
      Pow256Splits(i - 1, n - 1);
    }
  }

  /** Adding a multiple of `256 * p` keeps the digit. */
  lemma WrapKeepsDigit(x: int, p: int, m: int, wrap: int)
    requires 0 < p && wrap == p * (256 * m)
    ensures (x + wrap) / p % 256 == x / p % 256
  {
    Distribute(p, x / p, 256 * m);
    QuotientIs(x + wrap, p, x / p + 256 * m, x % p);
    DigitOfShifted(x / p, m);
  }

  lemma DigitOfShifted(q: int, m: int)
    ensures (q + 256 * m) % 256 == q % 256
  {
  }

  lemma Distribute(p: int, q: int, k: int)
    ensures p * (q + k) == p * q + p * k
  {
  }

  /** Negative amounts too: byte `i` is the digit of the floor of the quotient. */
  lemma I128Digit(x: I128, i: nat)
    requires i < 16
    ensures 0 < Pow256(i)
    ensures I128ToLe(x)[i] as int == x / Pow256(i) % 256
  {
    Pow256Values();
    if x < 0 {
      LeDigit(x + Pow256(16), 16, i);
      Pow256Splits(i, 16);
      WrapKeepsDigit(x, Pow256(i), Pow256(15 - i), Pow256(16));
    } else {
      LeDigit(x, 16, i);
    }
  }

  /** How many bytes a condition takes. */
  function Size(c: Condition): nat
  {
    match c
    case Create(_, _) => 65 + 16
    case ExtDeposit(_, _) => 56 + 16
    case ExtWithdraw(_, _) => 56 + 16
    case ExtIntegration(_, us, _) => 56 + 65 * |us| + 16
  }

  /** The bytes from `at` on read: the key or address, for an integration then its keys one after
      the other, and the amount. */
  predicate ShowsAt(b: seq<byte>, at: nat, c: Condition)
  {
    && at + Size(c) <= |b|
    && I128FromLe(b[at + Size(c) - 16..at + Size(c)]) == c.amount
    && match c
       case Create(u, _) => b[at..at + 65] == u.bytes
       case ExtDeposit(a, _) => b[at..at + 56] == a.strkey
       case ExtWithdraw(a, _) => b[at..at + 56] == a.strkey
       case ExtIntegration(a, us, _) =>
         && b[at..at + 56] == a.strkey
         && forall i :: 0 <= i < |us| ==> b[at + 56 + 65 * i..at + 56 + 65 * (i + 1)] == us[i].bytes
  }

  lemma {:induction false} KeyBytesAt(us: seq<Utxo>, i: nat)
    requires i < |us|
    ensures |KeyBytes(us)| == 65 * |us|
    ensures KeyBytes(us)[65 * i..65 * (i + 1)] == us[i].bytes
  {
    var n := |us| - 1;
    KeyBytesLength(us);
    KeyBytesLength(us[..n]);
    if i < n {
      KeyBytesAt(us[..n], i);
      assert KeyBytes(us)[65 * i..65 * (i + 1)] == KeyBytes(us[..n])[65 * i..65 * (i + 1)];
    }
  }

  lemma BlockLength(c: Condition)
    ensures |Block(c)| == Size(c)
  {
    if c.ExtIntegration? {
      KeyBytesLength(c.utxos);
    }
  }

  /** The block of the condition fills the bytes from `at` on. */
  predicate BlockAt(b: seq<byte>, at: nat, c: Condition)
  {
    at + Size(c) <= |b| && b[at..at + Size(c)] == Block(c)
  }

  lemma SlicesOfSlice(b: seq<byte>, at: nat, s: seq<byte>)
    requires at + |s| <= |b| && b[at..at + |s|] == s
    ensures forall i, j {:trigger s[i..j]} :: 0 <= i <= j <= |s| ==> b[at + i..at + j] == s[i..j]
  {
    forall i, j | 0 <= i <= j <= |s|
      ensures b[at + i..at + j] == s[i..j]
    {
      assert forall k :: i <= k < j ==> s[k] == b[at + k];
    }
  }

  lemma BlockShows(b: seq<byte>, at: nat, c: Condition)
    requires BlockAt(b, at, c)
    ensures ShowsAt(b, at, c)
  {
    var s := Block(c);
    SlicesOfSlice(b, at, s);
    if c.ExtIntegration? {
      KeyBytesLength(c.utxos);
      forall i | 0 <= i < |c.utxos|
        ensures b[at + 56 + 65 * i..at + 56 + 65 * (i + 1)] == c.utxos[i].bytes
      {
        KeyBytesAt(c.utxos, i);
        assert s[56 + 65 * i..56 + 65 * (i + 1)] == KeyBytes(c.utxos)[65 * i..65 * (i + 1)];
        assert b[at + (56 + 65 * i)..at + (56 + 65 * (i + 1))] == s[56 + 65 * i..56 + 65 * (i + 1)];
      }
    }
    I128RoundTrip(c.amount);
    assert s[Size(c) - 16..Size(c)] == I128ToLe(c.amount);
    assert b[at + (Size(c) - 16)..at + Size(c)] == s[Size(c) - 16..Size(c)];
    var n := if c.Create? then 65 else 56;
    assert b[at + 0..at + n] == s[0..n];
    assert s[0..n] == if c.Create? then c.utxo.bytes else if c.ExtIntegration? then c.adapter.strkey else c.addr.strkey;
  }

  /** The bytes taken by the conditions of one kind. */
  function Weight(k: Kind, cs: seq<Condition>): nat
  {
    if cs == [] then 0
    else Weight(k, cs[..|cs| - 1]) + if KindOf(cs[|cs| - 1]) == k then Size(cs[|cs| - 1]) else 0
  }

  lemma {:induction false} SectionLength(k: Kind, cs: seq<Condition>)
    ensures |Section(k, cs)| == Weight(k, cs)
  {
    if cs != [] {
      var n := |cs| - 1;
      SectionLength(k, cs[..n]);
      SectionPush(k, cs[..n], cs[n]);
      assert cs == cs[..n] + [cs[n]];
      BlockLength(cs[n]);
    }
  }

  /** A section is what its conditions up to `i` give, then the block of the `i`-th, then the rest. */
  lemma {:induction false} SectionCut(cs: seq<Condition>, i: nat) returns (rest: seq<byte>)
    requires i < |cs|
    ensures Section(KindOf(cs[i]), cs) == Section(KindOf(cs[i]), cs[..i]) + Block(cs[i]) + rest
    decreases |cs|
  {
    var n, k := |cs| - 1, KindOf(cs[i]);
    SectionPush(k, cs[..n], cs[n]);
    assert cs == cs[..n] + [cs[n]];
    if i < n {
      var r := SectionCut(cs[..n], i);
      assert cs[..n][..i] == cs[..i];
      var last := if KindOf(cs[n]) == k then Block(cs[n]) else [];
      rest := r + last;
      Assoc(Section(k, cs[..i]) + Block(cs[i]), r, last);
    } else {
      rest := [];
    }
  }

  /** Where a condition stands in what follows the contract: after everything of the kinds laid out
      before its own, and after the conditions of its kind that precede it in the list. */
  function Offset(cs: seq<Condition>, i: nat): nat
    requires i < |cs|
  {
    var k := KindOf(cs[i]);
    Weight(k, cs[..i])
    + (if k != Creates then Weight(Creates, cs) else 0)
    + (if k == Withdraws || k == Integrations then Weight(Deposits, cs) else 0)
    + (if k == Integrations then Weight(Withdraws, cs) else 0)
  }

  lemma BlockInside(p: seq<byte>, a: seq<byte>, cs: seq<Condition>, rest: seq<byte>, i: nat)
    requires i < |cs| && p == a + Section(KindOf(cs[i]), cs) + rest
    ensures BlockAt(p, |a| + Weight(KindOf(cs[i]), cs[..i]), cs[i])
  {
    var before, block := Section(KindOf(cs[i]), cs[..i]), Block(cs[i]);
    var more := SectionCut(cs, i);
    SectionLength(KindOf(cs[i]), cs[..i]);
    BlockLength(cs[i]);
    Middle(a, before, block, more, rest);
  }

  lemma Middle(a: seq<byte>, b: seq<byte>, c: seq<byte>, d: seq<byte>, e: seq<byte>)
    ensures (a + (b + c + d) + e)[|a| + |b|..|a| + |b| + |c|] == c
  {
  }

  lemma PreimageCut(cs: seq<Condition>, live: U32, contract: seq<byte>, i: nat)
    requires i < |cs|
    ensures BlockAt(Preimage(cs, live, contract), |contract| + Offset(cs, i), cs[i])
  {
    var c, d, w, g := Section(Creates, cs), Section(Deposits, cs), Section(Withdraws, cs), Section(Integrations, cs);
    var p, l := Preimage(cs, live, contract), Le(live, 4);
    SectionLength(Creates, cs);
    SectionLength(Deposits, cs);
    SectionLength(Withdraws, cs);
    var (before, rest) := match KindOf(cs[i])
      case Creates => (contract, d + w + g + l)
      case Deposits => (contract + c, w + g + l)
      case Withdraws => (contract + c + d, g + l)
      case Integrations => (contract + c + d + w, l);
    Regroupings(contract, c, d, w, g, l);
    BlockInside(p, before, cs, rest, i);
  }

  lemma Regroupings(a: seq<byte>, b: seq<byte>, c: seq<byte>, d: seq<byte>, e: seq<byte>, f: seq<byte>)
    ensures a + b + c + d + e + f == a + b + (c + d + e + f) == a + b + c + (d + e + f) == a + b + c + d + (e + f)
  {
  }

  /** The bytes that are hashed, position by position: each condition stands where its kind and its
      place in the list put it ... */
  lemma PreimageShows(cs: seq<Condition>, live: U32, contract: seq<byte>, i: nat)
    requires i < |cs|
    ensures ShowsAt(Preimage(cs, live, contract), |contract| + Offset(cs, i), cs[i])
  {
    PreimageCut(cs, live, contract, i);
    BlockShows(Preimage(cs, live, contract), |contract| + Offset(cs, i), cs[i]);
  }

  /** ... the contract comes first and the expiry last, and there is nothing else. */
  lemma PreimageEnds(cs: seq<Condition>, live: U32, contract: seq<byte>)
    ensures var p := Preimage(cs, live, contract);
      && |p| == |contract| + 4
           + Weight(Creates, cs) + Weight(Deposits, cs) + Weight(Withdraws, cs) + Weight(Integrations, cs)
      && p[..|contract|] == contract
      && FromLe(p[|p| - 4..]) == live
  {
    var p := Preimage(cs, live, contract);
    SectionLength(Creates, cs);
    SectionLength(Deposits, cs);
    SectionLength(Withdraws, cs);
    SectionLength(Integrations, cs);
    assert p[|p| - 4..] == Le(live, 4);
    Pow256Values();
    LeRoundTrip(live, 4);
  }

  /** Interleaving conditions of different kinds differently leaves the payload as it is. */
  lemma PayloadIgnoresInterleaving(cs: seq<Condition>, cs': seq<Condition>, live: U32, contract: seq<byte>)
    requires forall k: Kind :: Only(k, cs) == Only(k, cs')
    ensures Preimage(cs, live, contract) == Preimage(cs', live, contract)
  {
    assert forall k: Kind :: Section(k, cs) == Section(k, cs');
  }

  // ----- How much of the list the payload determines -----

  /** A key in uncompressed form (section 2.3.3 of SEC 1). */
  predicate Sec1(u: Utxo)
  {
    u.bytes[0] == 4
  }

  predicate Plain(cs: seq<Condition>)
  {
    forall c :: c in cs ==> !c.ExtIntegration? && (c.Create? ==> Sec1(c.utxo))
  }

  /** What the block of a plain condition spells out: it does not tell a deposit from a
      withdrawal. */
  function Spelling(c: Condition): Condition
  {
    match c
    case ExtDeposit(a, x) => ExtWithdraw(a, x)
    case _ => c
  }

  function Spellings(cs: seq<Condition>): seq<Condition>
  {
    seq(|cs|, i requires 0 <= i < |cs| => Spelling(cs[i]))
  }

  function Externals(cs: seq<Condition>): (r: seq<Condition>)
    ensures forall c :: c in r ==> c in cs && (c.ExtDeposit? || c.ExtWithdraw?)
  {
    Only(Deposits, cs) + Only(Withdraws, cs)
  }

  /** The conditions in the order in which the payload lays them out. */
  function LaidOut(cs: seq<Condition>): (r: seq<Condition>)
    ensures forall c :: c in r ==> c in cs
  {
    Only(Creates, cs) + Externals(cs)
  }

  function Body(cs: seq<Condition>, live: U32): seq<byte>
  {
    Concat(Encoded(cs)) + Le(live, 4)
  }

  lemma PlainPreimage(cs: seq<Condition>, live: U32, contract: seq<byte>)
    requires Plain(cs)
    ensures Preimage(cs, live, contract) == contract + Body(LaidOut(cs), live)
  {
    OnlyNone(Integrations, cs);
    var c, d, w := Only(Creates, cs), Only(Deposits, cs), Only(Withdraws, cs);
    assert Encoded(LaidOut(cs)) == Encoded(c) + Encoded(d) + Encoded(w);
    ConcatAppend(Encoded(c), Encoded(d));
    ConcatAppend(Encoded(c) + Encoded(d), Encoded(w));
    Regroup(contract, Section(Creates, cs), Section(Deposits, cs), Section(Withdraws, cs), Le(live, 4));
  }

  lemma Regroup(a: seq<byte>, b: seq<byte>, c: seq<byte>, d: seq<byte>, e: seq<byte>)
    ensures a + b + c + d + [] + e == a + (b + c + d + e)
  {
  }

  /** One block is determined by its own bytes. */
  lemma BlockSpells(c: Condition, c': Condition, rest: seq<byte>, rest': seq<byte>)
    requires Plain([c]) && Plain([c'])
    requires Block(c) + rest == Block(c') + rest'
    ensures Spelling(c) == Spelling(c')
    ensures rest == rest'
  {
    var s, s' := Block(c) + rest, Block(c') + rest';
    assert c in [c] && c' in [c'];
    assert s[0] == if c.Create? then c.utxo.bytes[0] else c.addr.strkey[0];
    assert s'[0] == if c'.Create? then c'.utxo.bytes[0] else c'.addr.strkey[0];
    assert c.Create? <==> c'.Create?;
    var n := if c.Create? then 65 else 56;
    assert s[..n] == if c.Create? then c.utxo.bytes else c.addr.strkey;
    assert s'[..n] == if c'.Create? then c'.utxo.bytes else c'.addr.strkey;
    assert s[n..n + 16] == I128ToLe(c.amount);
    assert s'[n..n + 16] == I128ToLe(c'.amount);
    I128RoundTrip(c.amount);
    I128RoundTrip(c'.amount);
    assert s[n + 16..] == rest;
    assert s'[n + 16..] == rest';
  }

  /** Peeling block after block off the front recovers the list and the expiry. */
  lemma {:induction false} BodySpells(xs: seq<Condition>, ys: seq<Condition>, l: U32, l': U32)
    requires Plain(xs) && Plain(ys)
    requires Body(xs, l) == Body(ys, l')
    ensures Spellings(xs) == Spellings(ys)
    ensures l == l'
    decreases |xs|
  {
    BodyStep(xs, l);
    BodyStep(ys, l');
    if xs == [] && ys == [] {
      Pow256Values();
      LeRoundTrip(l, 4);
      LeRoundTrip(l', 4);
    } else if xs != [] && ys != [] {
      BlockSpells(xs[0], ys[0], Body(xs[1..], l), Body(ys[1..], l'));
      BodySpells(xs[1..], ys[1..], l, l');
      assert Spellings(xs) == [Spelling(xs[0])] + Spellings(xs[1..]);
      assert Spellings(ys) == [Spelling(ys[0])] + Spellings(ys[1..]);
    }
  }

  lemma BodyStep(xs: seq<Condition>, l: U32)
    ensures xs == [] ==> Body(xs, l) == Le(l, 4)
    ensures xs != [] ==> Body(xs, l) == Block(xs[0]) + Body(xs[1..], l) && |Block(xs[0])| > 4
  {
    if xs != [] {
      assert Encoded(xs)[1..] == Encoded(xs[1..]);
      Assoc(Block(xs[0]), Concat(Encoded(xs[1..])), Le(l, 4));
    }
  }

  lemma SpellingsGiveEncoding(xs: seq<Condition>, ys: seq<Condition>)
    requires Plain(xs) && Plain(ys)
    requires Spellings(xs) == Spellings(ys)
    ensures Encoded(xs) == Encoded(ys)
  {
    assert |Spellings(xs)| == |xs| && |Spellings(ys)| == |ys|;
    forall i | 0 <= i < |xs|
      ensures Block(xs[i]) == Block(ys[i])
    {
      assert Spelling(xs[i]) == Spellings(xs)[i] == Spellings(ys)[i] == Spelling(ys[i]);
      assert xs[i] in xs && ys[i] in ys;
    }
  }

  /** The payload of integration-free lists over uncompressed keys determines the expiry, the
      creates in order, and the deposits-then-withdrawals in order, and nothing more. */
  lemma PayloadDetermines(cs: seq<Condition>, cs': seq<Condition>, live: U32, live': U32, contract: seq<byte>)
    requires Plain(cs) && Plain(cs')
    ensures Preimage(cs, live, contract) == Preimage(cs', live', contract) <==>
      && live == live'
      && Only(Creates, cs) == Only(Creates, cs')
      && Spellings(Externals(cs)) == Spellings(Externals(cs'))
  {
    SamePreimage(cs, cs', live, live', contract);
    BodyDetermines(LaidOut(cs), LaidOut(cs'), live, live');
    SplitSpellings(Only(Creates, cs), Externals(cs), Only(Creates, cs'), Externals(cs'));
  }

  lemma SamePreimage(cs: seq<Condition>, cs': seq<Condition>, live: U32, live': U32, contract: seq<byte>)
    requires Plain(cs) && Plain(cs')
    ensures Preimage(cs, live, contract) == Preimage(cs', live', contract)
       <==> Body(LaidOut(cs), live) == Body(LaidOut(cs'), live')
  {
    PlainPreimage(cs, live, contract);
    PlainPreimage(cs', live', contract);
    CancelPrefix(contract, Body(LaidOut(cs), live), Body(LaidOut(cs'), live'));
  }

  lemma BodyDetermines(xs: seq<Condition>, ys: seq<Condition>, l: U32, l': U32)
    requires Plain(xs) && Plain(ys)
    ensures Body(xs, l) == Body(ys, l') <==> l == l' && Spellings(xs) == Spellings(ys)
  {
    if Body(xs, l) == Body(ys, l') {
      BodySpells(xs, ys, l, l');
    }
    if Spellings(xs) == Spellings(ys) {
      SpellingsGiveEncoding(xs, ys);
    }
  }

  lemma CancelPrefix(a: seq<byte>, b: seq<byte>, c: seq<byte>)
    ensures a + b == a + c <==> b == c
  {
    assert b == (a + b)[|a|..] && c == (a + c)[|a|..];
  }

  /** Creates come first and are spelled as creates, so the boundary can be read off. */
  lemma SplitSpellings(x: seq<Condition>, y: seq<Condition>, x': seq<Condition>, y': seq<Condition>)
    requires forall c :: (c in x || c in x') ==> c.Create?
    requires forall c :: (c in y || c in y') ==> c.ExtDeposit? || c.ExtWithdraw?
    ensures Spellings(x + y) == Spellings(x' + y') <==> x == x' && Spellings(y) == Spellings(y')
  {
    SpellingsOfParts(x, y);
    SpellingsOfParts(x', y');
    if Spellings(x + y) == Spellings(x' + y') {
      var s := x + Spellings(y);
      assert s == x' + Spellings(y');
      BoundaryNotLater(x, Spellings(y), x', Spellings(y'));
      BoundaryNotLater(x', Spellings(y'), x, Spellings(y));
      assert s[..|x|] == x && s[..|x|] == x';
      assert s[|x|..] == Spellings(y) && s[|x|..] == Spellings(y');
    }
  }

  lemma BoundaryNotLater(x: seq<Condition>, z: seq<Condition>, x': seq<Condition>, z': seq<Condition>)
    requires x + z == x' + z'
    requires forall c :: c in z ==> !c.Create?
    requires forall c :: c in x' ==> c.Create?
    ensures |x'| <= |x|
  {
    var s := x + z;
    assert |x| < |s| ==> !s[|x|].Create? by {
      assert |x| < |s| ==> s[|x|] == z[0] && s[|x|] in z;
    }
    forall i | 0 <= i < |x'|
      ensures s[i].Create?
    {
      assert s[i] == x'[i] && s[i] in x';
    }
  }

  lemma SpellingsOfParts(x: seq<Condition>, y: seq<Condition>)
    requires forall c :: c in x ==> c.Create?
    requires forall c :: c in y ==> c.ExtDeposit? || c.ExtWithdraw?
    ensures Spellings(x + y) == x + Spellings(y)
    ensures forall c :: c in Spellings(y) ==> c.ExtWithdraw?
  {
    assert forall i :: 0 <= i < |x| ==> x[i] in x;
    assert forall i :: 0 <= i < |y| ==> y[i] in y;
  }

  /** Signing creates and withdrawals binds all of them, up to interleaving the two kinds. */
  lemma PayloadBindsEffects(cs: seq<Condition>, cs': seq<Condition>, live: U32, live': U32, contract: seq<byte>)
    requires Plain(cs) && Plain(cs')
    requires forall c :: (c in cs || c in cs') ==> c.Create? || c.ExtWithdraw?
    ensures Preimage(cs, live, contract) == Preimage(cs', live', contract) <==>
      && live == live'
      && Only(Creates, cs) == Only(Creates, cs')
      && Only(Withdraws, cs) == Only(Withdraws, cs')
  {
    PayloadDetermines(cs, cs', live, live', contract);
    var w, w' := Only(Withdraws, cs), Only(Withdraws, cs');
    OnlyNone(Deposits, cs);
    OnlyNone(Deposits, cs');
    assert Only(Deposits, cs) + w == w && Only(Deposits, cs') + w' == w';
    assert Spellings(w) == w && Spellings(w') == w';
  }

  /** A deposit condition and a withdrawal condition over the same account and amount have the
      same payload, so the restriction to creates and withdrawals above is needed. */
  lemma DepositSpellsLikeWithdrawal(a: Address, x: I128, live: U32, contract: seq<byte>)
    ensures Preimage([ExtDeposit(a, x)], live, contract) == Preimage([ExtWithdraw(a, x)], live, contract)
  {
    PayloadDetermines([ExtDeposit(a, x)], [ExtWithdraw(a, x)], live, live, contract);
    assert Only(Deposits, [ExtDeposit(a, x)]) == [ExtDeposit(a, x)];
    assert Only(Withdraws, [ExtWithdraw(a, x)]) == [ExtWithdraw(a, x)];
  }

  lemma {:induction false} KeyBytesLength(us: seq<Utxo>)
    ensures |KeyBytes(us)| == 65 * |us|
  {
    if us != [] {
      KeyBytesLength(us[..|us| - 1]);
    }
  }

  lemma {:induction false} KeyBytesSpell(us: seq<Utxo>, us': seq<Utxo>)
    requires KeyBytes(us) == KeyBytes(us')
    ensures us == us'
  {
    KeyBytesLength(us);
    KeyBytesLength(us');
    if us != [] {
      var n := |us| - 1;
      KeyBytesLength(us[..n]);
      KeyBytesLength(us'[..n]);
      var b, b' := KeyBytes(us), KeyBytes(us');
      assert b[..65 * n] == KeyBytes(us[..n]) && b'[..65 * n] == KeyBytes(us'[..n]);
      assert b[65 * n..] == us[n].bytes && b'[65 * n..] == us'[n].bytes;
      KeyBytesSpell(us[..n], us'[..n]);
      assert us == us[..n] + [us[n]] && us' == us'[..n] + [us'[n]];
    }
  }

  /** An integration's block on its own determines adapter, keys in order, and amount. */
  lemma IntegrationBlockDetermines(c: Condition, c': Condition)
    requires c.ExtIntegration? && c'.ExtIntegration?
    ensures Block(c) == Block(c') <==> c == c'
  {
    if Block(c) == Block(c') {
      KeyBytesLength(c.utxos);
      KeyBytesLength(c'.utxos);
      var b, n := Block(c), |KeyBytes(c.utxos)|;
      assert |KeyBytes(c'.utxos)| == n;
      assert b[..56] == c.adapter.strkey && b[..56] == c'.adapter.strkey;
      assert b[56..56 + n] == KeyBytes(c.utxos) && b[56..56 + n] == KeyBytes(c'.utxos);
      assert b[56 + n..] == I128ToLe(c.amount) && b[56 + n..] == I128ToLe(c'.amount);
      KeyBytesSpell(c.utxos, c'.utxos);
      I128RoundTrip(c.amount);
      I128RoundTrip(c'.amount);
    }
  }

  // ----- What a payload binds, against any other list -----

  predicate Sec1Creates(cs: seq<Condition>)
  {
    forall c :: c in cs && c.Create? ==> Sec1(c.utxo)
  }

  /** What follows the creates in the payload. */
  function Tail(cs: seq<Condition>, live: U32): seq<byte>
  {
    Section(Deposits, cs) + Section(Withdraws, cs) + Section(Integrations, cs) + Le(live, 4)
  }

  /** Too short for a create, or starting with an address instead of an uncompressed key. */
  predicate NoCreateAhead(b: seq<byte>)
  {
    |b| < 81 || b[0] != 4
  }

  lemma SectionStart(k: Kind, cs: seq<Condition>, rest: seq<byte>)
    requires k != Creates && NoCreateAhead(rest)
    ensures NoCreateAhead(Section(k, cs) + rest)
  {
    var xs := Only(k, cs);
    if xs == [] {
      assert Section(k, cs) + rest == rest;
    } else {
      assert xs[0] in xs;
      assert Section(k, cs) == Block(xs[0]) + Concat(Encoded(xs)[1..]);
      assert (Section(k, cs) + rest)[0] == Block(xs[0])[0];
    }
  }

  lemma TailEnds(cs: seq<Condition>, live: U32)
    ensures Tail(cs, live)[|Tail(cs, live)| - 4..] == Le(live, 4)
  {
  }

  lemma RightAssoc(a: seq<byte>, b: seq<byte>, c: seq<byte>, d: seq<byte>)
    ensures a + b + c + d == a + (b + (c + d))
  {
  }

  lemma TailHasNoCreateAhead(cs: seq<Condition>, live: U32)
    ensures NoCreateAhead(Tail(cs, live))
  {
    var d, w, i, l := Section(Deposits, cs), Section(Withdraws, cs), Section(Integrations, cs), Le(live, 4);
    SectionStart(Integrations, cs, l);
    SectionStart(Withdraws, cs, i + l);
    SectionStart(Deposits, cs, w + (i + l));
    RightAssoc(d, w, i, l);
  }

  lemma PreimageSplit(cs: seq<Condition>, live: U32, contract: seq<byte>)
    ensures Preimage(cs, live, contract) == contract + (Section(Creates, cs) + Tail(cs, live))
  {
    var c, d, w, i := Section(Creates, cs), Section(Deposits, cs), Section(Withdraws, cs), Section(Integrations, cs);
    RegroupFive(contract, c, d, w, i, Le(live, 4));
  }

  lemma RegroupFive(a: seq<byte>, b: seq<byte>, c: seq<byte>, d: seq<byte>, e: seq<byte>, f: seq<byte>)
    ensures a + b + c + d + e + f == a + (b + (c + d + e + f))
  {
  }

  /** One create off the front: the other side must show the same one. */
  lemma CreateSpells(c: Condition, c': Condition, rest: seq<byte>, rest': seq<byte>)
    requires c.Create? && c'.Create? && Block(c) + rest == Block(c') + rest'
    ensures c == c' && rest == rest'
  {
    var s, s' := Block(c) + rest, Block(c') + rest';
    assert s[..65] == c.utxo.bytes && s'[..65] == c'.utxo.bytes;
    assert s[65..81] == I128ToLe(c.amount) && s'[65..81] == I128ToLe(c'.amount);
    assert s[81..] == rest && s'[81..] == rest';
    I128RoundTrip(c.amount);
    I128RoundTrip(c'.amount);
  }

  lemma {:induction false} CreatesPeel(xs: seq<Condition>, ys: seq<Condition>, rest: seq<byte>, rest': seq<byte>)
    requires forall c :: (c in xs || c in ys) ==> c.Create?
    requires Sec1Creates(xs) && NoCreateAhead(rest')
    requires Concat(Encoded(xs)) + rest == Concat(Encoded(ys)) + rest'
    ensures xs <= ys
    decreases |xs|
  {
    if xs != [] {
      assert xs[0] in xs;
      EncodedFront(xs, rest);
      var more := Concat(Encoded(xs[1..])) + rest;
      assert ys == [] ==> Concat(Encoded(ys)) + rest' == rest';
      CreateAhead(xs[0], more);
      if ys != [] {
        assert ys[0] in ys;
        EncodedFront(ys, rest');
        CreateSpells(xs[0], ys[0], more, Concat(Encoded(ys[1..])) + rest');
        CreatesPeel(xs[1..], ys[1..], rest, rest');
      }
    }
  }

  lemma CreateAhead(c: Condition, rest: seq<byte>)
    requires c.Create? && Sec1(c.utxo)
    ensures !NoCreateAhead(Block(c) + rest)
  {
    assert (Block(c) + rest)[0] == c.utxo.bytes[0];
  }

  lemma EncodedFront(xs: seq<Condition>, rest: seq<byte>)
    requires xs != []
    ensures Concat(Encoded(xs)) + rest == Block(xs[0]) + (Concat(Encoded(xs[1..])) + rest)
  {
    assert Encoded(xs)[1..] == Encoded(xs[1..]);
    Assoc(Block(xs[0]), Concat(Encoded(xs[1..])), rest);
  }

  /** A payload fixes its expiry and, when the create keys are uncompressed, its creates: whatever
      list has the same payload, integrations and other keys included, starts with those creates. */
  lemma PayloadFixesCreates(cs: seq<Condition>, cs': seq<Condition>, live: U32, live': U32, contract: seq<byte>)
    requires Sec1Creates(cs)
    requires Preimage(cs, live, contract) == Preimage(cs', live', contract)
    ensures Only(Creates, cs) <= Only(Creates, cs')
    ensures live == live'
  {
    PreimageSplit(cs, live, contract);
    PreimageSplit(cs', live', contract);
    var t, t' := Tail(cs, live), Tail(cs', live');
    CancelPrefix(contract, Section(Creates, cs) + t, Section(Creates, cs') + t');
    TailHasNoCreateAhead(cs, live);
    TailHasNoCreateAhead(cs', live');
    TailEnds(cs, live);
    TailEnds(cs', live');
    CreatesPeel(Only(Creates, cs), Only(Creates, cs'), t, t');
    SameEnding(Section(Creates, cs), t, Section(Creates, cs'), t');
    Pow256Values();
    LeRoundTrip(live, 4);
    LeRoundTrip(live', 4);
  }

  /** With uncompressed create keys on both sides, integrations allowed, equal payloads are equal
      creates followed by equal bytes for everything else. */
  lemma PayloadSplitsAtCreates(cs: seq<Condition>, cs': seq<Condition>, live: U32, live': U32, contract: seq<byte>)
    requires Sec1Creates(cs) && Sec1Creates(cs')
    ensures Preimage(cs, live, contract) == Preimage(cs', live', contract) <==>
      Only(Creates, cs) == Only(Creates, cs') && Tail(cs, live) == Tail(cs', live')
  {
    if Preimage(cs, live, contract) == Preimage(cs', live', contract) {
      PayloadFixesCreates(cs, cs', live, live', contract);
      PayloadFixesCreates(cs', cs, live', live, contract);
    }
    if Only(Creates, cs) == Only(Creates, cs') {
      SameCreates(cs, cs', live, live', contract);
    }
  }

  lemma SameCreates(cs: seq<Condition>, cs': seq<Condition>, live: U32, live': U32, contract: seq<byte>)
    requires Only(Creates, cs) == Only(Creates, cs')
    ensures Preimage(cs, live, contract) == Preimage(cs', live', contract) <==> Tail(cs, live) == Tail(cs', live')
  {
    PreimageSplit(cs, live, contract);
    PreimageSplit(cs', live', contract);
    CancelTwo(contract, Section(Creates, cs), Tail(cs, live), Tail(cs', live'));
  }

  lemma CancelTwo(a: seq<byte>, b: seq<byte>, c: seq<byte>, c': seq<byte>)
    ensures a + (b + c) == a + (b + c') <==> c == c'
  {
    CancelPrefix(a, b + c, b + c');
    CancelPrefix(b, c, c');
  }

  lemma SameEnding(a: seq<byte>, b: seq<byte>, a': seq<byte>, b': seq<byte>)
    requires a + b == a' + b' && 4 <= |b| && 4 <= |b'|
    ensures b[|b| - 4..] == b'[|b'| - 4..]
  {
    var s := a + b;
    assert s[|s| - 4..] == b[|b| - 4..];
    assert s[|s| - 4..] == b'[|b'| - 4..];
  }

  lemma {:induction false} OnlyAppend(k: Kind, xs: seq<Condition>, ys: seq<Condition>)
    ensures Only(k, xs + ys) == Only(k, xs) + Only(k, ys)
  {
    if ys == [] {
      assert xs + ys == xs;
    } else {
      OnlyAppend(k, xs, ys[..|ys| - 1]);
      assert (xs + ys)[..|xs + ys| - 1] == xs + ys[..|ys| - 1];
    }
  }

  lemma {:induction false} OnlyAll(k: Kind, xs: seq<Condition>)
    requires forall i :: 0 <= i < |xs| ==> KindOf(xs[i]) == k
    ensures Only(k, xs) == xs
  {
    if xs != [] {
      var n := |xs| - 1;
      OnlyAll(k, xs[..n]);
      assert xs == xs[..n] + [xs[n]];
    }
  }

  lemma OnlyNone(k: Kind, xs: seq<Condition>)
    requires forall c :: c in xs ==> KindOf(c) != k
    ensures Only(k, xs) == []
  {
    assert forall i :: 0 <= i < |Only(k, xs)| ==> Only(k, xs)[i] in Only(k, xs);
  }

  lemma OnlyOfKind(k: Kind, j: Kind, xs: seq<Condition>)
    requires forall c :: c in xs ==> KindOf(c) == j
    ensures Only(k, xs) == if k == j then xs else []
  {
    if k == j {
      OnlyAll(k, xs);
    } else {
      OnlyNone(k, xs);
    }
  }

  function AsDeposits(xs: seq<Condition>): (r: seq<Condition>)
    requires forall c :: c in xs ==> c.ExtDeposit? || c.ExtWithdraw?
    ensures |r| == |xs| && forall c :: c in r ==> c.ExtDeposit?
  {
    seq(|xs|, i requires 0 <= i < |xs| => ExtDeposit(xs[i].addr, xs[i].amount))
  }

  /** The same list with every withdrawal written as a deposit. */
  function Respelled(cs: seq<Condition>): seq<Condition>
  {
    Only(Creates, cs) + AsDeposits(Externals(cs)) + Only(Integrations, cs)
  }

  lemma RespelledKinds(cs: seq<Condition>)
    ensures var r := Respelled(cs);
      && Only(Creates, r) == Only(Creates, cs) && Only(Deposits, r) == AsDeposits(Externals(cs))
      && Only(Withdraws, r) == [] && Only(Integrations, r) == Only(Integrations, cs)
  {
    var a, b, c := Only(Creates, cs), AsDeposits(Externals(cs)), Only(Integrations, cs);
    forall k: Kind
      ensures Only(k, a + b + c) == (if k == Creates then a else []) + (if k == Deposits then b else [])
                                    + (if k == Integrations then c else [])
    {
      OnlyAppend(k, a, b);
      OnlyAppend(k, a + b, c);
      OnlyOfKind(k, Creates, a);
      OnlyOfKind(k, Deposits, b);
      OnlyOfKind(k, Integrations, c);
    }
  }

  lemma RespelledPayload(cs: seq<Condition>, live: U32, contract: seq<byte>)
    ensures Preimage(Respelled(cs), live, contract) == Preimage(cs, live, contract)
  {
    RespelledKinds(cs);
    RespelledSection(cs);
    PreimageSplit(cs, live, contract);
    PreimageSplit(Respelled(cs), live, contract);
    DropEmpty(Section(Deposits, cs) + Section(Withdraws, cs), Section(Integrations, cs), Le(live, 4));
  }

  lemma RespelledSection(cs: seq<Condition>)
    ensures Concat(Encoded(AsDeposits(Externals(cs)))) == Section(Deposits, cs) + Section(Withdraws, cs)
  {
    var d, w := Only(Deposits, cs), Only(Withdraws, cs);
    DepositsSpellAlike(Externals(cs));
    assert Encoded(d + w) == Encoded(d) + Encoded(w);
    ConcatAppend(Encoded(d), Encoded(w));
  }

  lemma DepositsSpellAlike(xs: seq<Condition>)
    requires forall c :: c in xs ==> c.ExtDeposit? || c.ExtWithdraw?
    ensures Encoded(AsDeposits(xs)) == Encoded(xs)
  {
    forall i | 0 <= i < |xs|
      ensures Block(AsDeposits(xs)[i]) == Block(xs[i])
    {
      assert xs[i] in xs;
    }
  }

  lemma DropEmpty(a: seq<byte>, b: seq<byte>, c: seq<byte>)
    ensures a + [] + b + c == a + b + c
  {
  }

  /** Every effect of the list that a bundle can execute is in the other list too. */
  ghost predicate CarriesEffects(cs: seq<Condition>, cs': seq<Condition>)
  {
    forall c :: c in cs && (c.Create? || c.ExtWithdraw?) ==> c in cs'
  }

  /** When signing the payload of a list binds all its creates and withdrawals, whatever list is
      submitted under that signature: exactly when the list contains no withdrawal. */
  lemma SigningBindsExactly(cs: seq<Condition>, live: U32, contract: seq<byte>)
    requires Sec1Creates(cs)
    ensures (forall cs', live' ::
              Preimage(cs', live', contract) == Preimage(cs, live, contract) ==> CarriesEffects(cs, cs'))
       <==> (forall c :: c in cs ==> !c.ExtWithdraw?)
  {
    if forall c :: c in cs ==> !c.ExtWithdraw? {
      forall cs', live' | Preimage(cs', live', contract) == Preimage(cs, live, contract)
        ensures CarriesEffects(cs, cs')
      {
        PayloadFixesCreates(cs, cs', live, live', contract);
        PrefixCarriesCreates(cs, cs');
      }
    } else {
      var c :| c in cs && c.ExtWithdraw?;
      RespelledPayload(cs, live, contract);
      RespelledKinds(cs);
      OnlyKeeps(Respelled(cs), c);
      assert !CarriesEffects(cs, Respelled(cs));
    }
  }

  lemma {:induction false} OnlyKeeps(cs: seq<Condition>, c: Condition)
    ensures c in Only(KindOf(c), cs) <==> c in cs
  {
    if cs != [] {
      OnlyKeeps(cs[..|cs| - 1], c);
      assert cs == cs[..|cs| - 1] + [cs[|cs| - 1]];
    }
  }

  lemma PrefixCarriesCreates(cs: seq<Condition>, cs': seq<Condition>)
    requires Only(Creates, cs) <= Only(Creates, cs')
    ensures forall c :: c in cs && c.Create? ==> c in cs'
  {
    forall c | c in cs && c.Create?
      ensures c in cs'
    {
      OnlyKeeps(cs, c);
      assert c in Only(Creates, cs');
    }
  }

  /** The payload of a list of one kind is just its blocks and the expiry. */
  lemma OneKindPreimage(j: Kind, xs: seq<Condition>, live: U32, contract: seq<byte>)
    requires forall c :: c in xs ==> KindOf(c) == j
    ensures Preimage(xs, live, contract) == contract + (Concat(Encoded(xs)) + Le(live, 4))
  {
    SectionOfKind(Creates, j, xs);
    SectionOfKind(Deposits, j, xs);
    SectionOfKind(Withdraws, j, xs);
    SectionOfKind(Integrations, j, xs);
    AloneAmongEmpty(Concat(Encoded(xs)));
    RegroupAfterFirst(contract, Section(Creates, xs), Section(Deposits, xs), Section(Withdraws, xs),
                      Section(Integrations, xs), Le(live, 4));
  }

  lemma SectionOfKind(k: Kind, j: Kind, xs: seq<Condition>)
    requires forall c :: c in xs ==> KindOf(c) == j
    ensures Section(k, xs) == if k == j then Concat(Encoded(xs)) else []
  {
    OnlyOfKind(k, j, xs);
  }

  lemma AloneAmongEmpty(a: seq<byte>)
    ensures a + [] + [] + [] == [] + a + [] + [] == [] + [] + a + [] == [] + [] + [] + a == a
  {
  }

  lemma RegroupAfterFirst(a: seq<byte>, b: seq<byte>, c: seq<byte>, d: seq<byte>, e: seq<byte>, f: seq<byte>)
    ensures a + b + c + d + e + f == a + (b + c + d + e + f)
  {
  }

  /** An integration without keys is a third spelling of the same bytes. */
  lemma EmptyIntegrationSpellsLikeWithdrawal(a: Address, x: I128, live: U32, contract: seq<byte>)
    ensures Preimage([ExtIntegration(a, [], x)], live, contract) == Preimage([ExtWithdraw(a, x)], live, contract)
  {
    var i, w := [ExtIntegration(a, [], x)], [ExtWithdraw(a, x)];
    OneKindPreimage(Integrations, i, live, contract);
    OneKindPreimage(Withdraws, w, live, contract);
    assert a.strkey + [] + I128ToLe(x) == a.strkey + I128ToLe(x);
    assert Encoded(i) == Encoded(w);
  }

  // ----- Create keys in other forms -----

  lemma LowDigit(d: int, n: nat)
    requires 0 <= d < 256
    ensures (d + 256 * n) % 256 == d && (d + 256 * n) / 256 == n
  {
  }

  lemma {:induction false} LeInverse(b: seq<byte>)
    ensures Le(FromLe(b), |b|) == b
  {
    if b != [] {
      var low, n := b[0] as int, FromLe(b[1..]);
      LowDigit(low, n);
      LeInverse(b[1..]);
      assert FromLe(b) == low + 256 * n;
      assert Le(low + 256 * n, |b|) == [(low as byte)] + Le(n, |b| - 1);
    }
  }

  lemma {:induction false} FromLeFits(b: seq<byte>)
    ensures FromLe(b) < Pow256(|b|)
  {
    if b != [] {
      FromLeFits(b[1..]);
    }
  }

  lemma AmountFromBytes(b: seq<byte>) returns (x: I128)
    requires |b| == 16
    ensures I128ToLe(x) == b
  {
    LeInverse(b);
    FromLeFits(b);
    Pow256Values();
    x := I128FromLe(b);
  }

  /** Any bytes of the right length can be cut into creates. */
  lemma {:induction false} CutIntoCreates(b: seq<byte>, n: nat) returns (cs: seq<Condition>)
    requires |b| == 81 * n
    ensures |cs| == n && forall c :: c in cs ==> c.Create?
    ensures Concat(Encoded(cs)) == b
  {
    if n == 0 {
      cs := [];
    } else {
      var x := AmountFromBytes(b[65..81]);
      var rest := CutIntoCreates(b[81..], n - 1);
      cs := [Create(Utxo(b[..65]), x)] + rest;
      assert Encoded(cs) == [Block(cs[0])] + Encoded(rest);
      assert Block(cs[0]) == b[..65] + b[65..81];
      assert b == b[..65] + b[65..81] + b[81..];
    }
  }

  lemma {:induction false} WithdrawalBytes(ws: seq<Condition>)
    requires forall c :: c in ws ==> c.ExtWithdraw?
    ensures |Concat(Encoded(ws))| == 72 * |ws|
  {
    if ws != [] {
      assert ws[0] in ws;
      assert Encoded(ws)[1..] == Encoded(ws[1..]);
      WithdrawalBytes(ws[1..]);
    }
  }

  /** Without the condition on create keys even creates are not fixed: nine withdrawals always have
      the payload of some eight creates. */
  lemma NineWithdrawalsSpellEightCreates(ws: seq<Condition>, live: U32, contract: seq<byte>)
    returns (cs: seq<Condition>)
    requires |ws| == 9 && forall c :: c in ws ==> c.ExtWithdraw?
    ensures |cs| == 8 && forall c :: c in cs ==> c.Create?
    ensures Preimage(cs, live, contract) == Preimage(ws, live, contract)
  {
    WithdrawalBytes(ws);
    cs := CutIntoCreates(Concat(Encoded(ws)), 8);
    OneKindPreimage(Creates, cs, live, contract);
    OneKindPreimage(Withdraws, ws, live, contract);
  }
}
