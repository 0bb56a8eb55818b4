/** Observation of token bridge transfers on the main chain, resumed from a checkpoint. */
module BridgeSource {
  import opened Prelude

  const U64_LIMIT: nat := 0x1_0000_0000_0000_0000

  type UtxoId(==, !new)
  type Datum(==, !new)
  type Recipient(==, !new)
  type Scripts(==, !new)

  /** Position of an output on the main chain. */
  datatype Key = Key(block: nat, tx: nat, output: nat)

  predicate KeyLess(a: Key, b: Key) {
    || a.block < b.block
    || (a.block == b.block && (a.tx < b.tx || (a.tx == b.tx && a.output < b.output)))
  }

  datatype BridgeUtxo = BridgeUtxo(key: Key, id: UtxoId, tokensOut: nat, tokensIn: nat, datum: Option<Datum>)

  datatype ParsedDatum = UserDatum(recipient: Option<Recipient>) | ReserveDatum | Unparsable

  datatype Transfer =
    | UserTransfer(amount: nat, recipient: Recipient)
    | ReserveTransfer(amount: nat)
    | InvalidTransfer(amount: nat, utxo: UtxoId)

  datatype Checkpoint = Utxo(id: UtxoId) | Block(number: nat)

  datatype ResolvedCheckpoint = AtUtxo(key: Key) | AtBlock(number: nat)

  /** The stable main chain: outputs at the bridge address of each script configuration, in chain order, the position of
      every output on the chain, and the meaning of datums. */
  datatype MainChain = MainChain(
    utxosOf: Scripts -> seq<BridgeUtxo>,
    positions: map<UtxoId, Key>,
    parse: Datum -> ParsedDatum)
  {
    ghost predicate Valid() {
      forall s: Scripts :: InOrder(utxosOf(s)) &&
        forall i :: 0 <= i < |utxosOf(s)| ==>
          utxosOf(s)[i].id in positions && positions[utxosOf(s)[i].id] == utxosOf(s)[i].key
    }
  }

  ghost predicate InOrder(utxos: seq<BridgeUtxo>) {
    forall i, j :: 0 <= i < j < |utxos| ==> KeyLess(utxos[i].key, utxos[j].key)
  }

  predicate After(cp: ResolvedCheckpoint, u: BridgeUtxo) {
    match cp
    case AtUtxo(key) => KeyLess(key, u.key)
    case AtBlock(number) => u.key.block > number
  }

  predicate InRange(cp: ResolvedCheckpoint, to: nat, u: BridgeUtxo) {
    After(cp, u) && u.key.block <= to
  }

  /** The database query without a limit. */
  function Select(utxos: seq<BridgeUtxo>, cp: ResolvedCheckpoint, to: nat): seq<BridgeUtxo> {
    if |utxos| == 0 then []
    else (if InRange(cp, to, utxos[0]) then [utxos[0]] else []) + Select(utxos[1..], cp, to)
  }

  function Take(utxos: seq<BridgeUtxo>, n: nat): seq<BridgeUtxo> {
    if |utxos| <= n then utxos else utxos[..n]
  }

  function ToTransfer(chain: MainChain, u: BridgeUtxo): Option<Transfer> {
    if u.tokensOut <= u.tokensIn then None
    else
      var amount := (u.tokensOut - u.tokensIn) % U64_LIMIT;
      if u.datum.None? then Some(InvalidTransfer(amount, u.id))
      else
        match chain.parse(u.datum.value)
        case UserDatum(Some(recipient)) => Some(UserTransfer(amount, recipient))
        case UserDatum(None) => Some(InvalidTransfer(amount, u.id))
        case ReserveDatum => Some(ReserveTransfer(amount))
        case Unparsable => Some(InvalidTransfer(amount, u.id))
  }

  function Transfers(chain: MainChain, utxos: seq<BridgeUtxo>): seq<Transfer> {
    if |utxos| == 0 then []
    else
      var t := ToTransfer(chain, utxos[0]);
      (if t.Some? then [t.value] else []) + Transfers(chain, utxos[1..])
  }

  function Resolve(chain: MainChain, cp: Checkpoint): Option<ResolvedCheckpoint> {
    match cp
    case Utxo(id) => if id in chain.positions then Some(AtUtxo(chain.positions[id])) else None
    case Block(number) => Some(AtBlock(number))
  }

  /** Checkpoint after observing `utxos`: a full batch resumes after its last output. */
  function NextCheckpoint(utxos: seq<BridgeUtxo>, max: nat, to: nat): Checkpoint {
    if |utxos| == 0 then Block(to)
    else if |utxos| < max then Block(to)
    else Utxo(utxos[|utxos| - 1].id)
  }

  /** The direct data source; `None` if the checkpoint is unknown on the main chain. */
  function GetTransfers(chain: MainChain, scripts: Scripts, cp: Checkpoint, max: nat, to: nat)
    : Option<(seq<Transfer>, Checkpoint)>
  {
    match Resolve(chain, cp)
    case None => None
    case Some(resolved) =>
      var utxos := Take(Select(chain.utxosOf(scripts), resolved, to), max);
      Some((Transfers(chain, utxos), NextCheckpoint(utxos, max, to)))
  }

  // ---------------------------------------------------------------- positions

  /** Positions on the chain are totally ordered, by block first. */
  lemma KeysAreTotal(a: Key, b: Key, c: Key)
    ensures a == b || KeyLess(a, b) || KeyLess(b, a)
    ensures !(KeyLess(a, b) && KeyLess(b, a)) && !KeyLess(a, a)
    ensures KeyLess(a, b) && KeyLess(b, c) ==> KeyLess(a, c)
    ensures KeyLess(a, b) ==> a.block <= b.block && (a.block == b.block ==> a.tx <= b.tx)
  {
  }

  /** Number of outputs up to the checkpoint. */
  function Position(utxos: seq<BridgeUtxo>, cp: ResolvedCheckpoint): (n: nat)
    ensures n <= |utxos|
  {
    if |utxos| == 0 || After(cp, utxos[0]) then 0 else 1 + Position(utxos[1..], cp)
  }

  lemma {:induction false} PositionSplits(utxos: seq<BridgeUtxo>, cp: ResolvedCheckpoint, i: nat)
    requires InOrder(utxos) && i < |utxos|
    ensures After(cp, utxos[i]) <==> i >= Position(utxos, cp)
  {
    if i > 0 {
      if After(cp, utxos[0]) {
        assert KeyLess(utxos[0].key, utxos[i].key);
      } else {
        PositionSplits(utxos[1..], cp, i - 1);
      }
    }
  }

  lemma PositionIs(utxos: seq<BridgeUtxo>, cp: ResolvedCheckpoint, n: nat)
    requires InOrder(utxos) && n <= |utxos|
    requires forall i :: 0 <= i < |utxos| ==> (After(cp, utxos[i]) <==> i >= n)
    ensures Position(utxos, cp) == n
  {
    var p := Position(utxos, cp);
    if p < n { PositionSplits(utxos, cp, p); }
    if n < p { PositionSplits(utxos, cp, n); }
  }

  /** The slice of outputs in positions `p` up to `q`. */
  function Slice(utxos: seq<BridgeUtxo>, p: nat, q: nat): seq<BridgeUtxo>
    requires q <= |utxos|
  {
    if p <= q then utxos[p..q] else []
  }

  lemma PositionTail(utxos: seq<BridgeUtxo>, cp: ResolvedCheckpoint)
    requires InOrder(utxos) && |utxos| > 0
    ensures
      var p := Position(utxos, cp);
      Position(utxos[1..], cp) == if p == 0 then 0 else p - 1
  {
    if After(cp, utxos[0]) && |utxos| > 1 {
      PositionSplits(utxos, cp, 1);
    }
  }

  lemma SliceOfTail(utxos: seq<BridgeUtxo>, p: nat, q: nat)
    requires |utxos| > 0 && q <= |utxos|
    ensures
      Slice(utxos, p, q) ==
      (if p == 0 && q > 0 then [utxos[0]] else []) +
      Slice(utxos[1..], if p == 0 then 0 else p - 1, if q == 0 then 0 else q - 1)
  {
    if p == 0 && q > 0 {
      assert utxos[0..q] == [utxos[0]] + utxos[1..][0..q - 1];
    } else if 0 < p <= q {
      var tail := utxos[1..];
      forall i | p <= i < q ensures utxos[i] == tail[i - 1] {
      }
      assert utxos[p..q] == tail[p - 1..q - 1];
    }
  }

  /** On the ordered chain the query returns the slice between two positions. */
  lemma {:induction false} SelectIsSlice(utxos: seq<BridgeUtxo>, cp: ResolvedCheckpoint, to: nat)
    requires InOrder(utxos)
    ensures Select(utxos, cp, to) == Slice(utxos, Position(utxos, cp), Position(utxos, AtBlock(to)))
  {
    if |utxos| > 0 {
      var p, q := Position(utxos, cp), Position(utxos, AtBlock(to));
      PositionTail(utxos, cp);
      PositionTail(utxos, AtBlock(to));
      SelectIsSlice(utxos[1..], cp, to);
      assert After(cp, utxos[0]) <==> p == 0;
      assert utxos[0].key.block <= to <==> q > 0;
      SliceOfTail(utxos, p, q);
    }
  }

  /** Where one observation from position `p` leads when outputs up to position `q` are visible. */
  function NextPosition(p: nat, q: nat, max: nat): nat {
    if max == 0 || p >= q then q else if p + max <= q then p + max else q
  }

  lemma SliceOfSlice(utxos: seq<BridgeUtxo>, p: nat, q: nat, n: nat)
    requires p + n <= q <= |utxos|
    ensures utxos[p..q][..n] == utxos[p..p + n]
  {
    var a, b := utxos[p..q][..n], utxos[p..p + n];
    assert |a| == |b| == n;
    assert forall i :: 0 <= i < n ==> a[i] == b[i];
  }

  /** The outputs handed over by an observation from position `p` when outputs up to position `q` are visible. */
  function HandedOver(utxos: seq<BridgeUtxo>, p: nat, q: nat, max: nat): seq<BridgeUtxo>
    requires q <= |utxos|
  {
    if p < q then utxos[p..Min(p + max, q)] else []
  }

  lemma ObservedSlice(utxos: seq<BridgeUtxo>, cp: ResolvedCheckpoint, max: nat, to: nat)
    requires InOrder(utxos)
    ensures
      Take(Select(utxos, cp, to), max) ==
      HandedOver(utxos, Position(utxos, cp), Position(utxos, AtBlock(to)), max)
  {
    SelectIsSlice(utxos, cp, to);
    var p, q := Position(utxos, cp), Position(utxos, AtBlock(to));
    if p < q && p + max < q {
      SliceOfSlice(utxos, p, q, max);
    }
  }

  /** The new checkpoint resolves, and its position is the next position. */
  lemma CheckpointPosition(chain: MainChain, scripts: Scripts, cp: ResolvedCheckpoint, max: nat, to: nat)
    requires chain.Valid()
    ensures
      var utxos := chain.utxosOf(scripts);
      var p, q := Position(utxos, cp), Position(utxos, AtBlock(to));
      var next := Resolve(chain, NextCheckpoint(Take(Select(utxos, cp, to), max), max, to));
      next.Some? && Position(utxos, next.value) == NextPosition(p, q, max)
  {
    var utxos := chain.utxosOf(scripts);
    var p, q := Position(utxos, cp), Position(utxos, AtBlock(to));
    ObservedSlice(utxos, cp, max, to);
    var batch := Take(Select(utxos, cp, to), max);
    if |batch| > 0 && |batch| >= max {
      var n := p + max;
      assert batch[|batch| - 1] == utxos[n - 1];
      var next := AtUtxo(utxos[n - 1].key);
      forall i | 0 <= i < |utxos| ensures After(next, utxos[i]) <==> i >= n {
        if i > n - 1 { assert KeyLess(utxos[n - 1].key, utxos[i].key); }
        if i < n - 1 { assert KeyLess(utxos[i].key, utxos[n - 1].key); }
      }
      PositionIs(utxos, next, n);
    }
  }

  /** One observation hands over exactly the outputs it moves past, unless the limit is zero with outputs pending
      (they are skipped) or the observed block lies before the checkpoint (they will be repeated). */
  lemma ObservationConservesIff(chain: MainChain, scripts: Scripts, cp: ResolvedCheckpoint, max: nat, to: nat)
    requires chain.Valid()
    ensures
      var utxos := chain.utxosOf(scripts);
      var p, q := Position(utxos, cp), Position(utxos, AtBlock(to));
      var batch := Take(Select(utxos, cp, to), max);
      var next := Resolve(chain, NextCheckpoint(batch, max, to));
      && next.Some?
      && (Position(utxos, next.value) == p + |batch| <==> p <= q && (max > 0 || p == q))
      && (p <= q && (max > 0 || p == q) ==> batch == utxos[p..Position(utxos, next.value)])
  {
    CheckpointPosition(chain, scripts, cp, max, to);
    ObservedSlice(chain.utxosOf(scripts), cp, max, to);
  }

  lemma {:induction false} TransfersConcat(chain: MainChain, a: seq<BridgeUtxo>, b: seq<BridgeUtxo>)
    ensures Transfers(chain, a + b) == Transfers(chain, a) + Transfers(chain, b)
  {
    if |a| == 0 {
      assert a + b == b;
    } else {
      assert (a + b)[1..] == a[1..] + b;
      TransfersConcat(chain, a[1..], b);
    }
  }

  lemma TransfersOfSlice(chain: MainChain, utxos: seq<BridgeUtxo>, p: nat, m: nat, n: nat)
    requires p <= m <= n <= |utxos|
    ensures Transfers(chain, utxos[p..n]) == Transfers(chain, utxos[p..m]) + Transfers(chain, utxos[m..n])
  {
    assert utxos[p..n] == utxos[p..m] + utxos[m..n];
    TransfersConcat(chain, utxos[p..m], utxos[m..n]);
  }

  lemma {:induction false} TransfersBounded(chain: MainChain, utxos: seq<BridgeUtxo>)
    ensures |Transfers(chain, utxos)| <= |utxos|
  {
    if |utxos| > 0 {
      TransfersBounded(chain, utxos[1..]);
    }
  }
}
