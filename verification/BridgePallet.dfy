/** The token bridge pallet: bounded batches of transfers, each block resuming from the stored checkpoint. */
module BridgePallet {
  import opened Prelude
  import opened BridgeSource

  datatype InherentData = InherentData(transfers: seq<Transfer>, checkpoint: Checkpoint)

  datatype Call = HandleTransfers(transfers: seq<Transfer>, checkpoint: Checkpoint)

  datatype InherentError = InherentNotExpected | IncorrectInherent

  /** Pallet storage and the transfers passed to the transfer handler so far. */
  datatype BridgeState = BridgeState(
    scripts: Option<Scripts>,
    checkpoint: Option<Checkpoint>,
    handled: seq<Transfer>)

  /** The inherent data provider: inactive until the pallet is configured; fails if the data source fails. */
  function Provide(chain: MainChain, s: BridgeState, max: nat, to: nat): Result<Option<InherentData>, Checkpoint> {
    if s.checkpoint.None? || s.scripts.None? then Ok(None)
    else
      match GetTransfers(chain, s.scripts.value, s.checkpoint.value, max, to)
      case None => Err(s.checkpoint.value)
      case Some((transfers, checkpoint)) => Ok(Some(InherentData(transfers, checkpoint)))
  }

  /** `create_inherent`; the error is the panic on a batch above the configured bound. */
  function CreateInherent(max: nat, data: Option<InherentData>): Result<Option<Call>, nat> {
    if data.None? then Ok(None)
    else if |data.value.transfers| > max then Err(|data.value.transfers|)
    else Ok(Some(HandleTransfers(data.value.transfers, data.value.checkpoint)))
  }

  /** `check_inherent`: `Ok(None)` accepts the call. */
  function CheckInherent(max: nat, call: Call, data: Option<InherentData>): Result<Option<InherentError>, nat> {
    match CreateInherent(max, data)
    case Err(n) => Err(n)
    case Ok(None) => Ok(Some(InherentNotExpected))
    case Ok(Some(expected)) => if call == expected then Ok(None) else Ok(Some(IncorrectInherent))
  }

  function Dispatch(s: BridgeState, call: Call): BridgeState {
    s.(handled := s.handled + call.transfers, checkpoint := Some(call.checkpoint))
  }

  /** One block observing the main chain up to block `to`; `None` if it cannot be built. */
  function ExecuteBlock(chain: MainChain, s: BridgeState, max: nat, to: nat): Option<BridgeState> {
    match Provide(chain, s, max, to)
    case Err(_) => None
    case Ok(data) =>
      match CreateInherent(max, data)
      case Err(_) => None
      case Ok(None) => Some(s)
      case Ok(Some(call)) => Some(Dispatch(s, call))
  }

  function Execute(chain: MainChain, s: BridgeState, max: nat, tos: seq<nat>): Option<BridgeState> {
    if |tos| == 0 then Some(s)
    else
      match Execute(chain, s, max, tos[..|tos| - 1])
      case None => None
      case Some(s') => ExecuteBlock(chain, s', max, tos[|tos| - 1])
  }

  // ---------------------------------------------------------------- storage

  class Pallet {
    const max: nat
    var scripts: Option<Scripts>
    var checkpoint: Option<Checkpoint>
    var handled: seq<Transfer>

    ghost function View(): BridgeState
      reads this
    {
      BridgeState(scripts, checkpoint, handled)
    }

    constructor (max: nat, scripts: Option<Scripts>, initialCheckpoint: Option<UtxoId>)
      ensures this.max == max
      ensures
        var checkpoint := if initialCheckpoint.Some? then Some(Utxo(initialCheckpoint.value)) else None;
        View() == BridgeState(scripts, checkpoint, [])
    {
      this.max := max;
      this.scripts := scripts;
      checkpoint := if initialCheckpoint.Some? then Some(Utxo(initialCheckpoint.value)) else None;
      handled := [];
    }

    method HandleTransfers(transfers: seq<Transfer>, checkpoint: Checkpoint)
      modifies this
      ensures View() == Dispatch(old(View()), Call.HandleTransfers(transfers, checkpoint))
    {
      for i := 0 to |transfers|
        invariant handled == old(handled) + transfers[..i]
        invariant scripts == old(scripts) && this.checkpoint == old(this.checkpoint)
      {
        handled := handled + [transfers[i]];
      }
      assert transfers[..|transfers|] == transfers;
      this.checkpoint := Some(checkpoint);
    }

    method SetMainChainScripts(newScripts: Scripts, checkpoint: Checkpoint)
      modifies this
      ensures View() == old(View()).(scripts := Some(newScripts), checkpoint := Some(checkpoint))
    {
      scripts := Some(newScripts);
      this.checkpoint := Some(checkpoint);
    }
  }

  // ---------------------------------------------------------------- properties

  /** A created inherent passes the check made from the same data, no other call does, and the bound conversion never
      fails on data from the data source. */
  lemma CreatedInherentIsAccepted(chain: MainChain, s: BridgeState, max: nat, to: nat, call: Call)
    requires Provide(chain, s, max, to).Ok?
    ensures
      var data := Provide(chain, s, max, to).value;
      && CreateInherent(max, data).Ok?
      && CheckInherent(max, call, data).Ok?
      && (CheckInherent(max, call, data).value == None <==> CreateInherent(max, data).value == Some(call))
      && (CheckInherent(max, call, data).value == Some(InherentNotExpected) <==> data.None?)
  {
    if s.scripts.Some? && s.checkpoint.Some? {
      var cp := Resolve(chain, s.checkpoint.value).value;
      TransfersBounded(chain, Take(Select(chain.utxosOf(s.scripts.value), cp, to), max));
    }
  }

  ghost predicate NonDecreasing(tos: seq<nat>) {
    forall i, j :: 0 <= i < j < |tos| ==> tos[i] <= tos[j]
  }

  /** Position of the stored checkpoint among the outputs of the configured scripts. */
  ghost predicate IsAt(chain: MainChain, s: BridgeState, scripts: Scripts, p: nat) {
    && s.scripts == Some(scripts)
    && s.checkpoint.Some?
    && Resolve(chain, s.checkpoint.value).Some?
    && Position(chain.utxosOf(scripts), Resolve(chain, s.checkpoint.value).value) == p
  }

  lemma {:induction false} LaterBlockLaterPosition(utxos: seq<BridgeUtxo>, a: nat, b: nat)
    requires a <= b
    ensures Position(utxos, AtBlock(a)) <= Position(utxos, AtBlock(b))
  {
    if |utxos| > 0 {
      LaterBlockLaterPosition(utxos[1..], a, b);
    }
  }

  /** Between `s` and `s'` the handler received exactly the transfers of the outputs in positions `p` to `n`. */
  ghost predicate Delivered(chain: MainChain, s: BridgeState, s': BridgeState, scripts: Scripts, p: nat, n: nat) {
    && IsAt(chain, s', scripts, n)
    && p <= n <= |chain.utxosOf(scripts)|
    && s'.handled == s.handled + Transfers(chain, chain.utxosOf(scripts)[p..n])
  }

  lemma DeliveredThen(chain: MainChain, s: BridgeState, s1: BridgeState, s2: BridgeState, scripts: Scripts,
                      p: nat, m: nat, n: nat)
    requires Delivered(chain, s, s1, scripts, p, m) && Delivered(chain, s1, s2, scripts, m, n)
    ensures Delivered(chain, s, s2, scripts, p, n)
  {
    var utxos := chain.utxosOf(scripts);
    TransfersOfSlice(chain, utxos, p, m, n);
    Associates(s.handled, Transfers(chain, utxos[p..m]), Transfers(chain, utxos[m..n]));
  }

  lemma Associates(a: seq<Transfer>, b: seq<Transfer>, c: seq<Transfer>)
    ensures a + b + c == a + (b + c)
  {
  }

  /** One block, whatever the limit and the observed block: at most the limit is handed over, and the checkpoint moves
      to the next position. */
  lemma BlockDelivers(chain: MainChain, s: BridgeState, scripts: Scripts, max: nat, to: nat, p: nat)
    requires chain.Valid() && IsAt(chain, s, scripts, p)
    ensures
      var utxos := chain.utxosOf(scripts);
      var q := Position(utxos, AtBlock(to));
      var s' := ExecuteBlock(chain, s, max, to);
      && s'.Some?
      && IsAt(chain, s'.value, scripts, NextPosition(p, q, max))
      && |HandedOver(utxos, p, q, max)| <= max
      && s'.value.handled == s.handled + Transfers(chain, HandedOver(utxos, p, q, max))
      && (p <= q && (max > 0 || p == q) ==> Delivered(chain, s, s'.value, scripts, p, NextPosition(p, q, max)))
  {
    var utxos := chain.utxosOf(scripts);
    var cp := Resolve(chain, s.checkpoint.value).value;
    ObservedSlice(utxos, cp, max, to);
    CheckpointPosition(chain, scripts, cp, max, to);
    TransfersBounded(chain, Take(Select(utxos, cp, to), max));
  }

  /** While scripts or checkpoint are missing the bridge is inactive: no run changes anything. */
  lemma {:induction false} UnconfiguredIsIdle(chain: MainChain, s: BridgeState, max: nat, tos: seq<nat>)
    requires s.scripts.None? || s.checkpoint.None?
    ensures Execute(chain, s, max, tos) == Some(s)
  {
    if |tos| > 0 {
      UnconfiguredIsIdle(chain, s, max, tos[..|tos| - 1]);
    }
  }

  /** A block cannot be built if and only if the bridge is configured with a checkpoint output unknown to the chain. */
  lemma BlockFailsIff(chain: MainChain, s: BridgeState, max: nat, to: nat)
    ensures ExecuteBlock(chain, s, max, to).None? <==>
            && s.scripts.Some? && s.checkpoint.Some?
            && s.checkpoint.value.Utxo? && s.checkpoint.value.id !in chain.positions
  {
    if s.scripts.Some? && s.checkpoint.Some? && Resolve(chain, s.checkpoint.value).Some? {
      var cp := Resolve(chain, s.checkpoint.value).value;
      TransfersBounded(chain, Take(Select(chain.utxosOf(s.scripts.value), cp, to), max));
    }
  }

  // ---------------------------------------------------------------- whole runs

  /** Position reached from `p` after blocks that observe up to the main chain blocks `tos`. */
  function EndPosition(utxos: seq<BridgeUtxo>, p: nat, max: nat, tos: seq<nat>): nat {
    if |tos| == 0 then p
    else
      var k := |tos| - 1;
      NextPosition(EndPosition(utxos, p, max, tos[..k]), Position(utxos, AtBlock(tos[k])), max)
  }

  /** The outputs handed over on the way, in order. */
  function RunHandedOver(utxos: seq<BridgeUtxo>, p: nat, max: nat, tos: seq<nat>): seq<BridgeUtxo> {
    if |tos| == 0 then []
    else
      var k := |tos| - 1;
      RunHandedOver(utxos, p, max, tos[..k]) +
      HandedOver(utxos, EndPosition(utxos, p, max, tos[..k]), Position(utxos, AtBlock(tos[k])), max)
  }

  /** No block observes less than what the checkpoint before it has passed. */
  predicate NeverBehind(utxos: seq<BridgeUtxo>, p: nat, max: nat, tos: seq<nat>) {
    |tos| > 0 ==>
      var k := |tos| - 1;
      && NeverBehind(utxos, p, max, tos[..k])
      && EndPosition(utxos, p, max, tos[..k]) <= Position(utxos, AtBlock(tos[k]))
  }

  /** What a caller can check before a run: with a positive limit the observed blocks are never behind the checkpoint,
      and with a zero limit the last one is where the run began. */
  predicate Conserves(utxos: seq<BridgeUtxo>, p: nat, max: nat, tos: seq<nat>) {
    if max > 0 then NeverBehind(utxos, p, max, tos) else EndPosition(utxos, p, max, tos) == p
  }

  /** Every run can be executed, whatever the limit and the observed blocks, and hands over the outputs above. */
  lemma {:induction false} RunHandsOver(chain: MainChain, s: BridgeState, scripts: Scripts, max: nat,
                                        tos: seq<nat>, p: nat)
    requires chain.Valid() && IsAt(chain, s, scripts, p)
    ensures
      var utxos := chain.utxosOf(scripts);
      var s' := Execute(chain, s, max, tos);
      && s'.Some?
      && IsAt(chain, s'.value, scripts, EndPosition(utxos, p, max, tos))
      && s'.value.handled == s.handled + Transfers(chain, RunHandedOver(utxos, p, max, tos))
  {
    if |tos| > 0 {
      var utxos, k := chain.utxosOf(scripts), |tos| - 1;
      RunHandsOver(chain, s, scripts, max, tos[..k], p);
      var s1, m := Execute(chain, s, max, tos[..k]).value, EndPosition(utxos, p, max, tos[..k]);
      BlockDelivers(chain, s1, scripts, max, tos[k], m);
      var before := RunHandedOver(utxos, p, max, tos[..k]);
      var last := HandedOver(utxos, m, Position(utxos, AtBlock(tos[k])), max);
      TransfersConcat(chain, before, last);
      Associates(s.handled, Transfers(chain, before), Transfers(chain, last));
    }
  }

  lemma {:induction false} EndWithin(utxos: seq<BridgeUtxo>, p: nat, max: nat, tos: seq<nat>)
    requires p <= |utxos|
    ensures EndPosition(utxos, p, max, tos) <= |utxos|
  {
    if |tos| > 0 {
      EndWithin(utxos, p, max, tos[..|tos| - 1]);
    }
  }

  /** One observation hands over as many outputs as it moves past, or more if it moves back. */
  lemma HandedOverLength(utxos: seq<BridgeUtxo>, m: nat, q: nat, max: nat)
    requires m <= |utxos| && q <= |utxos| && max > 0
    ensures
      var n := NextPosition(m, q, max);
      && n <= |utxos|
      && (m <= q ==> m <= n && HandedOver(utxos, m, q, max) == utxos[m..n])
      && (m > q ==> n < m && HandedOver(utxos, m, q, max) == [])
  {
  }

  lemma SlicesConcat(utxos: seq<BridgeUtxo>, p: nat, m: nat, n: nat)
    requires p <= m <= n <= |utxos|
    ensures utxos[p..m] + utxos[m..n] == utxos[p..n]
  {
  }

  /** A run that never falls behind hands over the outputs it moves past; one that does hands over more. */
  lemma {:induction false} HandsOverAtLeast(utxos: seq<BridgeUtxo>, p: nat, max: nat, tos: seq<nat>)
    requires p <= |utxos| && max > 0
    ensures
      var n := EndPosition(utxos, p, max, tos);
      && n <= |utxos| && |RunHandedOver(utxos, p, max, tos)| >= n - p
      && (NeverBehind(utxos, p, max, tos) ==> p <= n && RunHandedOver(utxos, p, max, tos) == utxos[p..n])
      && (!NeverBehind(utxos, p, max, tos) ==> |RunHandedOver(utxos, p, max, tos)| > n - p)
  {
    if |tos| > 0 {
      var k := |tos| - 1;
      HandsOverAtLeast(utxos, p, max, tos[..k]);
      var m, q := EndPosition(utxos, p, max, tos[..k]), Position(utxos, AtBlock(tos[k]));
      HandedOverLength(utxos, m, q, max);
      if NeverBehind(utxos, p, max, tos) {
        SlicesConcat(utxos, p, m, NextPosition(m, q, max));
      }
    }
  }

  lemma {:induction false} ZeroLimitHandsOverNothing(utxos: seq<BridgeUtxo>, p: nat, tos: seq<nat>)
    ensures RunHandedOver(utxos, p, 0, tos) == []
  {
    if |tos| > 0 {
      ZeroLimitHandsOverNothing(utxos, p, tos[..|tos| - 1]);
    }
  }

  /** Exactly-once delivery, over every run without a governance reset: the outputs handed over are those between the
      initial and the current checkpoint, in order, with no skip and no repeat, if and only if the run conserves. */
  lemma ExactlyOnceIff(chain: MainChain, s: BridgeState, scripts: Scripts, max: nat, tos: seq<nat>, p: nat)
    requires chain.Valid() && IsAt(chain, s, scripts, p)
    ensures
      var utxos := chain.utxosOf(scripts);
      var n := EndPosition(utxos, p, max, tos);
      var s' := Execute(chain, s, max, tos);
      && s'.Some? && n <= |utxos|
      && s'.value.handled == s.handled + Transfers(chain, RunHandedOver(utxos, p, max, tos))
      && (p <= n && RunHandedOver(utxos, p, max, tos) == utxos[p..n] <==> Conserves(utxos, p, max, tos))
      && (Conserves(utxos, p, max, tos) ==> Delivered(chain, s, s'.value, scripts, p, n))
  {
    var utxos := chain.utxosOf(scripts);
    RunHandsOver(chain, s, scripts, max, tos, p);
    EndWithin(utxos, p, max, tos);
    if max > 0 {
      HandsOverAtLeast(utxos, p, max, tos);
    } else {
      ZeroLimitHandsOverNothing(utxos, p, tos);
    }
  }

  lemma EndAtMostObserved(utxos: seq<BridgeUtxo>, p: nat, max: nat, tos: seq<nat>)
    requires |tos| > 0
    ensures EndPosition(utxos, p, max, tos) <= Position(utxos, AtBlock(tos[|tos| - 1]))
  {
  }

  /** Main chain blocks that never move backwards, from a checkpoint that the first one covers, never fall behind. */
  lemma {:induction false} MonotoneNeverBehind(utxos: seq<BridgeUtxo>, p: nat, max: nat, tos: seq<nat>)
    requires NonDecreasing(tos) && (|tos| > 0 ==> p <= Position(utxos, AtBlock(tos[0])))
    ensures NeverBehind(utxos, p, max, tos)
  {
    if |tos| > 0 {
      var k := |tos| - 1;
      MonotoneNeverBehind(utxos, p, max, tos[..k]);
      if k > 0 {
        EndAtMostObserved(utxos, p, max, tos[..k]);
        LaterBlockLaterPosition(utxos, tos[k - 1], tos[k]);
      }
    }
  }

  /** So with a positive limit and a main chain that is never observed backwards, every transfer is delivered exactly
      once. */
  lemma DeliversExactlyOnce(chain: MainChain, s: BridgeState, scripts: Scripts, max: nat, tos: seq<nat>, p: nat)
    requires chain.Valid() && max > 0 && NonDecreasing(tos) && IsAt(chain, s, scripts, p)
    requires |tos| > 0 ==> p <= Position(chain.utxosOf(scripts), AtBlock(tos[0]))
    ensures
      var n := EndPosition(chain.utxosOf(scripts), p, max, tos);
      && Execute(chain, s, max, tos).Some?
      && Delivered(chain, s, Execute(chain, s, max, tos).value, scripts, p, n)
      && (|tos| > 0 ==> n <= Position(chain.utxosOf(scripts), AtBlock(tos[|tos| - 1])))
  {
    MonotoneNeverBehind(chain.utxosOf(scripts), p, max, tos);
    ExactlyOnceIff(chain, s, scripts, max, tos, p);
  }

  /** Observing a block behind the checkpoint: the first block hands over nothing and moves back, and the second one
      delivers again what was delivered before. */
  lemma ObservingBackRepeats(chain: MainChain, s0: BridgeState, s: BridgeState, scripts: Scripts, max: nat,
                             back: nat, to: nat, p0: nat, p: nat)
    requires chain.Valid() && max > 0 && Delivered(chain, s0, s, scripts, p0, p)
    requires
      var q := Position(chain.utxosOf(scripts), AtBlock(back));
      p0 <= q < p && q < Position(chain.utxosOf(scripts), AtBlock(to))
    ensures
      var utxos := chain.utxosOf(scripts);
      var q := Position(utxos, AtBlock(back));
      var n := NextPosition(q, Position(utxos, AtBlock(to)), max);
      var s1 := ExecuteBlock(chain, s, max, back);
      var s2 := Execute(chain, s, max, [back, to]);
      && s1.Some? && s1.value.handled == s.handled && IsAt(chain, s1.value, scripts, q)
      && q < n && s2.Some? && IsAt(chain, s2.value, scripts, n)
      && s2.value.handled == s0.handled + Transfers(chain, utxos[p0..p]) + Transfers(chain, utxos[q..n])
  {
    var q := Position(chain.utxosOf(scripts), AtBlock(back));
    BlockDelivers(chain, s, scripts, max, back, p);
    var s1 := ExecuteBlock(chain, s, max, back).value;
    BlockDelivers(chain, s1, scripts, max, to, q);
    assert [back, to][..1] == [back] && [back][..0] == [];
    assert Execute(chain, s, max, []) == Some(s);
    assert Execute(chain, s, max, [back]) == Some(s1);
  }

  /** Position reached from `p` after a number of blocks that all observe up to position `q`. */
  function Drained(p: nat, q: nat, max: nat, blocks: nat): nat {
    if blocks == 0 then p else NextPosition(Drained(p, q, max, blocks - 1), q, max)
  }

  lemma {:induction false} DrainedIs(p: nat, q: nat, max: nat, blocks: nat)
    requires p <= q && max > 0
    ensures Drained(p, q, max, blocks) == if p + max * blocks <= q then p + max * blocks else q
  {
    if blocks > 0 {
      DrainedIs(p, q, max, blocks - 1);
      assert max * (blocks - 1) + max == max * blocks;
    }
  }

  /** While the observed block stands still, every block delivers a full batch until nothing is left. */
  lemma {:induction false} BacklogDrains(chain: MainChain, s: BridgeState, scripts: Scripts, max: nat, to: nat,
                                         tos: seq<nat>, p: nat)
    requires chain.Valid() && max > 0 && IsAt(chain, s, scripts, p)
    requires p <= Position(chain.utxosOf(scripts), AtBlock(to))
    requires forall i :: 0 <= i < |tos| ==> tos[i] == to
    ensures
      var q := Position(chain.utxosOf(scripts), AtBlock(to));
      var n := if p + max * |tos| <= q then p + max * |tos| else q;
      Execute(chain, s, max, tos).Some? && Delivered(chain, s, Execute(chain, s, max, tos).value, scripts, p, n)
  {
    var utxos := chain.utxosOf(scripts);
    var q := Position(utxos, AtBlock(to));
    DrainedIs(p, q, max, |tos|);
    if |tos| == 0 {
      assert utxos[p..p] == [];
    } else {
      var k := |tos| - 1;
      BacklogDrains(chain, s, scripts, max, to, tos[..k], p);
      DrainedIs(p, q, max, k);
      var s1 := Execute(chain, s, max, tos[..k]).value;
      var m := Drained(p, q, max, k);
      BlockDelivers(chain, s1, scripts, max, to, m);
      DeliveredThen(chain, s, s1, ExecuteBlock(chain, s1, max, to).value, scripts, p, m, NextPosition(m, q, max));
    }
  }

  /** A zero limit silently skips everything that is pending. */
  lemma ZeroLimitSkips(chain: MainChain, s: BridgeState, scripts: Scripts, to: nat, p: nat)
    requires chain.Valid() && IsAt(chain, s, scripts, p)
    ensures
      var s' := ExecuteBlock(chain, s, 0, to);
      && s'.Some?
      && s'.value.handled == s.handled
      && IsAt(chain, s'.value, scripts, Position(chain.utxosOf(scripts), AtBlock(to)))
  {
    var cp := Resolve(chain, s.checkpoint.value).value;
    CheckpointPosition(chain, scripts, cp, 0, to);
    ObservedSlice(chain.utxosOf(scripts), cp, 0, to);
  }
}
