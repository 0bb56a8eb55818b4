/** Who receives the transfers of the token bridge. */
module BridgeRecipients {
  import opened Prelude
  import opened Collections
  import opened BridgeSource
  import opened BridgePallet

  /** Amount of a transfer to the recipient. */
  function ToUser(r: Recipient): Transfer -> Option<nat> {
    (t: Transfer) => if t.UserTransfer? && t.recipient == r then Some(t.amount) else None
  }

  function ToReserve(): Transfer -> Option<nat> {
    (t: Transfer) => if t.ReserveTransfer? then Some(t.amount) else None
  }

  /** Output and amount of an invalid transfer. */
  function ToNobody(): Transfer -> Option<(UtxoId, nat)> {
    (t: Transfer) => if t.InvalidTransfer? then Some((t.utxo, t.amount)) else None
  }

  /** What an output adds to the address, as a 64-bit amount; nothing if it adds none. */
  function Added(u: BridgeUtxo): Option<nat> {
    if u.tokensOut > u.tokensIn then Some((u.tokensOut - u.tokensIn) % U64_LIMIT) else None
  }

  function DatumOf(chain: MainChain, u: BridgeUtxo): ParsedDatum {
    if u.datum.Some? then chain.parse(u.datum.value) else Unparsable
  }

  /** What an output whose datum names the recipient adds. */
  function SentTo(chain: MainChain, r: Recipient): BridgeUtxo -> Option<nat> {
    (u: BridgeUtxo) => if DatumOf(chain, u) == UserDatum(Some(r)) then Added(u) else None
  }

  function SentToReserve(chain: MainChain): BridgeUtxo -> Option<nat> {
    (u: BridgeUtxo) => if DatumOf(chain, u) == ReserveDatum then Added(u) else None
  }

  /** An output that adds tokens for nobody: its datum is missing or malformed, or its recipient is. */
  function Unclaimed(chain: MainChain): BridgeUtxo -> Option<(UtxoId, nat)> {
    (u: BridgeUtxo) =>
      if DatumOf(chain, u) in {Unparsable, UserDatum(None)} && Added(u).Some? then Some((u.id, Added(u).value))
      else None
  }

  lemma {:induction false} PickTransfers<B>(chain: MainChain, utxos: seq<BridgeUtxo>, f: Transfer -> Option<B>,
                                            g: BridgeUtxo -> Option<B>)
    requires forall u :: u in utxos ==>
               g(u) == if ToTransfer(chain, u).Some? then f(ToTransfer(chain, u).value) else None
    ensures Pick(f, Transfers(chain, utxos)) == Pick(g, utxos)
  {
    if |utxos| > 0 {
      PickTransfers(chain, utxos[1..], f, g);
      var t, rest := ToTransfer(chain, utxos[0]), Transfers(chain, utxos[1..]);
      if t.Some? {
        assert ([t.value] + rest)[1..] == rest;
      } else {
        assert [] + rest == rest;
      }
    }
  }

  /** The transfers of some outputs, told from their tokens and datums alone: every recipient gets, in order, what the
      outputs that name it add; the reserve gets what the reserve outputs add; and every other output that adds tokens
      gives one invalid transfer with its id. */
  lemma TransfersReachOwners(chain: MainChain, utxos: seq<BridgeUtxo>, r: Recipient)
    ensures Pick(ToUser(r), Transfers(chain, utxos)) == Pick(SentTo(chain, r), utxos)
    ensures Pick(ToReserve(), Transfers(chain, utxos)) == Pick(SentToReserve(chain), utxos)
    ensures Pick(ToNobody(), Transfers(chain, utxos)) == Pick(Unclaimed(chain), utxos)
  {
    PickTransfers(chain, utxos, ToUser(r), SentTo(chain, r));
    PickTransfers(chain, utxos, ToReserve(), SentToReserve(chain));
    PickTransfers(chain, utxos, ToNobody(), Unclaimed(chain));
  }

  /** Between two checkpoints the handler received this and nothing else. */
  lemma DeliveredReachesOwners(chain: MainChain, s: BridgeState, s': BridgeState, scripts: Scripts, p: nat, n: nat,
                               r: Recipient)
    requires Delivered(chain, s, s', scripts, p, n)
    ensures
      var utxos := chain.utxosOf(scripts)[p..n];
      && Pick(ToUser(r), s'.handled) == Pick(ToUser(r), s.handled) + Pick(SentTo(chain, r), utxos)
      && Pick(ToReserve(), s'.handled) == Pick(ToReserve(), s.handled) + Pick(SentToReserve(chain), utxos)
      && Pick(ToNobody(), s'.handled) == Pick(ToNobody(), s.handled) + Pick(Unclaimed(chain), utxos)
  {
    var utxos := chain.utxosOf(scripts)[p..n];
    TransfersReachOwners(chain, utxos, r);
    PickConcat(ToUser(r), s.handled, Transfers(chain, utxos));
    PickConcat(ToReserve(), s.handled, Transfers(chain, utxos));
    PickConcat(ToNobody(), s.handled, Transfers(chain, utxos));
  }

  lemma {:induction false} TotalConcat(a: seq<nat>, b: seq<nat>)
    ensures TotalOf(a + b) == TotalOf(a) + TotalOf(b)
  {
    if |a| == 0 {
      assert a + b == b;
    } else {
      assert (a + b)[1..] == a[1..] + b;
      TotalConcat(a[1..], b);
    }
  }

  /** Over every run that conserves outputs, the amounts released to a recipient add up to what the outputs that name it
      added between the initial and the final checkpoint, and likewise for the reserve. */
  lemma RunPaysRecipients(chain: MainChain, s: BridgeState, scripts: Scripts, max: nat, tos: seq<nat>, p: nat,
                          r: Recipient)
    requires chain.Valid() && IsAt(chain, s, scripts, p) && Conserves(chain.utxosOf(scripts), p, max, tos)
    ensures
      var n := EndPosition(chain.utxosOf(scripts), p, max, tos);
      var s' := Execute(chain, s, max, tos);
      && s'.Some? && p <= n <= |chain.utxosOf(scripts)|
      && TotalOf(Pick(ToUser(r), s'.value.handled)) ==
         TotalOf(Pick(ToUser(r), s.handled)) + TotalOf(Pick(SentTo(chain, r), chain.utxosOf(scripts)[p..n]))
      && TotalOf(Pick(ToReserve(), s'.value.handled)) ==
         TotalOf(Pick(ToReserve(), s.handled)) + TotalOf(Pick(SentToReserve(chain), chain.utxosOf(scripts)[p..n]))
  {
    ExactlyOnceIff(chain, s, scripts, max, tos, p);
    var n := EndPosition(chain.utxosOf(scripts), p, max, tos);
    var utxos := chain.utxosOf(scripts)[p..n];
    DeliveredReachesOwners(chain, s, Execute(chain, s, max, tos).value, scripts, p, n, r);
    TotalConcat(Pick(ToUser(r), s.handled), Pick(SentTo(chain, r), utxos));
    TotalConcat(Pick(ToReserve(), s.handled), Pick(SentToReserve(chain), utxos));
  }
}
