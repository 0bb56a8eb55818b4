/** The amounts of token bridge transfers, compared with the tokens held at the illiquid circulating supply address. */
module BridgeTokens {
  import opened Prelude
  import opened BridgeSource
  import opened BridgePallet

  function TotalAmount(transfers: seq<Transfer>): nat {
    if |transfers| == 0 then 0 else transfers[0].amount + TotalAmount(transfers[1..])
  }

  /** By how much an output exceeds what its transaction spent from the address. */
  function Delta(u: BridgeUtxo): nat {
    if u.tokensOut > u.tokensIn then u.tokensOut - u.tokensIn else 0
  }

  function Deltas(utxos: seq<BridgeUtxo>): nat {
    if |utxos| == 0 then 0 else Delta(utxos[0]) + Deltas(utxos[1..])
  }

  /** A main chain transaction: the tokens it spends from the address and its outputs at the address. */
  datatype Transaction = Transaction(spent: nat, outputs: seq<BridgeUtxo>) {
    ghost predicate Valid() {
      forall u :: u in outputs ==> u.tokensIn == spent && u.tokensOut > 0
    }

    /** What the smart contracts enforce: who spends from the address creates at most one output there. */
    predicate FollowsContracts() {
      spent == 0 || |outputs| <= 1
    }

    function NetInflow(): nat {
      if Created(outputs) > spent then Created(outputs) - spent else 0
    }
  }

  function Created(outputs: seq<BridgeUtxo>): nat {
    if |outputs| == 0 then 0 else outputs[0].tokensOut + Created(outputs[1..])
  }

  // ---------------------------------------------------------------- one transaction

  lemma {:induction false} DeltasOfDeposit(outputs: seq<BridgeUtxo>)
    requires forall u :: u in outputs ==> u.tokensIn == 0
    ensures Deltas(outputs) == Created(outputs)
  {
    if |outputs| > 0 {
      DeltasOfDeposit(outputs[1..]);
    }
  }

  lemma {:induction false} DeltasOfWithdrawal(outputs: seq<BridgeUtxo>, spent: nat)
    requires (forall u :: u in outputs ==> u.tokensIn == spent) && Created(outputs) <= spent
    ensures Deltas(outputs) == 0
  {
    if |outputs| > 0 {
      DeltasOfWithdrawal(outputs[1..], spent);
    }
  }

  /** Every output that is compared with the spent tokens loses its share of them. */
  lemma {:induction false} DeltasAtMost(outputs: seq<BridgeUtxo>, spent: nat)
    requires |outputs| > 0 && forall u :: u in outputs ==> u.tokensIn == spent && u.tokensOut > 0
    ensures Deltas(outputs) + Min(spent, Created(outputs)) <= Created(outputs)
    ensures |outputs| > 1 && 0 < spent < Created(outputs) ==> Deltas(outputs) + spent < Created(outputs)
  {
    if |outputs| > 1 {
      DeltasAtMost(outputs[1..], spent);
      assert outputs[1] in outputs && outputs[1..][0] == outputs[1];
      assert Created(outputs[1..]) > 0;
    }
  }

  /** The transfers of a transaction add up to its net inflow exactly when it follows the contracts or has no net
      inflow. */
  lemma DeltasAreNetInflowIff(t: Transaction)
    requires t.Valid()
    ensures Deltas(t.outputs) == t.NetInflow() <==> t.FollowsContracts() || Created(t.outputs) <= t.spent
  {
    if t.spent == 0 {
      DeltasOfDeposit(t.outputs);
    } else if Created(t.outputs) <= t.spent {
      DeltasOfWithdrawal(t.outputs, t.spent);
    } else if |t.outputs| > 1 {
      DeltasAtMost(t.outputs, t.spent);
    } else if |t.outputs| == 1 {
      assert t.outputs[0] in t.outputs;
    }
  }

  // ---------------------------------------------------------------- 64-bit amounts

  ghost predicate FitsU64(utxos: seq<BridgeUtxo>) {
    forall u :: u in utxos ==> Delta(u) < U64_LIMIT
  }

  /** Transfers carry the deltas of their outputs, whatever the datums say, exactly when every delta fits 64 bits. */
  lemma {:induction false} AmountsAreDeltasIff(chain: MainChain, utxos: seq<BridgeUtxo>)
    ensures TotalAmount(Transfers(chain, utxos)) <= Deltas(utxos)
    ensures TotalAmount(Transfers(chain, utxos)) == Deltas(utxos) <==> FitsU64(utxos)
  {
    if |utxos| > 0 {
      AmountsAreDeltasIff(chain, utxos[1..]);
      AmountOfFirst(chain, utxos);
      assert FitsU64(utxos) <==> Delta(utxos[0]) < U64_LIMIT && FitsU64(utxos[1..]) by {
        assert forall u :: u in utxos <==> u == utxos[0] || u in utxos[1..];
      }
    }
  }

  lemma AmountOfFirst(chain: MainChain, utxos: seq<BridgeUtxo>)
    requires |utxos| > 0
    ensures TotalAmount(Transfers(chain, utxos)) ==
            Delta(utxos[0]) % U64_LIMIT + TotalAmount(Transfers(chain, utxos[1..]))
    ensures Delta(utxos[0]) % U64_LIMIT <= Delta(utxos[0])
    ensures Delta(utxos[0]) % U64_LIMIT == Delta(utxos[0]) <==> Delta(utxos[0]) < U64_LIMIT
  {
    var t := ToTransfer(chain, utxos[0]);
    var rest := Transfers(chain, utxos[1..]);
    if t.Some? {
      assert ([t.value] + rest)[1..] == rest;
    } else {
      assert [] + rest == rest;
    }
  }

  lemma {:induction false} TotalAmountConcat(a: seq<Transfer>, b: seq<Transfer>)
    ensures TotalAmount(a + b) == TotalAmount(a) + TotalAmount(b)
  {
    if |a| == 0 {
      assert a + b == b;
    } else {
      assert (a + b)[1..] == a[1..] + b;
      TotalAmountConcat(a[1..], b);
    }
  }

  // ---------------------------------------------------------------- whole runs

  function Outputs(txs: seq<Transaction>): seq<BridgeUtxo> {
    if |txs| == 0 then [] else txs[0].outputs + Outputs(txs[1..])
  }

  /** How much the tokens held at the address grow over the transactions. */
  function Growth(txs: seq<Transaction>): int {
    if |txs| == 0 then 0 else Created(txs[0].outputs) - txs[0].spent + Growth(txs[1..])
  }

  /** Transactions that follow the contracts and never take more out of the address than they put back. */
  ghost predicate OnlyDeposits(txs: seq<Transaction>) {
    forall t :: t in txs ==> t.Valid() && t.FollowsContracts() && t.spent <= Created(t.outputs)
  }

  lemma {:induction false} DeltasConcat(a: seq<BridgeUtxo>, b: seq<BridgeUtxo>)
    ensures Deltas(a + b) == Deltas(a) + Deltas(b)
  {
    if |a| == 0 {
      assert a + b == b;
    } else {
      assert (a + b)[1..] == a[1..] + b;
      DeltasConcat(a[1..], b);
    }
  }

  lemma {:induction false} DeltasAreGrowth(txs: seq<Transaction>)
    requires OnlyDeposits(txs)
    ensures Deltas(Outputs(txs)) == Growth(txs)
  {
    if |txs| > 0 {
      assert txs[0] in txs;
      DeltasAreNetInflowIff(txs[0]);
      DeltasConcat(txs[0].outputs, Outputs(txs[1..]));
      DeltasAreGrowth(txs[1..]);
    }
  }

  /** Conservation over every run: the amounts handed to the handler between two checkpoints add up to what the
      address gained from the transactions between them, exactly when every delta fits 64 bits. */
  lemma ReleasedIsGrowthIff(chain: MainChain, s: BridgeState, s': BridgeState, scripts: Scripts, p: nat, n: nat,
                            txs: seq<Transaction>)
    requires Delivered(chain, s, s', scripts, p, n) && OnlyDeposits(txs)
    requires chain.utxosOf(scripts)[p..n] == Outputs(txs)
    ensures TotalAmount(s'.handled) - TotalAmount(s.handled) == Growth(txs) <==> FitsU64(Outputs(txs))
  {
    TotalAmountConcat(s.handled, Transfers(chain, Outputs(txs)));
    AmountsAreDeltasIff(chain, Outputs(txs));
    DeltasAreGrowth(txs);
  }

  /** A run of blocks that conserves outputs releases what the address gained, exactly when every delta fits. */
  lemma RunReleasesGrowth(chain: MainChain, s: BridgeState, scripts: Scripts, max: nat, tos: seq<nat>, p: nat,
                          txs: seq<Transaction>)
    requires chain.Valid() && IsAt(chain, s, scripts, p)
    requires Conserves(chain.utxosOf(scripts), p, max, tos) && OnlyDeposits(txs)
    requires
      var utxos, n := chain.utxosOf(scripts), EndPosition(chain.utxosOf(scripts), p, max, tos);
      p <= n <= |utxos| && utxos[p..n] == Outputs(txs)
    ensures Execute(chain, s, max, tos).Some?
    ensures TotalAmount(Execute(chain, s, max, tos).value.handled) == TotalAmount(s.handled) + Growth(txs) <==>
            FitsU64(Outputs(txs))
  {
    var utxos := chain.utxosOf(scripts);
    ExactlyOnceIff(chain, s, scripts, max, tos, p);
    var n := EndPosition(utxos, p, max, tos);
    ReleasedIsGrowthIff(chain, s, Execute(chain, s, max, tos).value, scripts, p, n, txs);
  }

  /** A transaction that spends 10 tokens from the address and creates two outputs of 15 and 10 tokens brings 15 new
      tokens to the address, but its transfers carry only 5. */
  lemma SplitOutputsCarryLess(chain: MainChain, a: BridgeUtxo, b: BridgeUtxo)
    requires a.tokensIn == b.tokensIn == 10 && a.tokensOut == 15 && b.tokensOut == 10
    ensures Transaction(10, [a, b]).Valid() && Transaction(10, [a, b]).NetInflow() == 15
    ensures TotalAmount(Transfers(chain, [a, b])) == 5
  {
    assert [a, b][1..] == [b] && [b][1..] == [];
    assert Created([b]) == 10 && Deltas([b]) == 0;
    AmountsAreDeltasIff(chain, [a, b]);
  }
}
