/** Counting processed blocks by main chain epoch and producer. */
module BlockCounting {
  import opened Prelude
  import opened Collections
  import opened ProductionLog
  import opened SelectionEpochs

  /** Main chain epochs back at which data is read. */
  const DATA_MC_EPOCH_OFFSET: nat := 2

  datatype Clock = Clock(mc: MainchainEpochConfig, momentToMillis: nat -> nat)

  datatype CountError =
    | NoMainchainEpoch(error: EpochDerivationError)  // a panic in the data provider
    | McEpochBelowOffset(epoch: nat)

  type Counts = map<nat, map<Producer, nat>>

  function DataEpoch(clock: Clock, moment: nat): Result<nat, CountError>
    requires clock.mc.Valid()
  {
    match TimestampToMainchainEpoch(clock.mc, clock.momentToMillis(moment))
    case Err(e) => Err(NoMainchainEpoch(e))
    case Ok(epoch) =>
      if epoch < DATA_MC_EPOCH_OFFSET then Err(McEpochBelowOffset(epoch)) else Ok(epoch - DATA_MC_EPOCH_OFFSET)
  }

  /** Blocks count towards the epoch two before the one that contains them; the first two epochs have none, and times
      without a main chain epoch are a panic. */
  lemma DataEpochIsTwoBack(clock: Clock, moment: nat)
    requires clock.mc.Valid()
    ensures DataEpoch(clock, moment) == Err(NoMainchainEpoch(TimestampTooSmall)) <==>
            clock.momentToMillis(moment) < clock.mc.firstEpochTimestamp
    ensures forall k: nat :: InEpoch(clock.mc, clock.momentToMillis(moment), k) ==>
              var epoch := Min(clock.mc.firstEpochNumber + k, MAX_U32);
              DataEpoch(clock, moment) ==
              if k > MAX_I32 then Err(NoMainchainEpoch(EpochTooBig))
              else if epoch >= 2 then Ok(epoch - 2) else Err(McEpochBelowOffset(epoch))
  {
    MainchainEpochContainsTimestamp(clock.mc, clock.momentToMillis(moment));
  }

  function Lookup(counts: Counts, epoch: nat, producer: Producer): nat {
    if epoch in counts && producer in counts[epoch] then counts[epoch][producer] else 0
  }

  function Bump(counts: Counts, epoch: nat, producer: Producer): Counts {
    var producers := if epoch in counts then counts[epoch] else map[];
    counts[epoch := producers[producer := Lookup(counts, epoch, producer) + 1]]
  }

  /** The counting loop over `blocks`: it stops at the first block without a data epoch. */
  function CountOf(clock: Clock, blocks: seq<Entry>): Result<Counts, CountError>
    requires clock.mc.Valid()
  {
    if |blocks| == 0 then Ok(map[])
    else
      var n := |blocks| - 1;
      match CountOf(clock, blocks[..n])
      case Err(e) => Err(e)
      case Ok(counts) =>
        match DataEpoch(clock, blocks[n].moment)
        case Err(e) => Err(e)
        case Ok(epoch) => Ok(Bump(counts, epoch, blocks[n].producer))
  }

  method CountBlocks(clock: Clock, blocks: seq<Entry>) returns (r: Result<Counts, CountError>)
    requires clock.mc.Valid()
    ensures r == CountOf(clock, blocks)
  {
    var counts: Counts := map[];
    for i := 0 to |blocks|
      invariant CountOf(clock, blocks[..i]) == Ok(counts)
    {
      assert blocks[..i + 1][..i] == blocks[..i];
      var epoch := DataEpoch(clock, blocks[i].moment);
      if epoch.Err? {
        FirstErrorStays(clock, blocks, i + 1);
        return Err(epoch.error);
      }
      counts := Bump(counts, epoch.value, blocks[i].producer);
    }
    assert blocks[..|blocks|] == blocks;
    return Ok(counts);
  }

  lemma {:induction false} FirstErrorStays(clock: Clock, blocks: seq<Entry>, n: nat)
    requires clock.mc.Valid() && n <= |blocks| && CountOf(clock, blocks[..n]).Err?
    ensures CountOf(clock, blocks) == CountOf(clock, blocks[..n])
  {
    if n == |blocks| {
      assert blocks[..n] == blocks;
    } else {
      assert blocks[..|blocks| - 1][..n] == blocks[..n];
      FirstErrorStays(clock, blocks[..|blocks| - 1], n);
    }
  }

  // ---------------------------------------------------------------- reference definition

  /** What a block counts towards. */
  function KeyOf(clock: Clock): Entry -> Result<(nat, Producer), CountError>
    requires clock.mc.Valid()
  {
    (b: Entry) =>
      match DataEpoch(clock, b.moment)
      case Err(e) => Err(e)
      case Ok(epoch) => Ok((epoch, b.producer))
  }

  /** Number of blocks of `producer` whose data epoch is `epoch`. */
  function Occurrences(clock: Clock, blocks: seq<Entry>, epoch: nat, producer: Producer): nat
    requires clock.mc.Valid()
  {
    multiset(Map(KeyOf(clock), blocks))[Ok((epoch, producer))]
  }

  /** The sum of all counters. */
  ghost function Total(counts: Counts): nat {
    Sum(map epoch | epoch in counts :: Sum(counts[epoch]))
  }

  /** No zero counters and no empty inner maps: such maps are equal when their lookups are. */
  ghost predicate Compact(counts: Counts) {
    forall epoch :: epoch in counts ==>
      counts[epoch] != map[] && forall p :: p in counts[epoch] ==> counts[epoch][p] > 0
  }

  lemma MapLast(clock: Clock, blocks: seq<Entry>)
    requires clock.mc.Valid() && |blocks| > 0
    ensures
      var n := |blocks| - 1;
      multiset(Map(KeyOf(clock), blocks)) ==
      multiset(Map(KeyOf(clock), blocks[..n])) + multiset{KeyOf(clock)(blocks[n])}
  {
    var n := |blocks| - 1;
    assert Map(KeyOf(clock), blocks) == Map(KeyOf(clock), blocks[..n]) + [KeyOf(clock)(blocks[n])];
  }

  lemma {:induction false} CountSucceedsIff(clock: Clock, blocks: seq<Entry>)
    requires clock.mc.Valid()
    ensures CountOf(clock, blocks).Ok? <==> forall b :: b in blocks ==> DataEpoch(clock, b.moment).Ok?
  {
    if |blocks| > 0 {
      CountSucceedsIff(clock, blocks[..|blocks| - 1]);
    }
  }

  lemma {:induction false} CountersCompact(clock: Clock, blocks: seq<Entry>)
    requires clock.mc.Valid() && CountOf(clock, blocks).Ok?
    ensures Compact(CountOf(clock, blocks).value)
  {
    if |blocks| > 0 {
      var n := |blocks| - 1;
      CountersCompact(clock, blocks[..n]);
      var epoch := DataEpoch(clock, blocks[n].moment).value;
      assert blocks[n].producer in CountOf(clock, blocks).value[epoch];
    }
  }

  /** Every counter is the number of matching blocks, and only pairs with a block have a counter. */
  lemma {:induction false} CounterIsOccurrences(clock: Clock, blocks: seq<Entry>, epoch: nat, producer: Producer)
    requires clock.mc.Valid() && CountOf(clock, blocks).Ok?
    ensures
      var counts := CountOf(clock, blocks).value;
      && Lookup(counts, epoch, producer) == Occurrences(clock, blocks, epoch, producer)
      && (epoch in counts && producer in counts[epoch] <==> Occurrences(clock, blocks, epoch, producer) > 0)
  {
    if |blocks| > 0 {
      CounterIsOccurrences(clock, blocks[..|blocks| - 1], epoch, producer);
      MapLast(clock, blocks);
    }
  }

  lemma BumpTotal(counts: Counts, epoch: nat, producer: Producer)
    ensures Total(Bump(counts, epoch, producer)) == Total(counts) + 1
  {
    var sums := map e | e in counts :: Sum(counts[e]);
    var inner := if epoch in counts then counts[epoch] else map[];
    var bumped := Bump(counts, epoch, producer);
    SumUpdate(inner, producer, Lookup(counts, epoch, producer) + 1);
    SumUpdate(sums, epoch, Sum(bumped[epoch]));
    assert (map e | e in bumped :: Sum(bumped[e])) == sums[epoch := Sum(bumped[epoch])];
  }

  /** No block is counted twice or dropped: the counters add up to the number of blocks. */
  lemma {:induction false} CountersAddUp(clock: Clock, blocks: seq<Entry>)
    requires clock.mc.Valid() && CountOf(clock, blocks).Ok?
    ensures Total(CountOf(clock, blocks).value) == |blocks|
  {
    if |blocks| > 0 {
      var n := |blocks| - 1;
      CountersAddUp(clock, blocks[..n]);
      BumpTotal(CountOf(clock, blocks[..n]).value, DataEpoch(clock, blocks[n].moment).value, blocks[n].producer);
    }
  }

  /** The 32-bit counters cannot overflow below 2^32 blocks. */
  lemma CountersFitU32(clock: Clock, blocks: seq<Entry>, epoch: nat, producer: Producer)
    requires clock.mc.Valid() && CountOf(clock, blocks).Ok? && |blocks| < U32_LIMIT
    ensures Lookup(CountOf(clock, blocks).value, epoch, producer) < U32_LIMIT
  {
    CounterIsOccurrences(clock, blocks, epoch, producer);
    var keys := multiset(Map(KeyOf(clock), blocks));
    var key: Result<(nat, Producer), CountError> := Ok((epoch, producer));
    assert keys == keys[key := 0] + multiset{}[key := keys[key]];
    assert |keys| == |Map(KeyOf(clock), blocks)| == |blocks|;
  }

  lemma CompactEqual(c: Counts, d: Counts)
    requires Compact(c) && Compact(d)
    requires forall epoch: nat, p: Producer :: Lookup(c, epoch, p) == Lookup(d, epoch, p)
    ensures c == d
  {
    CompactWithin(c, d);
    CompactWithin(d, c);
    forall epoch | epoch in c ensures c[epoch] == d[epoch] {
      forall p | p in c[epoch] ensures p in d[epoch] && c[epoch][p] == d[epoch][p] {
        assert Lookup(c, epoch, p) == Lookup(d, epoch, p);
      }
      forall p | p in d[epoch] ensures p in c[epoch] {
        assert Lookup(c, epoch, p) == Lookup(d, epoch, p);
      }
    }
  }

  lemma CompactWithin(c: Counts, d: Counts)
    requires Compact(c)
    requires forall epoch: nat, p: Producer :: Lookup(c, epoch, p) == Lookup(d, epoch, p)
    ensures c.Keys <= d.Keys
  {
    forall epoch | epoch in c ensures epoch in d {
      var p :| p in c[epoch];
      assert Lookup(c, epoch, p) == Lookup(d, epoch, p);
    }
  }

  /** The order in which blocks are listed does not matter. */
  lemma CountIgnoresOrder(clock: Clock, blocks: seq<Entry>, reordered: seq<Entry>)
    requires clock.mc.Valid() && multiset(blocks) == multiset(reordered)
    ensures CountOf(clock, blocks).Ok? <==> CountOf(clock, reordered).Ok?
    ensures CountOf(clock, blocks).Ok? ==> CountOf(clock, blocks) == CountOf(clock, reordered)
  {
    CountSucceedsIff(clock, blocks);
    CountSucceedsIff(clock, reordered);
    assert forall b :: b in blocks <==> b in multiset(blocks);
    assert forall b :: b in reordered <==> b in multiset(reordered);
    if CountOf(clock, blocks).Ok? {
      CountersCompact(clock, blocks);
      CountersCompact(clock, reordered);
      MapPermutes(KeyOf(clock), blocks, reordered);
      var c, d := CountOf(clock, blocks).value, CountOf(clock, reordered).value;
      forall epoch: nat, p: Producer ensures Lookup(c, epoch, p) == Lookup(d, epoch, p) {
        CounterIsOccurrences(clock, blocks, epoch, p);
        CounterIsOccurrences(clock, reordered, epoch, p);
      }
      CompactEqual(c, d);
    }
  }
}
