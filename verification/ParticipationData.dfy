/** Block participation data: summaries computed by iterating over hash maps, put into a canonical order. */
module ParticipationData {
  import opened Prelude
  import opened Collections
  import opened ProductionLog
  import opened BlockCounting

  type PoolId(==, !new)
  type DelegatorKey(==, !new)
  type DelegatorId(==, !new)

  datatype Delegator = Delegator(id: DelegatorId, share: nat)

  datatype Participation = Participation(
    producer: Producer,
    blockCount: nat,
    totalShares: nat,
    delegators: seq<Delegator>)

  datatype PoolDelegation = PoolDelegation(totalStake: nat, delegators: map<DelegatorKey, nat>)

  datatype ParticipationError = DataSourceError(epoch: nat) | DataMissing(epoch: nat, producer: Producer)

  /** Chain-specific parts: which producers are stake pool operators, how delegator keys are converted, the delegation
      data source (which answers for a set of pools), and the orders of the identifier types. */
  datatype Setting = Setting(
    spoOf: Producer -> Option<PoolId>,
    delegatorOf: DelegatorKey -> DelegatorId,
    source: (nat, set<PoolId>) -> Option<map<PoolId, PoolDelegation>>,
    producerLeq: (Producer, Producer) -> bool,
    delegatorLeq: (DelegatorId, DelegatorId) -> bool)
  {
    ghost predicate Valid() {
      TotalOrder(producerLeq) && TotalOrder(delegatorLeq)
    }
  }

  // ---------------------------------------------------------------- derived orders

  predicate DelegatorLeq(st: Setting, a: Delegator, b: Delegator) {
    if a.id == b.id then a.share <= b.share else st.delegatorLeq(a.id, b.id)
  }

  /** Lexicographic order of delegator lists. */
  predicate DelegatorsLeq(st: Setting, a: seq<Delegator>, b: seq<Delegator>) {
    if |a| == 0 then true
    else if |b| == 0 then false
    else if a[0] == b[0] then DelegatorsLeq(st, a[1..], b[1..])
    else DelegatorLeq(st, a[0], b[0])
  }

  predicate ParticipationLeq(st: Setting, a: Participation, b: Participation) {
    if a.producer != b.producer then st.producerLeq(a.producer, b.producer)
    else if a.blockCount != b.blockCount then a.blockCount < b.blockCount
    else if a.totalShares != b.totalShares then a.totalShares < b.totalShares
    else DelegatorsLeq(st, a.delegators, b.delegators)
  }

  function DelegatorOrder(st: Setting): (Delegator, Delegator) -> bool {
    (a, b) => DelegatorLeq(st, a, b)
  }

  function ParticipationOrder(st: Setting): (Participation, Participation) -> bool {
    (a, b) => ParticipationLeq(st, a, b)
  }

  // ---------------------------------------------------------------- canonical form

  function WithSortedDelegators(st: Setting): Participation -> Participation {
    (p: Participation) => p.(delegators := Sort(DelegatorOrder(st), p.delegators))
  }

  /** `BlockProductionData::new`. */
  function Canonical(st: Setting, summaries: seq<Participation>): seq<Participation> {
    Sort(ParticipationOrder(st), Map(WithSortedDelegators(st), summaries))
  }

  method NewProductionData(st: Setting, summaries: seq<Participation>) returns (data: seq<Participation>)
    ensures data == Canonical(st, summaries)
  {
    data := summaries;
    for i := 0 to |summaries|
      invariant |data| == |summaries|
      invariant forall j :: 0 <= j < |data| ==>
        data[j] == if j < i then WithSortedDelegators(st)(summaries[j]) else summaries[j]
    {
      data := data[i := data[i].(delegators := Sort(DelegatorOrder(st), data[i].delegators))];
    }
    assert data == Map(WithSortedDelegators(st), summaries);
    data := Sort(ParticipationOrder(st), data);
  }

  // ---------------------------------------------------------------- iteration

  /** The orders in which a node happens to iterate over its maps. */
  datatype Iteration = Iteration(
    epochs: seq<nat>,
    producers: map<nat, seq<Producer>>,
    delegators: map<(nat, PoolId), seq<DelegatorKey>>)

  function PoolsOf(st: Setting, producers: set<Producer>): set<PoolId> {
    set p | p in producers && st.spoOf(p).Some? :: st.spoOf(p).value
  }

  function Fetch(st: Setting, counts: Counts, epoch: nat): Option<map<PoolId, PoolDelegation>>
    requires epoch in counts
  {
    st.source(epoch, PoolsOf(st, counts[epoch].Keys))
  }

  /** Each list visits every key of the map it iterates over exactly once. */
  ghost predicate ValidIteration(st: Setting, counts: Counts, it: Iteration) {
    && multiset(it.epochs) == multiset(counts.Keys)
    && it.producers.Keys == counts.Keys
    && (forall e :: e in counts ==> multiset(it.producers[e]) == multiset(counts[e].Keys))
    && (forall e, pool :: e in counts && Fetch(st, counts, e).Some? && pool in Fetch(st, counts, e).value ==>
          && (e, pool) in it.delegators
          && multiset(it.delegators[(e, pool)]) == multiset(Fetch(st, counts, e).value[pool].delegators.Keys))
  }

  function ToDelegator(st: Setting, shares: map<DelegatorKey, nat>): DelegatorKey -> Delegator {
    (k: DelegatorKey) => Delegator(st.delegatorOf(k), if k in shares then shares[k] else 0)
  }

  /** `production_breakdown_for`. */
  function Breakdown(st: Setting, it: Iteration, epoch: nat, producer: Producer, blockCount: nat,
                     distribution: map<PoolId, PoolDelegation>): Result<Participation, ParticipationError>
    requires forall pool :: pool in distribution ==> (epoch, pool) in it.delegators
  {
    match st.spoOf(producer)
    case None => Ok(Participation(producer, blockCount, 0, []))
    case Some(pool) =>
      if pool !in distribution then Err(DataMissing(epoch, producer))
      else
        var d := distribution[pool];
        Ok(Participation(producer, blockCount, d.totalStake,
                         Map(ToDelegator(st, d.delegators), it.delegators[(epoch, pool)])))
  }

  /** The inner loop: producers of one epoch. */
  function EpochSummaries(st: Setting, counts: Counts, it: Iteration, epoch: nat, producers: seq<Producer>)
    : Result<seq<Participation>, ParticipationError>
    requires ValidIteration(st, counts, it) && epoch in counts && Fetch(st, counts, epoch).Some?
    requires forall p :: p in producers ==> p in counts[epoch]
  {
    if |producers| == 0 then Ok([])
    else
      var n := |producers| - 1;
      match EpochSummaries(st, counts, it, epoch, producers[..n])
      case Err(e) => Err(e)
      case Ok(summaries) =>
        match Breakdown(st, it, epoch, producers[n], counts[epoch][producers[n]], Fetch(st, counts, epoch).value)
        case Err(e) => Err(e)
        case Ok(p) => Ok(summaries + [p])
  }

  lemma VisitsOnlyKeys<K>(order: seq<K>, keys: set<K>)
    requires multiset(order) == multiset(keys)
    ensures forall k :: k in order <==> k in keys
  {
    assert forall k :: k in order <==> k in multiset(order);
  }

  /** The outer loop: one data source query per epoch, then the inner loop. */
  function Summaries(st: Setting, counts: Counts, it: Iteration, epochs: seq<nat>)
    : Result<seq<Participation>, ParticipationError>
    requires ValidIteration(st, counts, it) && forall e :: e in epochs ==> e in counts
  {
    if |epochs| == 0 then Ok([])
    else
      var n := |epochs| - 1;
      match Summaries(st, counts, it, epochs[..n])
      case Err(e) => Err(e)
      case Ok(summaries) =>
        if Fetch(st, counts, epochs[n]).None? then Err(DataSourceError(epochs[n]))
        else
          VisitsOnlyKeys(it.producers[epochs[n]], counts[epochs[n]].Keys);
          match EpochSummaries(st, counts, it, epochs[n], it.producers[epochs[n]])
          case Err(e) => Err(e)
          case Ok(more) => Ok(summaries + more)
  }

  // ---------------------------------------------------------------- orders are total

  lemma DelegatorOrderIsTotal(st: Setting)
    requires st.Valid()
    ensures TotalOrder(DelegatorOrder(st))
  {
  }

  lemma {:induction false} DelegatorsTotal(st: Setting, a: seq<Delegator>, b: seq<Delegator>)
    requires st.Valid()
    ensures DelegatorsLeq(st, a, b) || DelegatorsLeq(st, b, a)
    ensures DelegatorsLeq(st, a, b) && DelegatorsLeq(st, b, a) ==> a == b
  {
    if |a| > 0 && |b| > 0 && a[0] == b[0] {
      DelegatorsTotal(st, a[1..], b[1..]);
      assert a == [a[0]] + a[1..] && b == [b[0]] + b[1..];
    }
  }

  lemma {:induction false} DelegatorsTransitive(st: Setting, a: seq<Delegator>, b: seq<Delegator>, c: seq<Delegator>)
    requires st.Valid() && DelegatorsLeq(st, a, b) && DelegatorsLeq(st, b, c)
    ensures DelegatorsLeq(st, a, c)
  {
    if |a| > 0 && a[0] == b[0] == c[0] {
      DelegatorsTransitive(st, a[1..], b[1..], c[1..]);
    }
  }

  lemma ParticipationOrderIsTotal(st: Setting)
    requires st.Valid()
    ensures TotalOrder(ParticipationOrder(st))
  {
    var leq := ParticipationOrder(st);
    forall a, b ensures (leq(a, b) || leq(b, a)) && (leq(a, b) && leq(b, a) ==> a == b) {
      DelegatorsTotal(st, a.delegators, b.delegators);
    }
    forall a, b, c | leq(a, b) && leq(b, c) ensures leq(a, c) {
      if DelegatorsLeq(st, a.delegators, b.delegators) && DelegatorsLeq(st, b.delegators, c.delegators) {
        DelegatorsTransitive(st, a.delegators, b.delegators, c.delegators);
      }
    }
  }

  // ---------------------------------------------------------------- summaries, pair by pair

  /** The summary of one epoch and producer, in canonical form; it mentions no iteration order. */
  ghost function CanonicalBreakdown(st: Setting, counts: Counts): ((nat, Producer)) -> Participation {
    (pair: (nat, Producer)) =>
      var blockCount := Lookup(counts, pair.0, pair.1);
      var pool := st.spoOf(pair.1);
      if || pool.None? || pair.0 !in counts || Fetch(st, counts, pair.0).None?
         || pool.value !in Fetch(st, counts, pair.0).value
      then Participation(pair.1, blockCount, 0, [])
      else
        var d := Fetch(st, counts, pair.0).value[pool.value];
        Participation(pair.1, blockCount, d.totalStake, SortedShares(st, d.delegators))
  }

  ghost function SortedShares(st: Setting, shares: map<DelegatorKey, nat>): seq<Delegator> {
    Sort(DelegatorOrder(st), Map(ToDelegator(st, shares), KeySequence(shares.Keys)))
  }

  /** Some listing of a finite set. */
  ghost function KeySequence(keys: set<DelegatorKey>): (order: seq<DelegatorKey>)
    ensures multiset(order) == multiset(keys)
  {
    if keys == {} then []
    else
      var k :| k in keys;
      assert keys == (keys - {k}) + {k};
      KeySequence(keys - {k}) + [k]
  }

  function Tag(epoch: nat): Producer -> (nat, Producer) {
    (p: Producer) => (epoch, p)
  }

  /** The pairs visited by the two loops, in order. */
  function Pairs(it: Iteration, epochs: seq<nat>): seq<(nat, Producer)>
    requires forall e :: e in epochs ==> e in it.producers
  {
    if |epochs| == 0 then []
    else
      var n := |epochs| - 1;
      Pairs(it, epochs[..n]) + Map(Tag(epochs[n]), it.producers[epochs[n]])
  }

  lemma BreakdownIsCanonical(st: Setting, counts: Counts, it: Iteration, epoch: nat, producer: Producer)
    requires st.Valid() && ValidIteration(st, counts, it)
    requires epoch in counts && producer in counts[epoch] && Fetch(st, counts, epoch).Some?
    ensures
      var r := Breakdown(st, it, epoch, producer, counts[epoch][producer], Fetch(st, counts, epoch).value);
      && (r.Ok? <==> (st.spoOf(producer).Some? ==> st.spoOf(producer).value in Fetch(st, counts, epoch).value))
      && (r.Ok? ==> WithSortedDelegators(st)(r.value) == CanonicalBreakdown(st, counts)((epoch, producer)))
  {
    var pool := st.spoOf(producer);
    var distribution := Fetch(st, counts, epoch).value;
    if pool.Some? && pool.value in distribution {
      var shares := distribution[pool.value].delegators;
      var order := it.delegators[(epoch, pool.value)];
      MapPermutes(ToDelegator(st, shares), order, KeySequence(shares.Keys));
      DelegatorOrderIsTotal(st);
      SortCanonical(DelegatorOrder(st), Map(ToDelegator(st, shares), order),
                    Map(ToDelegator(st, shares), KeySequence(shares.Keys)));
    }
  }

  ghost predicate PairAvailable(st: Setting, counts: Counts, epoch: nat, producer: Producer)
    requires epoch in counts && Fetch(st, counts, epoch).Some?
  {
    st.spoOf(producer).Some? ==> st.spoOf(producer).value in Fetch(st, counts, epoch).value
  }

  lemma {:induction false} EpochSucceedsIff(st: Setting, counts: Counts, it: Iteration, epoch: nat,
                                            producers: seq<Producer>)
    requires ValidIteration(st, counts, it)
    requires epoch in counts && Fetch(st, counts, epoch).Some?
    requires forall p :: p in producers ==> p in counts[epoch]
    ensures EpochSummaries(st, counts, it, epoch, producers).Ok? <==>
            forall p :: p in producers ==> PairAvailable(st, counts, epoch, p)
  {
    if |producers| > 0 {
      var n := |producers| - 1;
      EpochSucceedsIff(st, counts, it, epoch, producers[..n]);
      assert PairAvailable(st, counts, epoch, producers[n]) ==
             Breakdown(st, it, epoch, producers[n], counts[epoch][producers[n]], Fetch(st, counts, epoch).value).Ok?;
      assert forall p :: p in producers <==> p in producers[..n] || p == producers[n];
    }
  }

  lemma {:induction false} EpochSummariesArePairs(st: Setting, counts: Counts, it: Iteration, epoch: nat,
                                                  producers: seq<Producer>)
    requires st.Valid() && ValidIteration(st, counts, it)
    requires epoch in counts && Fetch(st, counts, epoch).Some?
    requires forall p :: p in producers ==> p in counts[epoch]
    requires EpochSummaries(st, counts, it, epoch, producers).Ok?
    ensures Map(WithSortedDelegators(st), EpochSummaries(st, counts, it, epoch, producers).value) ==
            Map(CanonicalBreakdown(st, counts), Map(Tag(epoch), producers))
  {
    if |producers| > 0 {
      var n := |producers| - 1;
      EpochSummariesArePairs(st, counts, it, epoch, producers[..n]);
      var before := EpochSummaries(st, counts, it, epoch, producers[..n]).value;
      var distribution := Fetch(st, counts, epoch).value;
      var last := Breakdown(st, it, epoch, producers[n], counts[epoch][producers[n]], distribution).value;
      BreakdownIsCanonical(st, counts, it, epoch, producers[n]);
      MapSnoc(WithSortedDelegators(st), before, last);
      MapSnoc(Tag(epoch), producers[..n], producers[n]);
      MapSnoc(CanonicalBreakdown(st, counts), Map(Tag(epoch), producers[..n]), (epoch, producers[n]));
      assert producers == producers[..n] + [producers[n]];
    }
  }

  ghost predicate EpochAvailable(st: Setting, counts: Counts, epoch: nat)
    requires epoch in counts
  {
    Fetch(st, counts, epoch).Some? && forall p :: p in counts[epoch] ==> PairAvailable(st, counts, epoch, p)
  }

  lemma {:induction false} SucceedsIff(st: Setting, counts: Counts, it: Iteration, epochs: seq<nat>)
    requires ValidIteration(st, counts, it) && forall e :: e in epochs ==> e in counts
    ensures Summaries(st, counts, it, epochs).Ok? <==> forall e :: e in epochs ==> EpochAvailable(st, counts, e)
  {
    if |epochs| > 0 {
      var n := |epochs| - 1;
      SucceedsIff(st, counts, it, epochs[..n]);
      assert forall e :: e in epochs <==> e in epochs[..n] || e == epochs[n];
      if Fetch(st, counts, epochs[n]).Some? {
        var producers := it.producers[epochs[n]];
        VisitsOnlyKeys(producers, counts[epochs[n]].Keys);
        EpochSucceedsIff(st, counts, it, epochs[n], producers);
        assert EpochAvailable(st, counts, epochs[n]) == EpochSummaries(st, counts, it, epochs[n], producers).Ok?;
      } else {
        assert !EpochAvailable(st, counts, epochs[n]);
      }
    }
  }

  lemma {:induction false} SummariesArePairs(st: Setting, counts: Counts, it: Iteration, epochs: seq<nat>)
    requires st.Valid() && ValidIteration(st, counts, it) && forall e :: e in epochs ==> e in counts
    requires Summaries(st, counts, it, epochs).Ok?
    ensures Map(WithSortedDelegators(st), Summaries(st, counts, it, epochs).value) ==
            Map(CanonicalBreakdown(st, counts), Pairs(it, epochs))
  {
    if |epochs| > 0 {
      var n := |epochs| - 1;
      var producers := it.producers[epochs[n]];
      SummariesArePairs(st, counts, it, epochs[..n]);
      VisitsOnlyKeys(producers, counts[epochs[n]].Keys);
      EpochSummariesArePairs(st, counts, it, epochs[n], producers);
      MapConcat(WithSortedDelegators(st), Summaries(st, counts, it, epochs[..n]).value,
                EpochSummaries(st, counts, it, epochs[n], producers).value);
      MapConcat(CanonicalBreakdown(st, counts), Pairs(it, epochs[..n]), Map(Tag(epochs[n]), producers));
    }
  }

  /** When no epoch is listed twice, a pair is visited as often as its producer is listed under its epoch. */
  lemma {:induction false} PairCount(it: Iteration, epochs: seq<nat>, epoch: nat, producer: Producer)
    requires forall e :: e in epochs ==> e in it.producers
    requires forall e :: multiset(epochs)[e] <= 1
    ensures multiset(Pairs(it, epochs))[(epoch, producer)] ==
            if epoch in epochs then multiset(it.producers[epoch])[producer] else 0
  {
    if |epochs| > 0 {
      var n := |epochs| - 1;
      assert epochs == epochs[..n] + [epochs[n]];
      forall e ensures multiset(epochs[..n])[e] <= 1 && (e == epochs[n] ==> e !in epochs[..n]) {
        SnocCount(epochs[..n], epochs[n], e);
      }
      PairCount(it, epochs[..n], epoch, producer);
      TagCount(epochs[n], it.producers[epochs[n]], epoch, producer);
      ConcatCount(Pairs(it, epochs[..n]), Map(Tag(epochs[n]), it.producers[epochs[n]]), (epoch, producer));
    }
  }

  lemma ConcatCount<T>(xs: seq<T>, ys: seq<T>, z: T)
    ensures multiset(xs + ys)[z] == multiset(xs)[z] + multiset(ys)[z]
  {
  }

  lemma SnocCount<T>(xs: seq<T>, x: T, y: T)
    ensures multiset(xs + [x])[y] == multiset(xs)[y] + if x == y then 1 else 0
  {
  }

  lemma {:induction false} TagCount(tag: nat, producers: seq<Producer>, epoch: nat, producer: Producer)
    ensures multiset(Map(Tag(tag), producers))[(epoch, producer)] ==
            if tag == epoch then multiset(producers)[producer] else 0
  {
    if |producers| > 0 {
      var n := |producers| - 1;
      TagCount(tag, producers[..n], epoch, producer);
      MapSnoc(Tag(tag), producers[..n], producers[n]);
      SnocCount(producers[..n], producers[n], producer);
      SnocCount(Map(Tag(tag), producers[..n]), (tag, producers[n]), (epoch, producer));
      assert producers == producers[..n] + [producers[n]];
    }
  }

  /** Each counted pair is visited exactly once, and no other pair is. */
  lemma PairsVisitedOnce(st: Setting, counts: Counts, it: Iteration, epoch: nat, producer: Producer)
    requires ValidIteration(st, counts, it)
    ensures (forall e :: e in it.epochs ==> e in it.producers)
    ensures multiset(Pairs(it, it.epochs))[(epoch, producer)] ==
            if epoch in counts && producer in counts[epoch] then 1 else 0
  {
    VisitsOnlyKeys(it.epochs, counts.Keys);
    PairCount(it, it.epochs, epoch, producer);
  }

  // ---------------------------------------------------------------- main results

  /** Inherent data of a node that iterates in the order `it`. */
  function InherentData(st: Setting, counts: Counts, it: Iteration): Result<seq<Participation>, ParticipationError>
    requires ValidIteration(st, counts, it)
  {
    VisitsOnlyKeys(it.epochs, counts.Keys);
    match Summaries(st, counts, it, it.epochs)
    case Err(e) => Err(e)
    case Ok(summaries) => Ok(Canonical(st, summaries))
  }

  /** Success does not depend on the iteration order: it needs the delegations of every counted stake pool. */
  lemma DataAvailableIff(st: Setting, counts: Counts, it: Iteration)
    requires ValidIteration(st, counts, it)
    ensures InherentData(st, counts, it).Ok? <==> forall e :: e in counts ==> EpochAvailable(st, counts, e)
  {
    VisitsOnlyKeys(it.epochs, counts.Keys);
    SucceedsIff(st, counts, it, it.epochs);
  }

  /** Two iterations visit the same pairs. */
  lemma PairsPermute(st: Setting, counts: Counts, it: Iteration, it': Iteration)
    requires ValidIteration(st, counts, it) && ValidIteration(st, counts, it')
    ensures (forall e :: e in it.epochs ==> e in it.producers) && (forall e :: e in it'.epochs ==> e in it'.producers)
    ensures multiset(Pairs(it, it.epochs)) == multiset(Pairs(it', it'.epochs))
  {
    VisitsOnlyKeys(it.epochs, counts.Keys);
    VisitsOnlyKeys(it'.epochs, counts.Keys);
    forall pair: (nat, Producer)
      ensures multiset(Pairs(it, it.epochs))[pair] == multiset(Pairs(it', it'.epochs))[pair]
    {
      PairsVisitedOnce(st, counts, it, pair.0, pair.1);
      PairsVisitedOnce(st, counts, it', pair.0, pair.1);
    }
  }

  /** Successful data is the sorted list of one canonical summary per counted pair. */
  lemma DataIsSortedSummaries(st: Setting, counts: Counts, it: Iteration)
    requires st.Valid() && ValidIteration(st, counts, it) && InherentData(st, counts, it).Ok?
    ensures (forall e :: e in it.epochs ==> e in it.producers)
    ensures InherentData(st, counts, it).value ==
            Sort(ParticipationOrder(st), Map(CanonicalBreakdown(st, counts), Pairs(it, it.epochs)))
  {
    VisitsOnlyKeys(it.epochs, counts.Keys);
    SummariesArePairs(st, counts, it, it.epochs);
  }

  /** Whatever orders two nodes iterate in, they fail together or produce the same data. */
  lemma DataIsCanonical(st: Setting, counts: Counts, it: Iteration, it': Iteration)
    requires st.Valid() && ValidIteration(st, counts, it) && ValidIteration(st, counts, it')
    ensures InherentData(st, counts, it).Ok? <==> InherentData(st, counts, it').Ok?
    ensures InherentData(st, counts, it).Ok? ==> InherentData(st, counts, it) == InherentData(st, counts, it')
  {
    DataAvailableIff(st, counts, it);
    DataAvailableIff(st, counts, it');
    if InherentData(st, counts, it).Ok? {
      DataIsSortedSummaries(st, counts, it);
      DataIsSortedSummaries(st, counts, it');
      PairsPermute(st, counts, it, it');
      var summary := CanonicalBreakdown(st, counts);
      MapPermutes(summary, Pairs(it, it.epochs), Pairs(it', it'.epochs));
      ParticipationOrderIsTotal(st);
      SortCanonical(ParticipationOrder(st), Map(summary, Pairs(it, it.epochs)), Map(summary, Pairs(it', it'.epochs)));
    }
  }

  /** Data is listed by producer; entries of one producer for several epochs follow block count, then shares, then
      delegators. */
  lemma DataIsOrdered(st: Setting, counts: Counts, it: Iteration)
    requires st.Valid() && ValidIteration(st, counts, it)
    ensures InherentData(st, counts, it).Ok? ==> Listed(st, InherentData(st, counts, it).value)
  {
    if InherentData(st, counts, it).Ok? {
      DataIsSortedSummaries(st, counts, it);
      SortIsListed(st, Map(CanonicalBreakdown(st, counts), Pairs(it, it.epochs)));
    }
  }

  lemma SortIsListed(st: Setting, summaries: seq<Participation>)
    requires st.Valid()
    ensures Listed(st, Sort(ParticipationOrder(st), summaries))
  {
    ParticipationOrderIsTotal(st);
    SortSorted(ParticipationOrder(st), summaries);
    var data := Sort(ParticipationOrder(st), summaries);
    forall i, j | 0 <= i < j < |data| ensures ListedBefore(st, data[i], data[j]) {
      assert ParticipationOrder(st)(data[i], data[j]);
      if DelegatorsLeq(st, data[i].delegators, data[j].delegators) {
        DelegatorsLeqIsLexicographic(st, data[i].delegators, data[j].delegators);
      }
    }
  }

  ghost predicate Listed(st: Setting, data: seq<Participation>) {
    forall i, j :: 0 <= i < j < |data| ==> ListedBefore(st, data[i], data[j])
  }

  ghost predicate ListedBefore(st: Setting, a: Participation, b: Participation) {
    && st.producerLeq(a.producer, b.producer)
    && (a.producer == b.producer ==> a.blockCount <= b.blockCount)
    && (a.producer == b.producer && a.blockCount == b.blockCount ==> a.totalShares <= b.totalShares)
    && (a.producer == b.producer && a.blockCount == b.blockCount && a.totalShares == b.totalShares ==>
          Lexicographic(st, a.delegators, b.delegators))
  }

  /** The lists first differ at `n`, and the difference is decided by identifier, then by share. */
  ghost predicate DecidedAt(st: Setting, a: seq<Delegator>, b: seq<Delegator>, n: nat) {
    && n < |a| && n < |b| && a[..n] == b[..n] && a[n] != b[n]
    && if a[n].id == b[n].id then a[n].share < b[n].share else st.delegatorLeq(a[n].id, b[n].id)
  }

  /** The first list is a prefix of the second, or the first difference decides. */
  ghost predicate Lexicographic(st: Setting, a: seq<Delegator>, b: seq<Delegator>) {
    a <= b || exists n: nat :: DecidedAt(st, a, b, n)
  }

  lemma DecidedLater(st: Setting, a: seq<Delegator>, b: seq<Delegator>, n: nat)
    requires |a| > 0 && |b| > 0 && a[0] == b[0] && DecidedAt(st, a[1..], b[1..], n)
    ensures DecidedAt(st, a, b, n + 1)
  {
    assert a[..n + 1] == [a[0]] + a[1..][..n];
    assert b[..n + 1] == [b[0]] + b[1..][..n];
  }

  lemma {:induction false} DelegatorsLeqIsLexicographic(st: Setting, a: seq<Delegator>, b: seq<Delegator>)
    requires DelegatorsLeq(st, a, b)
    ensures Lexicographic(st, a, b)
  {
    if |a| > 0 && a[0] == b[0] {
      DelegatorsLeqIsLexicographic(st, a[1..], b[1..]);
      if a[1..] <= b[1..] {
        assert a == [a[0]] + a[1..] && b == [b[0]] + b[1..];
      } else {
        var n: nat :| DecidedAt(st, a[1..], b[1..], n);
        DecidedLater(st, a, b, n);
      }
    } else if |a| > 0 {
      assert DecidedAt(st, a, b, 0);
    }
  }

  /** The whole computation of a node from the processed blocks; `Err` holds the error of whichever part failed. */
  function NodeData(st: Setting, clock: Clock, blocks: seq<Entry>, it: Iteration)
    : Result<seq<Participation>, NodeError>
    requires clock.mc.Valid()
    requires CountOf(clock, blocks).Ok? ==> ValidIteration(st, CountOf(clock, blocks).value, it)
  {
    match CountOf(clock, blocks)
    case Err(e) => Err(CountFailed(e))
    case Ok(counts) =>
      match InherentData(st, counts, it)
      case Err(e) => Err(DataFailed(e))
      case Ok(data) => Ok(data)
  }

  datatype NodeError = CountFailed(count: CountError) | DataFailed(data: ParticipationError)

  /** Proposer and verifier agree on the participation data of a block: the same processed blocks, listed in any order
      and aggregated through maps iterated in any order, give the same inherent data, or fail on both sides and in the
      same part of the computation. */
  lemma NodesAgreeOnParticipation(st: Setting, clock: Clock, blocks: seq<Entry>, blocks': seq<Entry>,
                                  it: Iteration, it': Iteration)
    requires st.Valid() && clock.mc.Valid() && multiset(blocks) == multiset(blocks')
    requires CountOf(clock, blocks).Ok? ==> ValidIteration(st, CountOf(clock, blocks).value, it)
    requires CountOf(clock, blocks').Ok? ==> ValidIteration(st, CountOf(clock, blocks').value, it')
    ensures
      var data, data' := NodeData(st, clock, blocks, it), NodeData(st, clock, blocks', it');
      && (data.Ok? <==> data'.Ok?)
      && (data.Ok? ==> data == data')
      && (data.Err? ==> (data.error.CountFailed? <==> data'.error.CountFailed?))
  {
    CountIgnoresOrder(clock, blocks, blocks');
    if CountOf(clock, blocks).Ok? {
      DataIsCanonical(st, CountOf(clock, blocks).value, it, it');
    }
  }

  /** The inner loop of the data provider. */
  method SummariseEpoch(st: Setting, counts: Counts, it: Iteration, epoch: nat, producers: seq<Producer>,
                        distribution: map<PoolId, PoolDelegation>)
    returns (r: Result<seq<Participation>, ParticipationError>)
    requires ValidIteration(st, counts, it) && epoch in counts && Fetch(st, counts, epoch) == Some(distribution)
    requires forall p :: p in producers ==> p in counts[epoch]
    ensures r == EpochSummaries(st, counts, it, epoch, producers)
  {
    var summaries: seq<Participation> := [];
    for j := 0 to |producers|
      invariant EpochSummaries(st, counts, it, epoch, producers[..j]) == Ok(summaries)
    {
      assert producers[..j + 1][..j] == producers[..j];
      var breakdown := Breakdown(st, it, epoch, producers[j], counts[epoch][producers[j]], distribution);
      if breakdown.Err? {
        EpochErrorStays(st, counts, it, epoch, producers, j + 1);
        return Err(breakdown.error);
      }
      summaries := summaries + [breakdown.value];
    }
    assert producers[..|producers|] == producers;
    return Ok(summaries);
  }

  /** The outer loop of the data provider. */
  method SummariseEpochs(st: Setting, counts: Counts, it: Iteration, epochs: seq<nat>)
    returns (r: Result<seq<Participation>, ParticipationError>)
    requires ValidIteration(st, counts, it) && forall e :: e in epochs ==> e in counts
    ensures r == Summaries(st, counts, it, epochs)
  {
    var summaries: seq<Participation> := [];
    for i := 0 to |epochs|
      invariant Summaries(st, counts, it, epochs[..i]) == Ok(summaries)
    {
      var epoch := epochs[i];
      assert epochs[..i + 1][..i] == epochs[..i];
      var distribution := Fetch(st, counts, epoch);
      if distribution.None? {
        FirstErrorStays(st, counts, it, epochs, i + 1);
        return Err(DataSourceError(epoch));
      }
      VisitsOnlyKeys(it.producers[epoch], counts[epoch].Keys);
      var more := SummariseEpoch(st, counts, it, epoch, it.producers[epoch], distribution.value);
      if more.Err? {
        FirstErrorStays(st, counts, it, epochs, i + 1);
        return more;
      }
      summaries := summaries + more.value;
    }
    assert epochs[..|epochs|] == epochs;
    return Ok(summaries);
  }

  /** The data provider: both loops, then the canonical ordering of the result. */
  method ProductionData(st: Setting, counts: Counts, it: Iteration)
    returns (r: Result<seq<Participation>, ParticipationError>)
    requires ValidIteration(st, counts, it)
    ensures r == InherentData(st, counts, it)
  {
    VisitsOnlyKeys(it.epochs, counts.Keys);
    r := SummariseEpochs(st, counts, it, it.epochs);
    if r.Ok? {
      var data := NewProductionData(st, r.value);
      return Ok(data);
    }
  }

  lemma {:induction false} EpochErrorStays(st: Setting, counts: Counts, it: Iteration, epoch: nat,
                                           producers: seq<Producer>, n: nat)
    requires ValidIteration(st, counts, it) && epoch in counts && Fetch(st, counts, epoch).Some?
    requires (forall p :: p in producers ==> p in counts[epoch]) && n <= |producers|
    requires EpochSummaries(st, counts, it, epoch, producers[..n]).Err?
    ensures EpochSummaries(st, counts, it, epoch, producers) == EpochSummaries(st, counts, it, epoch, producers[..n])
  {
    if n == |producers| {
      assert producers[..n] == producers;
    } else {
      assert producers[..|producers| - 1][..n] == producers[..n];
      EpochErrorStays(st, counts, it, epoch, producers[..|producers| - 1], n);
    }
  }

  lemma {:induction false} FirstErrorStays(st: Setting, counts: Counts, it: Iteration, epochs: seq<nat>, n: nat)
    requires ValidIteration(st, counts, it) && (forall e :: e in epochs ==> e in counts) && n <= |epochs|
    requires Summaries(st, counts, it, epochs[..n]).Err?
    ensures Summaries(st, counts, it, epochs) == Summaries(st, counts, it, epochs[..n])
  {
    if n == |epochs| {
      assert epochs[..n] == epochs;
    } else {
      assert epochs[..|epochs| - 1][..n] == epochs[..n];
      FirstErrorStays(st, counts, it, epochs[..|epochs| - 1], n);
    }
  }
}
