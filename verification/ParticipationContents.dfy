/** What the block participation data says about each counted producer. */
module ParticipationContents {
  import opened Prelude
  import opened Collections
  import opened ProductionLog
  import opened BlockCounting
  import opened ParticipationData

  function ShareOf(): Delegator -> nat {
    (d: Delegator) => d.share
  }

  /** The delegation of a pool is reported in full: total stake, one delegator per delegating key with its own share,
      the shares adding up to those of the pool, listed by identifier and then share. */
  ghost predicate ReportsDelegation(st: Setting, d: PoolDelegation, entry: Participation) {
    && entry.totalShares == d.totalStake
    && (forall x: Delegator ::
          multiset(entry.delegators)[x] ==
          |set k | k in d.delegators && st.delegatorOf(k) == x.id && d.delegators[k] == x.share|)
    && TotalOf(Map(ShareOf(), entry.delegators)) == Sum(d.delegators)
    && DelegatorsListed(st, entry.delegators)
  }

  ghost predicate DelegatorsListed(st: Setting, delegators: seq<Delegator>) {
    forall i, j :: 0 <= i < j < |delegators| ==>
      && st.delegatorLeq(delegators[i].id, delegators[j].id)
      && (delegators[i].id == delegators[j].id ==> delegators[i].share <= delegators[j].share)
  }

  /** The entry reports the blocks of the producer in the epoch, and the delegation of its pool if it has one. */
  ghost predicate Reports(st: Setting, counts: Counts, pair: (nat, Producer), entry: Participation) {
    && pair.0 in counts && pair.1 in counts[pair.0]
    && entry.producer == pair.1 && entry.blockCount == counts[pair.0][pair.1]
    && (st.spoOf(pair.1).None? ==> entry.totalShares == 0 && entry.delegators == [])
    && (st.spoOf(pair.1).Some? ==>
          var fetched := Fetch(st, counts, pair.0);
          && fetched.Some? && st.spoOf(pair.1).value in fetched.value
          && ReportsDelegation(st, fetched.value[st.spoOf(pair.1).value], entry))
  }

  function Shares(st: Setting, shares: map<DelegatorKey, nat>, order: seq<DelegatorKey>): seq<nat> {
    Map(ShareOf(), Map(ToDelegator(st, shares), order))
  }

  lemma {:induction false} SharesAddUp(st: Setting, shares: map<DelegatorKey, nat>, order: seq<DelegatorKey>)
    requires multiset(order) == multiset(shares.Keys)
    ensures TotalOf(Shares(st, shares, order)) == Sum(shares)
  {
    if |order| == 0 {
      EmptyListing(order, shares.Keys);
      assert shares == map[];
    } else {
      var k, rest := order[0], order[1..];
      ListingTail(order, shares.Keys);
      assert (shares - {k}).Keys == shares.Keys - {k};
      SharesAddUp(st, shares - {k}, rest);
      SumTake(shares, k);
      FirstShare(st, shares, order);
    }
  }

  lemma FirstShare(st: Setting, shares: map<DelegatorKey, nat>, order: seq<DelegatorKey>)
    requires |order| > 0 && order[0] in shares && multiset(order[1..]) == multiset(shares.Keys - {order[0]})
    ensures TotalOf(Shares(st, shares, order)) ==
            shares[order[0]] + TotalOf(Shares(st, shares - {order[0]}, order[1..]))
  {
    var k, rest := order[0], order[1..];
    var all, others := Shares(st, shares, order), Shares(st, shares - {k}, rest);
    forall i | 0 <= i < |rest| ensures all[i + 1] == others[i] {
      assert rest[i] in multiset(rest);
      assert rest[i] in shares.Keys - {k};
      assert order[i + 1] == rest[i];
    }
    assert all[1..] == others;
  }

  lemma DelegatorCount(st: Setting, shares: map<DelegatorKey, nat>, order: seq<DelegatorKey>, x: Delegator)
    requires multiset(order) == multiset(shares.Keys)
    ensures multiset(Map(ToDelegator(st, shares), order))[x] ==
            |set k | k in shares && st.delegatorOf(k) == x.id && shares[k] == x.share|
  {
    MapCount(ToDelegator(st, shares), order, shares.Keys, x);
    assert Preimage(ToDelegator(st, shares), shares.Keys, x) ==
           (set k | k in shares && st.delegatorOf(k) == x.id && shares[k] == x.share);
  }

  lemma PermutedShares(st: Setting, shares: map<DelegatorKey, nat>, delegators: seq<Delegator>,
                       order: seq<DelegatorKey>)
    requires multiset(order) == multiset(shares.Keys)
    requires multiset(delegators) == multiset(Map(ToDelegator(st, shares), order))
    ensures TotalOf(Map(ShareOf(), delegators)) == Sum(shares)
  {
    SharesAddUp(st, shares, order);
    MapPermutes(ShareOf(), delegators, Map(ToDelegator(st, shares), order));
    TotalOfPermutes(Map(ShareOf(), delegators), Shares(st, shares, order));
  }

  lemma SortedSharesReport(st: Setting, d: PoolDelegation, entry: Participation)
    requires st.Valid() && entry.totalShares == d.totalStake && entry.delegators == SortedShares(st, d.delegators)
    ensures ReportsDelegation(st, d, entry)
  {
    var order := KeySequence(d.delegators.Keys);
    var unsorted := Map(ToDelegator(st, d.delegators), order);
    assert multiset(entry.delegators) == multiset(unsorted);
    forall x: Delegator
      ensures multiset(entry.delegators)[x] ==
              |set k | k in d.delegators && st.delegatorOf(k) == x.id && d.delegators[k] == x.share|
    {
      DelegatorCount(st, d.delegators, order, x);
    }
    PermutedShares(st, d.delegators, entry.delegators, order);
    SortedDelegatorsAreListed(st, unsorted);
  }

  lemma SortedDelegatorsAreListed(st: Setting, delegators: seq<Delegator>)
    requires st.Valid()
    ensures DelegatorsListed(st, Sort(DelegatorOrder(st), delegators))
  {
    DelegatorOrderIsTotal(st);
    SortSorted(DelegatorOrder(st), delegators);
    var sorted := Sort(DelegatorOrder(st), delegators);
    forall i, j | 0 <= i < j < |sorted|
      ensures st.delegatorLeq(sorted[i].id, sorted[j].id)
      ensures sorted[i].id == sorted[j].id ==> sorted[i].share <= sorted[j].share
    {
      assert DelegatorOrder(st)(sorted[i], sorted[j]);
    }
  }

  lemma CanonicalBreakdownReports(st: Setting, counts: Counts, pair: (nat, Producer))
    requires st.Valid() && pair.0 in counts && pair.1 in counts[pair.0] && EpochAvailable(st, counts, pair.0)
    ensures Reports(st, counts, pair, CanonicalBreakdown(st, counts)(pair))
  {
    assert PairAvailable(st, counts, pair.0, pair.1);
    var entry := CanonicalBreakdown(st, counts)(pair);
    if st.spoOf(pair.1).Some? {
      SortedSharesReport(st, Fetch(st, counts, pair.0).value[st.spoOf(pair.1).value], entry);
    }
  }

  /** The inherent data, entry by entry: there is one entry for each counted pair of epoch and producer and no other,
      and it reports the blocks of the producer and the delegation of its pool. */
  lemma DataReportsCountedPairs(st: Setting, counts: Counts, it: Iteration) returns (pairs: seq<(nat, Producer)>)
    requires st.Valid() && ValidIteration(st, counts, it) && InherentData(st, counts, it).Ok?
    ensures forall pair: (nat, Producer) ::
              multiset(pairs)[pair] == if pair.0 in counts && pair.1 in counts[pair.0] then 1 else 0
    ensures |pairs| == |InherentData(st, counts, it).value|
    ensures forall i :: 0 <= i < |pairs| ==> Reports(st, counts, pairs[i], InherentData(st, counts, it).value[i])
  {
    DataIsSortedSummaries(st, counts, it);
    DataAvailableIff(st, counts, it);
    var data, summary := InherentData(st, counts, it).value, CanonicalBreakdown(st, counts);
    pairs := UnmapPermutation(summary, Pairs(it, it.epochs), data);
    forall pair: (nat, Producer)
      ensures multiset(pairs)[pair] == if pair.0 in counts && pair.1 in counts[pair.0] then 1 else 0
    {
      PairsVisitedOnce(st, counts, it, pair.0, pair.1);
    }
    assert |data| == |Map(summary, pairs)| == |pairs|;
    forall i | 0 <= i < |pairs| ensures Reports(st, counts, pairs[i], data[i]) {
      assert pairs[i] in multiset(pairs);
      assert data[i] == Map(summary, pairs)[i];
      CanonicalBreakdownReports(st, counts, pairs[i]);
    }
  }

  /** A data source that answers every query with at least the pools it was asked for. */
  ghost predicate CompleteSource(st: Setting) {
    forall epoch: nat, pools: set<PoolId> ::
      st.source(epoch, pools).Some? && pools <= st.source(epoch, pools).value.Keys
  }

  /** With such a source the data is always available: every pool that is needed is asked for. */
  lemma CompleteSourceSuffices(st: Setting, counts: Counts, it: Iteration)
    requires ValidIteration(st, counts, it) && CompleteSource(st)
    ensures InherentData(st, counts, it).Ok?
  {
    DataAvailableIff(st, counts, it);
    forall e | e in counts ensures EpochAvailable(st, counts, e) {
      var pools := PoolsOf(st, counts[e].Keys);
      assert st.source(e, pools).Some? && pools <= st.source(e, pools).value.Keys;
    }
  }

  /** A reported error is real: the data source failed for a counted epoch, or lacks the pool of a counted producer. */
  ghost predicate RealError(st: Setting, counts: Counts, error: ParticipationError) {
    && error.epoch in counts
    && match error
       case DataSourceError(epoch) => Fetch(st, counts, epoch).None?
       case DataMissing(epoch, producer) =>
         && producer in counts[epoch] && Fetch(st, counts, epoch).Some?
         && !PairAvailable(st, counts, epoch, producer)
  }

  lemma {:induction false} EpochErrorIsReal(st: Setting, counts: Counts, it: Iteration, epoch: nat,
                                            producers: seq<Producer>)
    requires ValidIteration(st, counts, it) && epoch in counts && Fetch(st, counts, epoch).Some?
    requires forall p :: p in producers ==> p in counts[epoch]
    ensures
      var r := EpochSummaries(st, counts, it, epoch, producers);
      r.Err? ==> RealError(st, counts, r.error)
  {
    if |producers| > 0 {
      EpochErrorIsReal(st, counts, it, epoch, producers[..|producers| - 1]);
    }
  }

  lemma {:induction false} ErrorIsReal(st: Setting, counts: Counts, it: Iteration, epochs: seq<nat>)
    requires ValidIteration(st, counts, it) && forall e :: e in epochs ==> e in counts
    ensures
      var r := Summaries(st, counts, it, epochs);
      r.Err? ==> RealError(st, counts, r.error)
  {
    if |epochs| > 0 {
      var n := |epochs| - 1;
      ErrorIsReal(st, counts, it, epochs[..n]);
      if Fetch(st, counts, epochs[n]).Some? {
        VisitsOnlyKeys(it.producers[epochs[n]], counts[epochs[n]].Keys);
        EpochErrorIsReal(st, counts, it, epochs[n], it.producers[epochs[n]]);
      }
    }
  }

  /** Whatever the iteration order, a failure of the whole computation is real. */
  lemma DataErrorIsReal(st: Setting, counts: Counts, it: Iteration)
    requires ValidIteration(st, counts, it) && InherentData(st, counts, it).Err?
    ensures RealError(st, counts, InherentData(st, counts, it).error)
  {
    VisitsOnlyKeys(it.epochs, counts.Keys);
    ErrorIsReal(st, counts, it, it.epochs);
  }
}
