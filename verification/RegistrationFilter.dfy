/** Selection of the latest valid registration of every stake pool. */
module RegistrationFilter {
  import opened Prelude
  import opened CandidateKeys

  type UtxoId(==, !new)
  type StakePoolKey(==, !new)

  const SIGNATURE_LENGTH: nat := 64
  const NEGATIVE_POINT_SIGN: Byte := 27
  const POSITIVE_POINT_SIGN: Byte := 28

  /** Where a registration output was created; ordered lexicographically. */
  datatype OrderingKey = OrderingKey(block: nat, tx: nat, output: nat)

  predicate KeyLeq(a: OrderingKey, b: OrderingKey) {
    || a.block < b.block
    || (a.block == b.block && (a.tx < b.tx || (a.tx == b.tx && a.output <= b.output)))
  }

  datatype Registration = Registration(
    registrationUtxo: UtxoId,
    sidechainSignature: Bytes,
    mainchainSignature: Bytes,
    sidechainPubKey: Bytes,
    keys: seq<CandidateKey>,
    orderingKey: OrderingKey,
    txInputs: seq<UtxoId>)

  /** A pool with its registrations and its stake, if known. */
  datatype PoolRegistrations = PoolRegistrations(
    pool: StakePoolKey,
    registrations: seq<Registration>,
    stake: Option<nat>)

  datatype Candidate = Candidate(pool: StakePoolKey, stake: nat, account: Bytes, keys: seq<Bytes>)

  datatype StakeError = InvalidStake | UnknownStake

  datatype RegistrationError =
    | InvalidAccountKeys
    | InvalidSidechainPubKey
    | InvalidMainchainSignature
    | InvalidSidechainSignature
    | InvalidTxInput

  /** Signature schemes and message encoding, and the chain's session key type. */
  datatype Checks = Checks(
    keysType: KeysType,
    message: (Bytes, UtxoId) -> Bytes,
    verifyEd25519: (StakePoolKey, Bytes, Bytes) -> bool,
    verifyEcdsa: (Bytes, Bytes, Bytes) -> bool)

  function ValidateStake(stake: Option<nat>): Result<nat, StakeError> {
    match stake
    case None => Err(UnknownStake)
    case Some(amount) => if amount == 0 then Err(InvalidStake) else Ok(amount)
  }

  /** A recoverable signature is tried with both recovery bytes. */
  predicate SidechainSignatureValid(c: Checks, pubKey: Bytes, signature: Bytes, message: Bytes) {
    && |signature| == SIGNATURE_LENGTH
    && exists v :: v in [NEGATIVE_POINT_SIGN, POSITIVE_POINT_SIGN] && c.verifyEcdsa(pubKey, message, signature + [v])
  }

  function ValidateRegistration(c: Checks, pool: StakePoolKey, r: Registration)
    : Result<(Bytes, seq<Bytes>), RegistrationError>
  {
    var message := c.message(r.sidechainPubKey, r.registrationUtxo);
    match MaybeFrom(c.keysType, r.keys)
    case None => Err(InvalidAccountKeys)
    case Some(keys) =>
      if |r.sidechainPubKey| != ECDSA_LENGTH then Err(InvalidSidechainPubKey)
      else if |r.mainchainSignature| != SIGNATURE_LENGTH || !c.verifyEd25519(pool, message, r.mainchainSignature)
      then Err(InvalidMainchainSignature)
      else if !SidechainSignatureValid(c, r.sidechainPubKey, r.sidechainSignature, message)
      then Err(InvalidSidechainSignature)
      else if r.registrationUtxo !in r.txInputs then Err(InvalidTxInput)
      else Ok((r.sidechainPubKey, keys))
  }

  /** The runtime API used by clients to validate a registration and a stake. */
  function ApiRegistrationError(c: Checks, pool: StakePoolKey, r: Registration): Option<RegistrationError> {
    match ValidateRegistration(c, pool, r)
    case Ok(_) => None
    case Err(e) => Some(e)
  }

  function ApiStakeError(stake: Option<nat>): Option<StakeError> {
    match ValidateStake(stake)
    case Ok(_) => None
    case Err(e) => Some(e)
  }

  // ---------------------------------------------------------------- the filter

  predicate Accepted(c: Checks, pool: StakePoolKey, r: Registration) {
    ApiRegistrationError(c, pool, r) == None
  }

  /** `filter_map` over the registrations. */
  function ValidOnes(c: Checks, pool: StakePoolKey, rs: seq<Registration>): seq<Registration> {
    if |rs| == 0 then []
    else
      var n := |rs| - 1;
      ValidOnes(c, pool, rs[..n]) + if ValidateRegistration(c, pool, rs[n]).Ok? then [rs[n]] else []
  }

  /** `max_by_key`: the last of the registrations with the greatest key. */
  function Latest(rs: seq<Registration>): Registration
    requires |rs| > 0
  {
    var last := rs[|rs| - 1];
    if |rs| == 1 then last
    else
      var best := Latest(rs[..|rs| - 1]);
      if KeyLeq(best.orderingKey, last.orderingKey) then last else best
  }

  /** `select_latest_valid_candidate`. */
  function SelectLatest(c: Checks, p: PoolRegistrations): Option<Candidate> {
    match ValidateStake(p.stake)
    case Err(_) => None
    case Ok(stake) =>
      var valid := ValidOnes(c, p.pool, p.registrations);
      if |valid| == 0 then None
      else
        match ValidateRegistration(c, p.pool, Latest(valid))
        case Err(_) => None
        case Ok((account, keys)) => Some(Candidate(p.pool, stake, account, keys))
  }

  /** `filter_trustless_candidates_registrations`: the weight of a candidate is its stake. */
  function Filter(c: Checks, pools: seq<PoolRegistrations>): seq<(Candidate, nat)> {
    if |pools| == 0 then []
    else
      var n := |pools| - 1;
      match SelectLatest(c, pools[n])
      case None => Filter(c, pools[..n])
      case Some(candidate) => Filter(c, pools[..n]) + [(candidate, candidate.stake)]
  }

  // ---------------------------------------------------------------- properties

  /** A registration is accepted exactly when its keys assemble, its partner chain key has the right length, both
      signatures verify on the registration message and the registration output was spent by the transaction. */
  lemma AcceptedIffAllChecksPass(c: Checks, pool: StakePoolKey, r: Registration)
    ensures
      var message := c.message(r.sidechainPubKey, r.registrationUtxo);
      Accepted(c, pool, r) <==>
      && r.registrationUtxo in r.txInputs
      && MaybeFrom(c.keysType, r.keys).Some?
      && |r.sidechainPubKey| == ECDSA_LENGTH
      && |r.mainchainSignature| == |r.sidechainSignature| == SIGNATURE_LENGTH
      && c.verifyEd25519(pool, message, r.mainchainSignature)
      && (c.verifyEcdsa(r.sidechainPubKey, message, r.sidechainSignature + [27]) ||
          c.verifyEcdsa(r.sidechainPubKey, message, r.sidechainSignature + [28]))
  {
    assert 27 in [NEGATIVE_POINT_SIGN, POSITIVE_POINT_SIGN] && 28 in [NEGATIVE_POINT_SIGN, POSITIVE_POINT_SIGN];
  }

  /** The error reported for a registration is that of its first failing check: session keys, partner chain key, main
      chain signature, partner chain signature, transaction inputs. */
  lemma FirstFailingCheckIsReported(c: Checks, pool: StakePoolKey, r: Registration)
    ensures
      var error := ApiRegistrationError(c, pool, r);
      var message := c.message(r.sidechainPubKey, r.registrationUtxo);
      var keys := MaybeFrom(c.keysType, r.keys).Some?;
      var key := |r.sidechainPubKey| == ECDSA_LENGTH;
      var mainchain :=
        |r.mainchainSignature| == SIGNATURE_LENGTH && c.verifyEd25519(pool, message, r.mainchainSignature);
      var sidechain :=
        && |r.sidechainSignature| == SIGNATURE_LENGTH
        && (c.verifyEcdsa(r.sidechainPubKey, message, r.sidechainSignature + [27]) ||
            c.verifyEcdsa(r.sidechainPubKey, message, r.sidechainSignature + [28]));
      && (error == Some(InvalidAccountKeys) <==> !keys)
      && (error == Some(InvalidSidechainPubKey) <==> keys && !key)
      && (error == Some(InvalidMainchainSignature) <==> keys && key && !mainchain)
      && (error == Some(InvalidSidechainSignature) <==> keys && key && mainchain && !sidechain)
      && (error == Some(InvalidTxInput) <==>
            keys && key && mainchain && sidechain && r.registrationUtxo !in r.txInputs)
  {
    AcceptedIffAllChecksPass(c, pool, r);
    assert 27 in [NEGATIVE_POINT_SIGN, POSITIVE_POINT_SIGN] && 28 in [NEGATIVE_POINT_SIGN, POSITIVE_POINT_SIGN];
  }

  /** Ordering keys are totally ordered, by block first. */
  lemma OrderingKeysAreTotal(a: OrderingKey, b: OrderingKey, c: OrderingKey)
    ensures KeyLeq(a, b) || KeyLeq(b, a)
    ensures KeyLeq(a, b) && KeyLeq(b, a) ==> a == b
    ensures KeyLeq(a, b) && KeyLeq(b, c) ==> KeyLeq(a, c)
    ensures KeyLeq(a, b) ==> a.block <= b.block && (a.block == b.block ==> a.tx <= b.tx)
  {
  }

  lemma {:induction false} ValidOnesAre(c: Checks, pool: StakePoolKey, rs: seq<Registration>)
    ensures forall r :: r in ValidOnes(c, pool, rs) <==> r in rs && Accepted(c, pool, r)
  {
    if |rs| > 0 {
      ValidOnesAre(c, pool, rs[..|rs| - 1]);
      assert rs == rs[..|rs| - 1] + [rs[|rs| - 1]];
    }
  }

  lemma {:induction false} LatestIsGreatest(rs: seq<Registration>)
    requires |rs| > 0
    ensures Latest(rs) in rs
    ensures forall r :: r in rs ==> KeyLeq(r.orderingKey, Latest(rs).orderingKey)
  {
    if |rs| > 1 {
      LatestIsGreatest(rs[..|rs| - 1]);
      assert rs == rs[..|rs| - 1] + [rs[|rs| - 1]];
    }
  }

  /** A pool yields a candidate exactly when the validation API accepts its stake and at least one of its
      registrations. */
  lemma IncludedIffApiAccepts(c: Checks, p: PoolRegistrations)
    ensures SelectLatest(c, p).Some? <==>
            ApiStakeError(p.stake) == None && exists r :: r in p.registrations && Accepted(c, p.pool, r)
    ensures ApiStakeError(p.stake) == None <==> p.stake.Some? && p.stake.value > 0
    ensures ApiStakeError(p.stake) == Some(UnknownStake) <==> p.stake.None?
  {
    ValidOnesAre(c, p.pool, p.registrations);
    var valid := ValidOnes(c, p.pool, p.registrations);
    if |valid| > 0 {
      LatestIsGreatest(valid);
      assert valid[0] in valid;
    }
  }

  /** `r` is an accepted registration of the pool with the greatest ordering key among the accepted ones. */
  ghost predicate IsLatestAccepted(c: Checks, p: PoolRegistrations, r: Registration) {
    && r in p.registrations && Accepted(c, p.pool, r)
    && forall r' :: r' in p.registrations && Accepted(c, p.pool, r') ==> KeyLeq(r'.orderingKey, r.orderingKey)
  }

  /** The candidate carries the partner chain key and the assembled session keys of a latest accepted registration, the
      pool's positive stake and its key. */
  lemma ChosenIsLatest(c: Checks, p: PoolRegistrations) returns (r: Registration)
    requires SelectLatest(c, p).Some?
    ensures IsLatestAccepted(c, p, r)
    ensures
      var candidate := SelectLatest(c, p).value;
      && candidate.pool == p.pool
      && p.stake == Some(candidate.stake) && candidate.stake > 0
      && candidate.account == r.sidechainPubKey
      && MaybeFrom(c.keysType, r.keys) == Some(candidate.keys)
  {
    ValidOnesAre(c, p.pool, p.registrations);
    var valid := ValidOnes(c, p.pool, p.registrations);
    LatestIsGreatest(valid);
    r := Latest(valid);
  }

  /** Distinct accepted registrations have distinct ordering keys. */
  ghost predicate DistinctKeys(c: Checks, p: PoolRegistrations) {
    forall r, r' ::
      && r in p.registrations && r' in p.registrations
      && Accepted(c, p.pool, r) && Accepted(c, p.pool, r') ==>
      r.orderingKey == r'.orderingKey ==> r == r'
  }

  /** The order in which registrations are listed does not matter when their keys are distinct. */
  lemma SelectionIgnoresOrder(c: Checks, p: PoolRegistrations, p': PoolRegistrations)
    requires p'.pool == p.pool && p'.stake == p.stake
    requires forall r :: r in p.registrations <==> r in p'.registrations
    requires DistinctKeys(c, p)
    ensures SelectLatest(c, p) == SelectLatest(c, p')
  {
    IncludedIffApiAccepts(c, p);
    IncludedIffApiAccepts(c, p');
    if SelectLatest(c, p).Some? {
      var r := ChosenIsLatest(c, p);
      var r' := ChosenIsLatest(c, p');
      assert r.orderingKey == r'.orderingKey;
      assert r == r';
    }
  }

  function IncludedPools(c: Checks, pools: seq<PoolRegistrations>): seq<StakePoolKey> {
    if |pools| == 0 then []
    else
      var n := |pools| - 1;
      IncludedPools(c, pools[..n]) + if SelectLatest(c, pools[n]).Some? then [pools[n].pool] else []
  }

  function OutputPools(out: seq<(Candidate, nat)>): seq<StakePoolKey> {
    seq(|out|, i requires 0 <= i < |out| => out[i].0.pool)
  }

  /** The output lists the included pools in input order, each with its positive stake as weight. */
  lemma {:induction false} FilterKeepsOrder(c: Checks, pools: seq<PoolRegistrations>)
    ensures OutputPools(Filter(c, pools)) == IncludedPools(c, pools)
    ensures forall i :: 0 <= i < |Filter(c, pools)| ==>
              Filter(c, pools)[i].1 == Filter(c, pools)[i].0.stake > 0
  {
    if |pools| > 0 {
      var n := |pools| - 1;
      FilterKeepsOrder(c, pools[..n]);
      if SelectLatest(c, pools[n]).Some? {
        var _ := ChosenIsLatest(c, pools[n]);
      }
    }
  }

  /** Every entry of the output belongs to a listed pool and carries the keys of a latest accepted registration of
      it. */
  lemma {:induction false} EntriesCarryRegistrations(c: Checks, pools: seq<PoolRegistrations>, i: nat)
    returns (k: nat, r: Registration)
    requires i < |Filter(c, pools)|
    ensures k < |pools| && IsLatestAccepted(c, pools[k], r)
    ensures
      var (candidate, weight) := Filter(c, pools)[i];
      && candidate.pool == pools[k].pool
      && pools[k].stake == Some(weight) && weight == candidate.stake > 0
      && candidate.account == r.sidechainPubKey
      && MaybeFrom(c.keysType, r.keys) == Some(candidate.keys)
  {
    var n := |pools| - 1;
    if i < |Filter(c, pools[..n])| {
      k, r := EntriesCarryRegistrations(c, pools[..n], i);
    } else {
      k := n;
      r := ChosenIsLatest(c, pools[n]);
    }
  }

  ghost predicate DistinctPools(pools: seq<PoolRegistrations>) {
    forall i, j :: 0 <= i < j < |pools| ==> pools[i].pool != pools[j].pool
  }

  lemma {:induction false} IncludedPoolsAreListed(c: Checks, pools: seq<PoolRegistrations>, pool: StakePoolKey)
    ensures pool in IncludedPools(c, pools) <==>
            exists i :: 0 <= i < |pools| && pools[i].pool == pool && SelectLatest(c, pools[i]).Some?
  {
    if |pools| > 0 {
      var n := |pools| - 1;
      IncludedPoolsAreListed(c, pools[..n], pool);
      if i :| 0 <= i < n && pools[..n][i].pool == pool && SelectLatest(c, pools[..n][i]).Some? {
        assert pools[i].pool == pool && SelectLatest(c, pools[i]).Some?;
      }
      if i :| 0 <= i < n && pools[i].pool == pool && SelectLatest(c, pools[i]).Some? {
        assert pools[..n][i].pool == pool && SelectLatest(c, pools[..n][i]).Some?;
      }
    }
  }

  /** A pool has at most one candidate in the output. */
  lemma {:induction false} OneCandidatePerPool(c: Checks, pools: seq<PoolRegistrations>)
    requires DistinctPools(pools)
    ensures forall i, j :: 0 <= i < j < |Filter(c, pools)| ==> Filter(c, pools)[i].0.pool != Filter(c, pools)[j].0.pool
  {
    if |pools| > 0 {
      var n := |pools| - 1;
      OneCandidatePerPool(c, pools[..n]);
      if SelectLatest(c, pools[n]).Some? {
        FilterKeepsOrder(c, pools[..n]);
        IncludedPoolsAreListed(c, pools[..n], pools[n].pool);
        var before := Filter(c, pools[..n]);
        forall i | 0 <= i < |before| ensures before[i].0.pool != pools[n].pool {
          assert OutputPools(before)[i] in IncludedPools(c, pools[..n]);
        }
      }
    }
  }
}
