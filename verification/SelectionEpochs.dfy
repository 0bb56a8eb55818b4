/** Epoch arithmetic behind the committee selection inputs: which main chain epoch a node reads,
    given the parent state and its own idea of the block time. Times are in milliseconds. */
module SelectionEpochs {
  import opened Prelude
  import opened CommitteeTypes
  import opened RotationSpec
  import opened InherentAgreement

  const MAX_I32: nat := 0x7FFF_FFFF

  datatype MainchainEpochConfig = MainchainEpochConfig(
    epochDuration: nat,
    firstEpochTimestamp: nat,
    firstEpochNumber: nat)
  {
    predicate Valid() {
      epochDuration > 0 && firstEpochNumber <= MAX_U32
    }
  }

  datatype EpochDerivationError = TimestampTooSmall | EpochTooBig

  function EpochsPassed(mc: MainchainEpochConfig, timestamp: nat): Result<nat, EpochDerivationError>
    requires mc.Valid()
  {
    if timestamp < mc.firstEpochTimestamp then Err(TimestampTooSmall)
    else
      var passed := (timestamp - mc.firstEpochTimestamp) / mc.epochDuration;
      if passed > MAX_I32 then Err(EpochTooBig) else Ok(passed)
  }

  /** Saturating addition of 32-bit epoch numbers. */
  function TimestampToMainchainEpoch(mc: MainchainEpochConfig, timestamp: nat): Result<nat, EpochDerivationError>
    requires mc.Valid()
  {
    match EpochsPassed(mc, timestamp)
    case Err(e) => Err(e)
    case Ok(passed) => Ok(Min(mc.firstEpochNumber + passed, MAX_U32))
  }

  function SlotAt(timestamp: nat, slotDuration: nat): nat
    requires slotDuration > 0
  {
    timestamp / slotDuration
  }

  function SlotStartTime(slot: nat, slotDuration: nat): nat {
    slotDuration * slot
  }

  /** Time for which selection inputs are read. Epoch 1 stands for the genesis committee,
      whose real epoch is only known from the block time. */
  function InputsTimestamp(nextUnsetEpoch: nat, timestamp: nat, epochDuration: nat): nat
    requires epochDuration > 0
  {
    if nextUnsetEpoch == 1 then (timestamp / epochDuration) * epochDuration
    else nextUnsetEpoch * epochDuration
  }

  function InputsMcEpoch(mc: MainchainEpochConfig, nextUnsetEpoch: nat, timestamp: nat, epochDuration: nat)
    : Result<nat, EpochDerivationError>
    requires mc.Valid() && epochDuration > 0
  {
    TimestampToMainchainEpoch(mc, InputsTimestamp(nextUnsetEpoch, timestamp, epochDuration))
  }

  // ---------------------------------------------------------------- arithmetic

  lemma MulMonotone(a: nat, b: nat, c: nat)
    requires a <= b
    ensures a * c <= b * c
  {
  }

  lemma QuotientBounds(x: nat, d: nat)
    requires d > 0
    ensures (x / d) * d <= x < (x / d + 1) * d
  {
  }

  lemma QuotientIs(x: nat, d: nat, q: nat)
    requires d > 0 && q * d <= x < (q + 1) * d
    ensures x / d == q
  {
    QuotientBounds(x, d);
    if x / d + 1 <= q { MulMonotone(x / d + 1, q, d); }
    if q + 1 <= x / d { MulMonotone(q + 1, x / d, d); }
  }

  /** Rounding down to a slot start never crosses an epoch boundary when slots divide epochs. */
  lemma SlotStartKeepsEpoch(timestamp: nat, slotDuration: nat, epochDuration: nat)
    requires slotDuration > 0 && epochDuration > 0 && epochDuration % slotDuration == 0
    ensures SlotStartTime(SlotAt(timestamp, slotDuration), slotDuration) / epochDuration == timestamp / epochDuration
  {
    var slot, e := timestamp / slotDuration, timestamp / epochDuration;
    QuotientBounds(timestamp, epochDuration);
    QuotientBounds(timestamp, slotDuration);
    SlotAndEpoch(timestamp, slotDuration, epochDuration, epochDuration / slotDuration, slot, e);
    QuotientIs(SlotStartTime(slot, slotDuration), epochDuration, e);
  }

  lemma MulAssociative(a: nat, b: nat, c: nat)
    ensures (a * b) * c == a * (b * c)
  {
  }

  lemma SlotAndEpoch(timestamp: nat, slotDuration: nat, epochDuration: nat, perEpoch: nat, slot: nat, e: nat)
    requires epochDuration == perEpoch * slotDuration
    requires slot * slotDuration <= timestamp < (slot + 1) * slotDuration
    requires e * epochDuration <= timestamp < (e + 1) * epochDuration
    ensures e * epochDuration <= slotDuration * slot < (e + 1) * epochDuration
  {
    MulAssociative(e, perEpoch, slotDuration);
    if slot + 1 <= e * perEpoch {
      MulMonotone(slot + 1, e * perEpoch, slotDuration);
    } else {
      MulMonotone(e * perEpoch, slot, slotDuration);
    }
  }

  /** The slot in which the first epoch boundary falls shows when slots do not divide epochs. */
  lemma SlotStartCrossesEpoch(slotDuration: nat, epochDuration: nat)
    requires slotDuration > 0 && epochDuration > 0 && epochDuration % slotDuration != 0
    ensures SlotStartTime(SlotAt(epochDuration, slotDuration), slotDuration) / epochDuration == 0
    ensures epochDuration / epochDuration == 1
  {
    var start := SlotStartTime(SlotAt(epochDuration, slotDuration), slotDuration);
    assert start < epochDuration;
    QuotientIs(start, epochDuration, 0);
    QuotientIs(epochDuration, epochDuration, 1);
  }

  // ---------------------------------------------------------------- properties

  /** The time span of the `k`-th epoch after the first one contains the timestamp. */
  ghost predicate InEpoch(mc: MainchainEpochConfig, timestamp: nat, k: nat) {
    mc.firstEpochTimestamp + k * mc.epochDuration <= timestamp < mc.firstEpochTimestamp + (k + 1) * mc.epochDuration
  }

  /** Every timestamp lies before the first epoch, which is an error, or in exactly one epoch. The derived epoch is that
      one, saturated at 32 bits, or an error above `i32::MAX` epochs. */
  lemma MainchainEpochContainsTimestamp(mc: MainchainEpochConfig, timestamp: nat)
    requires mc.Valid()
    ensures TimestampToMainchainEpoch(mc, timestamp) == Err(TimestampTooSmall) <==> timestamp < mc.firstEpochTimestamp
    ensures timestamp >= mc.firstEpochTimestamp ==> exists k: nat :: InEpoch(mc, timestamp, k)
    ensures forall k: nat :: InEpoch(mc, timestamp, k) ==>
              TimestampToMainchainEpoch(mc, timestamp) ==
              if k <= MAX_I32 then Ok(Min(mc.firstEpochNumber + k, MAX_U32)) else Err(EpochTooBig)
  {
    if timestamp >= mc.firstEpochTimestamp {
      var elapsed := timestamp - mc.firstEpochTimestamp;
      QuotientBounds(elapsed, mc.epochDuration);
      assert InEpoch(mc, timestamp, elapsed / mc.epochDuration);
      forall k: nat | InEpoch(mc, timestamp, k) ensures k == elapsed / mc.epochDuration {
        QuotientIs(elapsed, mc.epochDuration, k);
      }
    } else {
      forall k: nat ensures !InEpoch(mc, timestamp, k) {
        MulMonotone(0, k, mc.epochDuration);
      }
    }
  }

  /** The proposer uses its wall-clock time and the verifier the start of the block's slot. Both read the same main
      chain epoch on every parent state when the epoch duration is a multiple of the slot duration. */
  lemma ProposerAndVerifierReadSameEpoch(mc: MainchainEpochConfig, s: State, wallTime: nat,
                                         slotDuration: nat, epochDuration: nat)
    requires mc.Valid() && slotDuration > 0 && epochDuration > 0 && epochDuration % slotDuration == 0
    ensures
      var slotStart := SlotStartTime(SlotAt(wallTime, slotDuration), slotDuration);
      InputsMcEpoch(mc, NextUnsetEpoch(s), wallTime, epochDuration) ==
      InputsMcEpoch(mc, NextUnsetEpoch(s), slotStart, epochDuration)
  {
    SlotStartKeepsEpoch(wallTime, slotDuration, epochDuration);
  }

  /** In block 1 proposer and verifier read inputs of the same main chain epoch. */
  predicate SameGenesisEpoch(mc: MainchainEpochConfig, wallTime: nat, slotDuration: nat, epochDuration: nat)
    requires mc.Valid() && slotDuration > 0 && epochDuration > 0
  {
    InputsMcEpoch(mc, 1, wallTime, epochDuration) ==
    InputsMcEpoch(mc, 1, SlotStartTime(SlotAt(wallTime, slotDuration), slotDuration), epochDuration)
  }

  /** They do for every main chain and every wall time exactly when the epoch duration is a multiple of the slot
      duration. */
  lemma GenesisEpochsAgreeIffAligned(slotDuration: nat, epochDuration: nat)
    requires slotDuration > 0 && epochDuration > 0
    ensures (forall mc: MainchainEpochConfig, wallTime: nat ::
               mc.Valid() ==> SameGenesisEpoch(mc, wallTime, slotDuration, epochDuration)) <==>
            epochDuration % slotDuration == 0
  {
    if epochDuration % slotDuration == 0 {
      forall mc: MainchainEpochConfig, wallTime: nat | mc.Valid()
        ensures SameGenesisEpoch(mc, wallTime, slotDuration, epochDuration)
      {
        SlotStartKeepsEpoch(wallTime, slotDuration, epochDuration);
      }
    } else {
      UnalignedEpochsDiffer(slotDuration, epochDuration);
      var mc := MainchainEpochConfig(epochDuration, 0, 0);
      assert mc.Valid() && !SameGenesisEpoch(mc, epochDuration, slotDuration, epochDuration);
    }
  }

  /** When slots do not divide epochs, a main chain whose epochs are the chain's own shows two different epochs at the
      first epoch boundary: the proposer reads inputs of epoch 1 and the verifier those of epoch 0. */
  lemma UnalignedEpochsDiffer(slotDuration: nat, epochDuration: nat)
    requires slotDuration > 0 && epochDuration > 0 && epochDuration % slotDuration != 0
    ensures
      var mc := MainchainEpochConfig(epochDuration, 0, 0);
      var slotStart := SlotStartTime(SlotAt(epochDuration, slotDuration), slotDuration);
      && InputsMcEpoch(mc, 1, epochDuration, epochDuration) == Ok(1)
      && InputsMcEpoch(mc, 1, slotStart, epochDuration) == Ok(0)
  {
    SlotStartCrossesEpoch(slotDuration, epochDuration);
    assert 0 / epochDuration == 0;
  }

  /** Inputs are read for the start of the epoch of the call that is created from them. The genesis special case
      (next unset epoch 1) reads the start of the epoch that contains the block time instead. */
  lemma InputsAreForCallEpoch(cfg: Config, s: State, epoch: nat, inputs: SelectionInputs,
                              timestamp: nat, epochDuration: nat)
    requires epochDuration > 0 && epoch == timestamp / epochDuration
    requires ProposedCall(cfg, s, epoch, inputs).Some?
    ensures
      var time := InputsTimestamp(NextUnsetEpoch(s), timestamp, epochDuration);
      && (NextUnsetEpoch(s) == 1 ==> time == epoch * epochDuration && time <= timestamp < time + epochDuration)
      && (NextUnsetEpoch(s) != 1 && s.number > 0 ==>
            time == ProposedCall(cfg, s, epoch, inputs).value.forEpoch * epochDuration)
  {
    if s.number > 0 {
      InputsEpochIsCallEpoch(cfg, s, epoch, inputs);
    }
  }

  /** The main chain epoch that is read is the one that contains the start of the epoch of the created call; in the
      genesis case, the one that contains the start of the running epoch. */
  lemma InputsMcEpochIs(mc: MainchainEpochConfig, cfg: Config, s: State, epoch: nat, inputs: SelectionInputs,
                        timestamp: nat, epochDuration: nat)
    requires mc.Valid() && epochDuration > 0 && epoch == timestamp / epochDuration
    requires ProposedCall(cfg, s, epoch, inputs).Some? && (s.number > 0 || NextUnsetEpoch(s) == 1)
    ensures
      var readEpoch := if NextUnsetEpoch(s) == 1 then epoch else ProposedCall(cfg, s, epoch, inputs).value.forEpoch;
      var read := InputsMcEpoch(mc, NextUnsetEpoch(s), timestamp, epochDuration);
      && (read == Err(TimestampTooSmall) <==> readEpoch * epochDuration < mc.firstEpochTimestamp)
      && (forall k: nat :: InEpoch(mc, readEpoch * epochDuration, k) ==>
            read == if k <= MAX_I32 then Ok(Min(mc.firstEpochNumber + k, MAX_U32)) else Err(EpochTooBig))
  {
    InputsAreForCallEpoch(cfg, s, epoch, inputs, timestamp, epochDuration);
    MainchainEpochContainsTimestamp(mc, InputsTimestamp(NextUnsetEpoch(s), timestamp, epochDuration));
  }
}
