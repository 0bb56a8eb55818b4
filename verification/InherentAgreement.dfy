/** Agreement between the block proposer, who creates the `set` inherent after the rotation, and the verifier,
    who checks it on the parent state before the rotation. */
module InherentAgreement {
  import opened Prelude
  import opened CommitteeTypes
  import opened SessionAccounts
  import opened RotationSpec
  import opened RotationRuns

  /** The call an honest proposer adds to the block. */
  function ProposedCall(cfg: Config, s: State, epoch: nat, inputs: SelectionInputs): Option<SetCall> {
    match BeginBlock(cfg, s, epoch)
    case None => None
    case Some(s') => CreateInherent(cfg, s', inputs)
  }

  /** For every parent state and all inherent data, the proposed call passes the verifier's check on the parent state
      and dispatches without error, and it is proposed whenever the verifier requires it. */
  lemma ProposerAndVerifierAgree(cfg: Config, s: State, epoch: nat, inputs: SelectionInputs)
    requires BeginBlock(cfg, s, epoch).Some?
    ensures
      var call := ProposedCall(cfg, s, epoch, inputs);
      && (InherentRequired(s) ==> call.Some?)
      && (call.Some? ==>
            && CheckInherent(cfg, s, call.value, inputs) == None
            && ExecuteBlock(cfg, s, epoch, call).Some?)
      && ExecuteBlock(cfg, s, epoch, call).value.next.Some?
  {
    var s1 := OnInitialize(s, epoch);
    if SessionEnds(s1) && s1.epoch > s1.current.epoch {
      assert BeginBlock(cfg, s, epoch).value.current.committee == s.next.value.committee;
    }
  }

  /** The check pins the call down: two accepted calls that dispatch lead to the same state. */
  lemma AcceptedCallIsUnique(cfg: Config, s: State, epoch: nat, inputs: SelectionInputs, c: SetCall, d: SetCall)
    requires CheckInherent(cfg, s, c, inputs) == None && CheckInherent(cfg, s, d, inputs) == None
    requires ExecuteBlock(cfg, s, epoch, Some(c)).Some? && ExecuteBlock(cfg, s, epoch, Some(d)).Some?
    ensures ExecuteBlock(cfg, s, epoch, Some(c)) == ExecuteBlock(cfg, s, epoch, Some(d))
  {
    var s' := BeginBlock(cfg, s, epoch).value;
    assert c.forEpoch == s'.current.epoch + 1 == d.forEpoch;
  }

  /** What is to be stored next to the committee in office: the selection for the following epoch, or the same committee
      once more when nothing can be selected. */
  function SelectedAfter(cfg: Config, current: CommitteeInfo, inputs: SelectionInputs): CommitteeInfo {
    var selection := cfg.selectAuthorities(inputs, current.epoch + 1);
    CommitteeInfo(current.epoch + 1, if selection.Some? then selection.value else current.committee)
  }

  /** Whenever an honest proposer adds a call, the block stores the selection, or keeps the committee that is in office
      after the block. No call is added exactly when the next committee is known and stays. */
  lemma HonestBlockStoresSelection(cfg: Config, s: State, epoch: nat, inputs: SelectionInputs)
    requires BeginBlock(cfg, s, epoch).Some?
    ensures
      var call := ProposedCall(cfg, s, epoch, inputs);
      var s' := ExecuteBlock(cfg, s, epoch, call);
      && s'.Some?
      && (call.Some? ==> && s'.value.next == Some(SelectedAfter(cfg, s'.value.current, inputs))
                         && call.value.inputsHash == cfg.hashOf(inputs))
      && (call.None? <==> BeginBlock(cfg, s, epoch).value.next.Some?)
  {
  }

  /** The same for every block that the verifier accepts, whoever proposed it. */
  lemma AcceptedBlockStoresSelection(cfg: Config, s: State, event: Event, s': State)
    requires Step(cfg, s, event, s') && event.Block? && event.call.Some?
    ensures s'.next == Some(SelectedAfter(cfg, s'.current, event.inputs))
  {
    var s1 := BeginBlock(cfg, s, event.epoch).value;
    assert s1.next.None? && s'.current == s1.current;
    if s.next.Some? {
      assert s1.current == s.next.value;
    } else {
      assert s1.current.committee == s.current.committee;
    }
  }

  /** So over every run each stored committee was selected, or repeats the one in office when it was stored. */
  lemma RunStoresSelections(cfg: Config, states: seq<State>, events: seq<Event>, i: nat)
    requires Run(cfg, states, events) && i < |events| && events[i].Block?
    ensures
      var s, s' := states[i], states[i + 1];
      if events[i].call.Some? then s'.next == Some(SelectedAfter(cfg, s'.current, events[i].inputs))
      else s'.next == None || s'.next == s.next
  {
    assert Step(cfg, states[i], events[i], states[i + 1]);
    if events[i].call.Some? {
      AcceptedBlockStoresSelection(cfg, states[i], events[i], states[i + 1]);
    }
  }

  /** A rejected call differs from the expected committee, which without a selection is the next one or else the current
      one. The error tells whether the inputs were the same, and carries both hashes if they were not. */
  lemma RejectionReportsInputs(cfg: Config, s: State, call: SetCall, inputs: SelectionInputs)
    requires CheckInherent(cfg, s, call, inputs).Some?
    ensures
      var error := CheckInherent(cfg, s, call, inputs).value;
      var selection := cfg.selectAuthorities(inputs, call.forEpoch);
      && (call.inputsHash == cfg.hashOf(inputs) ==> error == InvalidValidatorsMatchingHash(call.inputsHash))
      && (call.inputsHash != cfg.hashOf(inputs) ==>
            error == InvalidValidatorsHashMismatch(cfg.hashOf(inputs), call.inputsHash))
      && (selection.Some? ==> call.validators != selection.value)
      && (selection.None? && s.next.Some? ==> call.validators != s.next.value.committee)
      && (selection.None? && s.next.None? ==> call.validators != s.current.committee)
  {
  }

  /** A call for a wrong epoch is reported first, a second committee for the right epoch next; nothing else fails. */
  lemma SetFailsIff(s: State, call: SetCall)
    ensures Set(s, call) == Err(InvalidEpoch) <==> call.forEpoch != s.current.epoch + 1
    ensures Set(s, call) == Err(NextCommitteeAlreadySet) <==> call.forEpoch == s.current.epoch + 1 && s.next.Some?
  {
  }

  /** Past genesis, the epoch whose selection inputs are fetched on the parent state is the epoch of the call. */
  lemma InputsEpochIsCallEpoch(cfg: Config, s: State, epoch: nat, inputs: SelectionInputs)
    requires s.number > 0
    ensures
      var call := ProposedCall(cfg, s, epoch, inputs);
      call.Some? ==> call.value.forEpoch == NextUnsetEpoch(s)
  {
  }

  /** In block 1 the fetched epoch is 1 while the call is for the epoch after the chain epoch. */
  lemma GenesisInputsEpoch(cfg: Config, s: State, epoch: nat, inputs: SelectionInputs)
    requires Sound(cfg, s) && s.number == 0 && s.current.epoch == 0
    ensures NextUnsetEpoch(s) == 1
    ensures ProposedCall(cfg, s, epoch, inputs).Some? &&
            ProposedCall(cfg, s, epoch, inputs).value.forEpoch == epoch + 1
  {
  }

  /** An honest proposer's block is always accepted and leaves a next committee. */
  lemma HonestBlockIsAccepted(cfg: Config, s: State, epoch: nat, inputs: SelectionInputs)
    requires cfg.Valid() && Sound(cfg, s) && OnlyKeysConsume(s.registry, s.provided) && epoch >= s.epoch
    ensures
      var call := ProposedCall(cfg, s, epoch, inputs);
      var r := ExecuteBlock(cfg, s, epoch, call);
      && Accepted(cfg, s, Block(epoch, inputs, call))
      && r.Some? && r.value.next.Some?
      && Sound(cfg, r.value) && OnlyKeysConsume(r.value.registry, r.value.provided)
  {
    BeginBlockPanics(cfg, s, epoch);
    BeginBlockEffect(cfg, s, epoch);
    BeginBlockKeepsSound(cfg, s, epoch);
    ProposerAndVerifierAgree(cfg, s, epoch, inputs);
    var call := ProposedCall(cfg, s, epoch, inputs);
    var s' := ExecuteBlock(cfg, s, epoch, call).value;
    StepKeepsSound(cfg, s, Block(epoch, inputs, call), s');
    forall a: AccountId | ForeignProviders(s'.registry, s'.provided, a) == 0
      ensures ForeignConsumers(s'.registry, a) == 0
    {
      assert ForeignProviders(s.registry, s.provided, a) == 0;
    }
  }
}
