/** What every block keeps, over all runs of the chain. */
module RotationRuns {
  import opened Prelude
  import opened CommitteeTypes
  import opened SessionAccounts
  import opened RotationSpec

  /** One step of a run: a block accepted by the verifier, or other pallets changing their references. */
  datatype Event =
    | Block(epoch: nat, inputs: SelectionInputs, call: Option<SetCall>)
    | OtherPallets(refs: map<AccountId, Refs>)

  /** The verifier's checks on the parent state, with a chain epoch that never decreases. */
  ghost predicate Accepted(cfg: Config, s: State, block: Event)
    requires block.Block?
  {
    && block.epoch >= s.epoch
    && (InherentRequired(s) ==> block.call.Some?)
    && (block.call.Some? ==>
          && |block.call.value.validators| <= cfg.maxValidators
          && CheckInherent(cfg, s, block.call.value, block.inputs) == None)
  }

  ghost predicate Step(cfg: Config, s: State, event: Event, s': State) {
    match event
    case Block(epoch, _, call) => Accepted(cfg, s, event) && ExecuteBlock(cfg, s, epoch, call) == Some(s')
    case OtherPallets(refs) =>
      && s' == s.(registry := s.registry.(refs := refs))
      && Covered(s'.registry, s'.provided)
  }

  ghost predicate Run(cfg: Config, states: seq<State>, events: seq<Event>) {
    && |states| == |events| + 1
    && forall i :: 0 <= i < |events| ==> Step(cfg, states[i], events[i], states[i + 1])
  }

  // ---------------------------------------------------------------- invariant

  /** `ProvidedAccounts` is the account set of the current committee, within bounds,
      and the reference counters cover it. */
  ghost predicate AccountsSound(cfg: Config, s: State) {
    && s.provided == AccountsOf(cfg, s.current.committee)
    && |s.current.committee| <= cfg.maxValidators
    && (s.next.Some? ==> |s.next.value.committee| <= cfg.maxValidators)
    && Covered(s.registry, s.provided)
    && KeysDisjoint(s.registry)
  }

  ghost predicate EpochsSound(s: State) {
    && (s.next.Some? ==> s.next.value.epoch == s.current.epoch + 1)
    && (s.number > 0 ==> s.current.epoch <= s.epoch)
    && (s.number == 0 ==> s.next.None? && s.stage == AwaitEpochChange && s.sessionIndex == 0)
  }

  /** The current committee as a queue: its seats whose accounts have registered keys. */
  function SeatedQueue(cfg: Config, s: State): seq<QueuedKeys> {
    WithKeys(Seats(cfg, s.current.committee), s.registry.keys)
  }

  /** Coupling of the rotation stage with the validator sets of `pallet_session`. */
  ghost predicate SessionsSound(cfg: Config, s: State) {
    && s.stage != AdditionalSession
    && (s.stage == NewSessionDueEpochChange ==> s.queued == SeatedQueue(cfg, s))
    && (s.stage == AwaitEpochChange && s.sessionIndex > 0 ==>
          s.queued == SeatedQueue(cfg, s) && s.validators == QueuedAccounts(s.queued))
  }

  ghost predicate Sound(cfg: Config, s: State) {
    AccountsSound(cfg, s) && EpochsSound(s) && SessionsSound(cfg, s)
  }

  // ---------------------------------------------------------------- single blocks

  lemma GenesisIsSound(cfg: Config, authorities: seq<CommitteeMember>, others: Registry)
    requires Covered(others, {}) && KeysDisjoint(others)
    ensures Sound(cfg, GenesisState(cfg, authorities, others))
  {
    var s := GenesisState(cfg, authorities, others);
    forall a: AccountId
      ensures ForeignProviders(s.registry, s.provided, a) >= 0 && ForeignConsumers(s.registry, a) >= 0
    {
      assert ForeignProviders(others, {}, a) >= 0 && ForeignConsumers(others, a) >= 0;
    }
  }

  /** The committee rotates in this block. */
  predicate Rotates(s: State, epoch: nat) {
    s.number > 0 && epoch > s.current.epoch && s.next.Some?
  }

  /** This block ends the session only to activate the queued committee. */
  predicate ForcesSession(s: State, epoch: nat) {
    s.number > 0 && epoch <= s.current.epoch && s.stage == NewSessionDueEpochChange
  }

  /** Block initialisation panics only in `unprovide_account`, and exactly when a departing account has a
      foreign consumer but no foreign provider. In particular the `expect` in `new_session` is unreachable
      and the bounded-set conversion never fails. */
  lemma BeginBlockPanics(cfg: Config, s: State, epoch: nat)
    requires Sound(cfg, s)
    ensures BeginBlock(cfg, s, epoch).None? <==>
            && Rotates(s, epoch)
            && exists a :: a in s.provided && a !in AccountsOf(cfg, s.next.value.committee) &&
                           ForeignProviders(s.registry, s.provided, a) == 0 && ForeignConsumers(s.registry, a) > 0
  {
    if Rotates(s, epoch) {
      AccountsAtMostSeats(cfg, s.next.value.committee);
      RotateAccountsPanics(cfg, s.provided, s.next.value.committee, s.registry);
    }
  }

  /** Everything a block initialisation does to the committee, the stage and the validator sets. */
  lemma BeginBlockEffect(cfg: Config, s: State, epoch: nat)
    requires Sound(cfg, s) && epoch >= s.epoch
    requires BeginBlock(cfg, s, epoch).Some?
    ensures
      var s' := BeginBlock(cfg, s, epoch).value;
      && s'.number == s.number + 1 && s'.epoch == epoch
      && (Rotates(s, epoch) ==>
            && s'.current == s.next.value && s'.next == None
            && s'.current.epoch == s.current.epoch + 1 <= epoch
            && s'.stage == NewSessionDueEpochChange
            && s'.sessionIndex == s.sessionIndex + 1
            && s'.validators == QueuedAccounts(s.queued))
      && (!Rotates(s, epoch) ==>
            && s'.current == s.current.(epoch := if s.number == 0 then epoch else s.current.epoch)
            && s'.next == s.next
            && s'.registry == s.registry && s'.provided == s.provided)
      && (ForcesSession(s, epoch) ==>
            && s'.stage == AwaitEpochChange
            && s'.sessionIndex == s.sessionIndex + 1
            && s'.validators == QueuedAccounts(SeatedQueue(cfg, s)) && s'.queued == SeatedQueue(cfg, s))
      && (!Rotates(s, epoch) && !ForcesSession(s, epoch) ==>
            && s'.stage == s.stage && s'.sessionIndex == s.sessionIndex
            && s'.validators == s.validators && s'.queued == s.queued)
  {
  }

  lemma BeginBlockKeepsSound(cfg: Config, s: State, epoch: nat)
    requires Sound(cfg, s) && epoch >= s.epoch
    requires BeginBlock(cfg, s, epoch).Some?
    ensures
      var s' := BeginBlock(cfg, s, epoch).value;
      && Sound(cfg, s')
      && SameForeign(s.registry, s.provided, s'.registry, s'.provided)
  {
    BeginBlockEffect(cfg, s, epoch);
    var s' := BeginBlock(cfg, s, epoch).value;
    if Rotates(s, epoch) {
      RotateAccountsKeeps(cfg, s.provided, s.next.value.committee, s.registry);
      assert s'.queued == SeatedQueue(cfg, s');
    } else {
      assert SeatedQueue(cfg, s') == SeatedQueue(cfg, s);
    }
  }

  /** One step keeps the invariant, and only other pallets change foreign references. */
  lemma StepKeepsSound(cfg: Config, s: State, event: Event, s': State)
    requires Sound(cfg, s) && Step(cfg, s, event, s')
    ensures Sound(cfg, s')
    ensures event.Block? ==> SameForeign(s.registry, s.provided, s'.registry, s'.provided)
  {
    if event.Block? {
      BeginBlockKeepsSound(cfg, s, event.epoch);
      var begun := BeginBlock(cfg, s, event.epoch).value;
      assert SeatedQueue(cfg, s') == SeatedQueue(cfg, begun);
    } else {
      assert SeatedQueue(cfg, s') == SeatedQueue(cfg, s);
    }
  }

  // ---------------------------------------------------------------- whole runs

  lemma RunPrefix(cfg: Config, states: seq<State>, events: seq<Event>)
    requires Run(cfg, states, events) && |events| > 0
    ensures Run(cfg, states[..|events|], events[..|events| - 1])
    ensures Step(cfg, states[|events| - 1], events[|events| - 1], states[|events|])
  {
    var n := |events|;
    forall i | 0 <= i < n - 1 ensures Step(cfg, states[..n][i], events[..n - 1][i], states[..n][i + 1]) {
      assert Step(cfg, states[i], events[i], states[i + 1]);
    }
  }

  /** Every state of every run from a sound state is sound. */
  lemma {:induction false} RunIsSound(cfg: Config, states: seq<State>, events: seq<Event>)
    requires Run(cfg, states, events) && Sound(cfg, states[0])
    ensures forall i :: 0 <= i < |states| ==> Sound(cfg, states[i])
  {
    var n := |events|;
    if n > 0 {
      RunPrefix(cfg, states, events);
      RunIsSound(cfg, states[..n], events[..n - 1]);
      assert states[..n][n - 1] == states[n - 1];
      StepKeepsSound(cfg, states[n - 1], events[n - 1], states[n]);
      forall i | 0 <= i < |states| ensures Sound(cfg, states[i]) {
        if i < n { assert states[..n][i] == states[i]; }
      }
    }
  }

  /** Safety over all runs from genesis: `ProvidedAccounts` is the current committee's account set, no two accounts
      hold the same raw key of one key type, the next committee is for the following epoch, the committee never runs
      ahead of the chain, the intermediate stage is never visible between blocks, and the session sets follow the
      stage. */
  lemma RotationIsSafe(cfg: Config, authorities: seq<CommitteeMember>, others: Registry,
                       states: seq<State>, events: seq<Event>, i: nat)
    requires Covered(others, {}) && KeysDisjoint(others)
    requires Run(cfg, states, events) && states[0] == GenesisState(cfg, authorities, others)
    requires i < |states|
    ensures
      var s := states[i];
      && s.provided == AccountsOf(cfg, s.current.committee)
      && (forall a :: a in s.provided ==> RefsOf(s.registry, a).providers > 0)
      && |s.provided| <= cfg.maxValidators
      && (forall a, b, t :: a in s.registry.keys && b in s.registry.keys && a != b &&
                            0 <= t < |s.registry.keys[a]| && t < |s.registry.keys[b]| ==>
                              s.registry.keys[a][t] != s.registry.keys[b][t])
      && (s.next.Some? ==> s.next.value.epoch == s.current.epoch + 1)
      && (s.number > 0 ==> s.current.epoch <= s.epoch)
      && s.stage != AdditionalSession
      && (s.stage == NewSessionDueEpochChange ==> s.queued == SeatedQueue(cfg, s))
      && (s.stage == AwaitEpochChange && s.sessionIndex > 0 ==>
            s.queued == SeatedQueue(cfg, s) && s.validators == QueuedAccounts(SeatedQueue(cfg, s)))
  {
    GenesisIsSound(cfg, authorities, others);
    RunIsSound(cfg, states, events);
    var s := states[i];
    AccountsAtMostSeats(cfg, s.current.committee);
    forall a | a in s.provided ensures RefsOf(s.registry, a).providers > 0 {
      assert ForeignProviders(s.registry, s.provided, a) >= 0;
    }
  }

  /** Along any run this pallet holds exactly one provider reference on each account of the current committee and
      none elsewhere: whatever the counters hold beyond that changes only when other pallets change it. */
  lemma {:induction false} ProviderCountedOnce(cfg: Config, states: seq<State>, events: seq<Event>, a: AccountId)
    requires Run(cfg, states, events) && Sound(cfg, states[0])
    requires forall i :: 0 <= i < |events| ==> events[i].Block?
    ensures
      var first, last := states[0], states[|events|];
      && RefsOf(last.registry, a).providers - (if a in AccountsOf(cfg, last.current.committee) then 1 else 0) ==
         RefsOf(first.registry, a).providers - (if a in AccountsOf(cfg, first.current.committee) then 1 else 0)
      && RefsOf(last.registry, a).consumers - (if a in last.registry.keys then 1 else 0) ==
         RefsOf(first.registry, a).consumers - (if a in first.registry.keys then 1 else 0)
  {
    RunIsSound(cfg, states, events);
    var n := |events|;
    if n > 0 {
      RunPrefix(cfg, states, events);
      ProviderCountedOnce(cfg, states[..n], events[..n - 1], a);
      StepKeepsSound(cfg, states[n - 1], events[n - 1], states[n]);
      assert ForeignProviders(states[n].registry, states[n].provided, a) ==
             ForeignProviders(states[n - 1].registry, states[n - 1].provided, a);
    }
  }

  /** A rotation advances the committee epoch by exactly one; nothing else changes it after block 1. */
  lemma EpochAdvancesByOne(cfg: Config, s: State, event: Event, s': State)
    requires Sound(cfg, s) && Step(cfg, s, event, s')
    ensures event.Block? && Rotates(s, event.epoch) ==>
              s'.current == s.next.value && s'.current.epoch == s.current.epoch + 1
    ensures !(event.Block? && Rotates(s, event.epoch)) && s.number > 0 ==> s'.current == s.current
    ensures event.Block? && s.number == 0 ==> s'.current == s.current.(epoch := event.epoch)
  {
    if event.Block? {
      BeginBlockEffect(cfg, s, event.epoch);
    }
  }

  /** The next committee is missing after at most one block at a time. */
  lemma NextCommitteeNeverMissingTwice(cfg: Config, s: State, event: Event, s': State)
    requires Sound(cfg, s) && Step(cfg, s, event, s') && event.Block?
    ensures s.next.None? ==> s'.next.Some?
  {
    if s.next.None? {
      BeginBlockEffect(cfg, s, event.epoch);
    }
  }

  // ---------------------------------------------------------------- committees in office

  /** The last epoch that has a committee. */
  function LatestEpoch(s: State): nat {
    if s.next.Some? then s.current.epoch + 1 else s.current.epoch
  }

  /** Committees stored by the `set` calls of a run, by epoch. */
  function StoredCommittees(events: seq<Event>): map<nat, seq<CommitteeMember>> {
    if |events| == 0 then map[]
    else
      var earlier := StoredCommittees(events[..|events| - 1]);
      var last := events[|events| - 1];
      if last.Block? && last.call.Some? then earlier[last.call.value.forEpoch := last.call.value.validators]
      else earlier
  }

  function CallCount(events: seq<Event>): nat {
    if |events| == 0 then 0
    else
      var last := events[|events| - 1];
      CallCount(events[..|events| - 1]) + if last.Block? && last.call.Some? then 1 else 0
  }

  /** A step stores at most one committee, for the epoch after the latest one, and moves committees only from
      next to current. */
  lemma StepStoresNext(cfg: Config, s: State, event: Event, s': State)
    requires Sound(cfg, s) && s.number > 0 && Step(cfg, s, event, s')
    ensures
      var stores := event.Block? && event.call.Some?;
      && LatestEpoch(s') == LatestEpoch(s) + (if stores then 1 else 0)
      && (stores ==> && event.call.value.forEpoch == LatestEpoch(s) + 1
                     && s'.next == Some(CommitteeInfo(LatestEpoch(s'), event.call.value.validators)))
      && (s'.current == s.current || Some(s'.current) == s.next)
      && (!stores && s'.next.Some? ==> s'.next == s.next)
  {
    if event.Block? {
      BeginBlockEffect(cfg, s, event.epoch);
    }
  }

  /** The epochs after the initial ones got exactly one stored committee each, without gaps, and the current and next
      committees are the ones that were stored for their epochs. */
  ghost predicate ServedInOrder(first: State, last: State, stored: map<nat, seq<CommitteeMember>>) {
    && LatestEpoch(first) <= LatestEpoch(last)
    && (forall e :: e in stored <==> LatestEpoch(first) < e <= LatestEpoch(last))
    && (last.current.epoch > LatestEpoch(first) ==> last.current.committee == stored[last.current.epoch])
    && (last.next.Some? && LatestEpoch(last) > LatestEpoch(first) ==>
          last.next.value.committee == stored[LatestEpoch(last)])
  }

  lemma StepServesInOrder(cfg: Config, first: State, s: State, event: Event, s': State,
                          stored: map<nat, seq<CommitteeMember>>)
    requires Sound(cfg, s) && Sound(cfg, s') && s.number > 0 && Step(cfg, s, event, s')
    requires ServedInOrder(first, s, stored)
    ensures ServedInOrder(first, s', if event.Block? && event.call.Some?
                                     then stored[event.call.value.forEpoch := event.call.value.validators] else stored)
  {
    StepStoresNext(cfg, s, event, s');
  }

  /** Over every run committees are stored for consecutive epochs, one per epoch, and serve in the epoch they were
      stored for. */
  lemma {:induction false} CommitteesServeInOrder(cfg: Config, states: seq<State>, events: seq<Event>)
    requires Run(cfg, states, events) && Sound(cfg, states[0]) && states[0].number > 0
    ensures states[|events|].number > 0
    ensures ServedInOrder(states[0], states[|events|], StoredCommittees(events))
    ensures LatestEpoch(states[|events|]) == LatestEpoch(states[0]) + CallCount(events)
  {
    var n := |events|;
    RunIsSound(cfg, states, events);
    if n > 0 {
      RunPrefix(cfg, states, events);
      var s, event, s' := states[n - 1], events[n - 1], states[n];
      assert states[..n][0] == states[0] && states[..n][n - 1] == s;
      assert Sound(cfg, s) && Sound(cfg, s') && Step(cfg, s, event, s');
      CommitteesServeInOrder(cfg, states[..n], events[..n - 1]);
      StepStoresNext(cfg, s, event, s');
      StepServesInOrder(cfg, states[0], s, event, s', StoredCommittees(events[..n - 1]));
    }
  }

  /** A run from genesis that ends in the panic: the committee of `alice` is to be replaced by `bob`, and another pallet
      puts a consumer on the account of `alice`, which only this pallet provides for. */
  lemma ForeignConsumerBlocksRotation(cfg: Config, alice: CommitteeMember, bob: CommitteeMember, epoch: nat,
                                      inputs: SelectionInputs)
    requires cfg.maxValidators > 0 && cfg.Account(alice) != cfg.Account(bob)
    requires cfg.selectAuthorities(inputs, epoch + 1) == Some([bob])
    ensures
      var call := SetCall([bob], epoch + 1, cfg.hashOf(inputs));
      var genesis := GenesisState(cfg, [alice], Registry(map[], map[]));
      var stored := genesis.(number := 1, epoch := epoch, current := CommitteeInfo(epoch, [alice]),
                             next := Some(CommitteeInfo(epoch + 1, [bob])));
      var refs := map[cfg.Account(alice) := Refs(1, 1)];
      var last := stored.(registry := stored.registry.(refs := refs));
      && Run(cfg, [genesis, stored, last], [Block(epoch, inputs, Some(call)), OtherPallets(refs)])
      && BeginBlock(cfg, last, epoch + 1).None?
  {
    var a := cfg.Account(alice);
    var call := SetCall([bob], epoch + 1, cfg.hashOf(inputs));
    var genesis := GenesisState(cfg, [alice], Registry(map[], map[]));
    assert AccountsOf(cfg, [alice]) == {a};
    var stored := genesis.(number := 1, epoch := epoch, current := CommitteeInfo(epoch, [alice]),
                           next := Some(CommitteeInfo(epoch + 1, [bob])));
    var refs := map[a := Refs(1, 1)];
    var last := stored.(registry := stored.registry.(refs := refs));
    var states, events := [genesis, stored, last], [Block(epoch, inputs, Some(call)), OtherPallets(refs)];
    assert Step(cfg, states[0], events[0], states[1]);
    assert Step(cfg, states[1], events[1], states[2]);
    GenesisIsSound(cfg, [alice], Registry(map[], map[]));
    RunIsSound(cfg, states, events);
    assert Sound(cfg, states[2]);
    assert a in last.provided && a !in AccountsOf(cfg, [bob]);
    assert ForeignProviders(last.registry, last.provided, a) == 0 && ForeignConsumers(last.registry, a) == 1;
    BeginBlockPanics(cfg, last, epoch + 1);
  }
}
