/** When a rotated committee becomes the active validator set. */
module SeatedCommittee {
  import opened Prelude
  import opened CommitteeTypes
  import opened SessionAccounts
  import opened KeyRegistration
  import opened RotationSpec
  import opened RotationRuns

  /** The queue keeps the order of the seats, drops exactly the accounts without keys and carries the registered
      keys. */
  lemma {:induction false} QueueOfSeats(accounts: seq<AccountId>, keys: map<AccountId, SessionKeys>)
    ensures forall q :: q in WithKeys(accounts, keys) <==>
                        q.account in accounts && q.account in keys && q.keys == keys[q.account]
    ensures |WithKeys(accounts, keys)| <= |accounts|
    ensures QueuedAccounts(WithKeys(accounts, keys)) == accounts <==> forall a :: a in accounts ==> a in keys
  {
    if |accounts| > 0 {
      QueueOfSeats(accounts[1..], keys);
      assert accounts == [accounts[0]] + accounts[1..];
      var rest := WithKeys(accounts[1..], keys);
      if accounts[0] in keys {
        var head := QueuedKeys(accounts[0], keys[accounts[0]]);
        assert WithKeys(accounts, keys) == [head] + rest;
        assert QueuedAccounts([head] + rest) == [accounts[0]] + QueuedAccounts(rest);
      } else {
        assert WithKeys(accounts, keys) == rest;
      }
    }
  }

  lemma SeatsAreAccounts(cfg: Config, committee: seq<CommitteeMember>, keys: map<AccountId, SessionKeys>)
    ensures AccountsOf(cfg, committee) <= keys.Keys <==> forall a :: a in Seats(cfg, committee) ==> a in keys
  {
    forall a ensures a in Seats(cfg, committee) <==> a in AccountsOf(cfg, committee) {
      if i :| 0 <= i < |committee| && cfg.Account(committee[i]) == a {
        assert Seats(cfg, committee)[i] == a;
      }
    }
  }

  /** Two blocks after the epoch changed, the committee stored for it is in office: the active and queued validators are
      its seats with keys, in order. They are all its seats if and only if the keys of every seat were free when it
      rotated in; otherwise a seat is missing from the active validators. */
  lemma CommitteeTakesOffice(cfg: Config, s: State, first: Event, s1: State, second: Event, s2: State)
    requires Sound(cfg, s) && s.number > 0 && s.next.Some?
    requires first.Block? && second.Block?
    requires first.epoch == second.epoch == s.next.value.epoch
    requires Step(cfg, s, first, s1) && Step(cfg, s1, second, s2)
    ensures
      var committee := s.next.value.committee;
      var free := AllSeatKeysFree(cfg, committee, s.registry, |committee|);
      && s2.current == s.next.value
      && s2.sessionIndex == s.sessionIndex + 2
      && s2.validators == QueuedAccounts(s2.queued)
      && s2.queued == WithKeys(Seats(cfg, committee), s2.registry.keys)
      && (s2.validators == Seats(cfg, committee) <==> free)
      && (free ==> |s2.validators| == |committee| &&
                   forall i :: 0 <= i < |committee| ==> s2.validators[i] == cfg.accountOf(committee[i].id))
      && (HoldsSeatKeys(cfg, committee, s2.registry) <==> free)
  {
    var committee := s.next.value.committee;
    BeginBlockEffect(cfg, s, first.epoch);
    RotationRegistersKeys(cfg, s.provided, committee, s.registry);
    StepKeepsSound(cfg, s, first, s1);
    BeginBlockEffect(cfg, s1, second.epoch);
    SeatsAreAccounts(cfg, committee, s1.registry.keys);
    QueueOfSeats(Seats(cfg, committee), s1.registry.keys);
  }

  /** Genesis: the committee is the longest prefix of the configured authorities within the bound, in office from
      epoch 0; both session sets come from it; each of its accounts has one provider more, and nothing else is
      touched. */
  lemma GenesisCommittee(cfg: Config, authorities: seq<CommitteeMember>, others: Registry)
    ensures
      var s := GenesisState(cfg, authorities, others);
      var committee := s.current.committee;
      && committee <= authorities && |committee| == Min(|authorities|, cfg.maxValidators)
      && s.current.epoch == 0 && s.next.None?
      && s.validators == Seats(cfg, committee) && |s.validators| == |committee|
      && (forall i :: 0 <= i < |committee| ==> s.validators[i] == cfg.accountOf(committee[i].id))
      && (forall q :: q in s.queued <==>
                      q.account in Seats(cfg, committee) && KeysOf(others, q.account) == Some(q.keys))
      && (QueuedAccounts(s.queued) == s.validators <==> forall a :: a in s.validators ==> a in others.keys)
      && s.registry.keys == others.keys
      && (forall a: AccountId ::
            && RefsOf(s.registry, a).consumers == RefsOf(others, a).consumers
            && RefsOf(s.registry, a).providers ==
               RefsOf(others, a).providers + if a in AccountsOf(cfg, committee) then 1 else 0)
  {
    QueueOfSeats(Seats(cfg, GenesisState(cfg, authorities, others).current.committee), others.keys);
  }
}
