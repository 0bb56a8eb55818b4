/** The pallet's storage and the methods that update it in place. Every method is proved against
    the corresponding function of `RotationSpec`. */
module CommitteePallet {
  import opened Prelude
  import opened CommitteeTypes
  import opened SessionAccounts
  import Spec = RotationSpec

  class Runtime {
    const cfg: Config
    var number: nat
    var epoch: nat
    var current: CommitteeInfo
    var next: Option<CommitteeInfo>
    var stage: Stage
    var provided: set<AccountId>
    var sessionIndex: nat
    var validators: seq<AccountId>
    var queued: seq<QueuedKeys>
    var registry: Registry

    ghost function View(): State
      reads this
    {
      State(number, epoch, current, next, stage, provided, sessionIndex, validators, queued, registry)
    }

    constructor Genesis(cfg: Config, authorities: seq<CommitteeMember>, others: Registry)
      ensures this.cfg == cfg && View() == Spec.GenesisState(cfg, authorities, others)
    {
      var committee := if |authorities| <= cfg.maxValidators then authorities else authorities[..cfg.maxValidators];
      var accounts := AccountsOf(cfg, committee);
      var r := others;
      var left := accounts;
      while left != {}
        invariant left <= accounts
        invariant r == Spec.ProvideAll(others, accounts - left)
      {
        var a :| a in left;
        Spec.ProvideOneMore(others, accounts - left, a);
        assert accounts - (left - {a}) == accounts - left + {a};
        r, left := IncProviders(r, a), left - {a};
      }
      assert accounts - left == accounts;
      this.cfg := cfg;
      number, epoch, stage, sessionIndex := 0, 0, AwaitEpochChange, 0;
      current, next, provided := CommitteeInfo(0, committee), None, accounts;
      validators := Seats(cfg, committee);
      queued := Spec.WithKeys(Seats(cfg, committee), others.keys);
      registry := r;
    }

    method OnInitialize(epoch: nat)
      modifies this
      ensures View() == Spec.OnInitialize(old(View()), epoch)
    {
      if number == 0 {
        current := current.(epoch := epoch);
      }
      number := number + 1;
      this.epoch := epoch;
    }

    method ShouldEndSession() returns (ends: bool)
      modifies this`stage
      ensures ends == Spec.SessionEnds(old(View()))
      ensures View() == old(View()).(stage := Spec.StageAfterCheck(old(View())))
    {
      if epoch > current.epoch {
        if next.Some? {
          stage := NewSessionDueEpochChange;
          return true;
        } else {
          return false;
        }
      } else {
        if stage == NewSessionDueEpochChange {
          stage := AdditionalSession;
          return true;
        } else {
          return false;
        }
      }
    }

    /** The registration loop of `new_session`. */
    method RegisterCommittee(committee: seq<CommitteeMember>) returns (accounts: set<AccountId>, r: Registry)
      ensures accounts == AccountsOf(cfg, committee)
      ensures r == Register(cfg, provided, committee, registry)
    {
      accounts, r := {}, registry;
      for i := 0 to |committee|
        invariant accounts == AccountsOf(cfg, committee[..i])
        invariant r == Register(cfg, provided, committee[..i], registry)
      {
        var member := committee[i];
        var account := cfg.Account(member);
        if account !in accounts {
          if account !in provided {
            r := IncProviders(r, account);
          }
          if KeysOf(r, account) != Some(member.keys) {
            r := PurgeKeys(r, account);
            r := SetKeys(cfg, r, account, member.keys);
          }
        }
        accounts := accounts + {account};
        AccountsOfPrefix(cfg, committee, i);
        assert committee[..i + 1][..i] == committee[..i];
      }
      assert committee[..|committee|] == committee;
    }

    /** The clean-up loop of `new_session`; `None` is the panic in `unprovide_account`. */
    method RetireAccounts(r: Registry, gone: set<AccountId>) returns (r': Option<Registry>)
      ensures r'.None? <==> exists a :: a in gone && RetireBlocked(r, a)
      ensures r'.Some? ==> r'.value == Retire(r, gone)
    {
      var left, cur := gone, r;
      while left != {}
        invariant left <= gone
        invariant cur == Retire(r, gone - left)
        invariant forall a :: a in gone - left ==> !RetireBlocked(r, a)
      {
        var a :| a in left;
        RetireOneMore(r, gone - left, a);
        assert gone - (left - {a}) == gone - left + {a};
        cur := PurgeKeys(cur, a);
        if CannotUnprovide(cur, a) {
          return None;
        }
        cur, left := DecProviders(cur, a), left - {a};
      }
      assert gone - left == gone;
      return Some(cur);
    }

    method NewSession() returns (upcoming: Option<seq<AccountId>>)
      modifies this
      ensures upcoming.None? ==> Spec.NewSession(cfg, old(View())).None? && View() == old(View())
      ensures upcoming.Some? ==> Spec.NewSession(cfg, old(View())) == Some((View(), upcoming.value))
    {
      if stage == AdditionalSession {
        stage := AwaitEpochChange;
        return Some(Seats(cfg, current.committee));
      }
      if next.None? {
        return None;
      }
      var committee := next.value.committee;
      var accounts, r := RegisterCommittee(committee);
      var r' := RetireAccounts(r, provided - accounts);
      if r'.None? || |accounts| > cfg.maxValidators {
        return None;
      }
      current, next, provided, registry := next.value, None, accounts, r'.value;
      return Some(Seats(cfg, committee));
    }

    /** `pallet_session::on_initialize`. */
    method EndSessionIfDue() returns (ok: bool)
      modifies this
      ensures
        var s := old(View());
        var s' := s.(stage := Spec.StageAfterCheck(s));
        var r := if Spec.SessionEnds(s) then Spec.RotateSession(cfg, s') else Some(s');
        ok == r.Some? && (ok ==> View() == r.value)
    {
      var ends := ShouldEndSession();
      if !ends {
        return true;
      }
      validators := Spec.QueuedAccounts(queued);
      sessionIndex := sessionIndex + 1;
      var upcoming := NewSession();
      if upcoming.None? {
        return false;
      }
      queued := Spec.WithKeys(upcoming.value, registry.keys);
      return true;
    }

    method Set(call: SetCall) returns (error: Option<DispatchError>)
      modifies this`next
      ensures error.None? ==> Spec.Set(old(View()), call) == Ok(View())
      ensures error.Some? ==> Spec.Set(old(View()), call) == Err(error.value) && View() == old(View())
    {
      if call.forEpoch != current.epoch + 1 {
        return Some(InvalidEpoch);
      }
      if next.Some? {
        return Some(NextCommitteeAlreadySet);
      }
      next := Some(CommitteeInfo(call.forEpoch, call.validators));
      return None;
    }

    /** Executes a whole block; on failure the state is meaningless and the block is discarded. */
    method ExecuteBlock(epoch: nat, call: Option<SetCall>) returns (ok: bool)
      modifies this
      ensures ok == Spec.ExecuteBlock(cfg, old(View()), epoch, call).Some?
      ensures ok ==> Spec.ExecuteBlock(cfg, old(View()), epoch, call).value == View()
    {
      OnInitialize(epoch);
      ok := EndSessionIfDue();
      if ok && call.Some? {
        var error := Set(call.value);
        ok := error.None?;
      }
    }
  }
}
