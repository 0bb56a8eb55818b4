/** Committee data, the configuration of the session-validator-management pallet
    and the part of the chain state that its hooks read and write. */
module CommitteeTypes {
  import opened Prelude

  type AuthorityId(==, !new)
  type AccountId(==, !new)
  type RawKey(==, !new)
  type StakePoolKey(==, !new)
  /** Decoded inherent data, the input of committee selection. */
  type SelectionInputs(!new)
  type InputsHash(==, !new)

  /** Session keys: one raw key per key type, in the order of the key types. */
  type SessionKeys = seq<RawKey>

  datatype CommitteeMember =
    | Permissioned(id: AuthorityId, keys: SessionKeys)
    | Registered(id: AuthorityId, keys: SessionKeys, stakePoolPubKey: StakePoolKey)

  datatype CommitteeInfo = CommitteeInfo(epoch: nat, committee: seq<CommitteeMember>)

  datatype Stage = AwaitEpochChange | NewSessionDueEpochChange | AdditionalSession

  /** `selectAuthorities` is deterministic and may be unable to select a committee. */
  datatype Config = Config(
    maxValidators: nat,
    maxConsumers: nat,
    accountOf: AuthorityId -> AccountId,
    selectAuthorities: (SelectionInputs, nat) -> Option<seq<CommitteeMember>>,
    hashOf: SelectionInputs -> InputsHash)
  {
    /** Selection returns a vector bounded by `maxValidators`. */
    ghost predicate Valid() {
      forall inputs: SelectionInputs, epoch: nat ::
        selectAuthorities(inputs, epoch).Some? ==>
          |selectAuthorities(inputs, epoch).value| <= maxValidators
    }

    function Account(m: CommitteeMember): AccountId {
      accountOf(m.id)
    }
  }

  /** Reference counters kept by `frame_system` for an account. */
  datatype Refs = Refs(providers: nat, consumers: nat)

  /** Session keys registered in `pallet_session` and the accounts' reference counters.
      An account missing from `refs` has both counters at zero. */
  datatype Registry = Registry(keys: map<AccountId, SessionKeys>, refs: map<AccountId, Refs>)

  datatype QueuedKeys = QueuedKeys(account: AccountId, keys: SessionKeys)

  /** Chain state after block `number`, which was produced in chain epoch `epoch`. */
  datatype State = State(
    number: nat,
    epoch: nat,
    current: CommitteeInfo,
    next: Option<CommitteeInfo>,
    stage: Stage,
    provided: set<AccountId>,
    sessionIndex: nat,
    validators: seq<AccountId>,
    queued: seq<QueuedKeys>,
    registry: Registry)

  datatype SetCall = SetCall(
    validators: seq<CommitteeMember>,
    forEpoch: nat,
    inputsHash: InputsHash)

  datatype InherentError =
    | InvalidValidatorsMatchingHash(computed: InputsHash)
    | InvalidValidatorsHashMismatch(computed: InputsHash, received: InputsHash)
    | CommitteeNeedsToBeStoredOneEpochInAdvance

  datatype DispatchError = InvalidEpoch | NextCommitteeAlreadySet

  function AccountsOf(cfg: Config, committee: seq<CommitteeMember>): set<AccountId> {
    set i | 0 <= i < |committee| :: cfg.Account(committee[i])
  }

  /** The committee as a list of accounts, one per seat. */
  function Seats(cfg: Config, committee: seq<CommitteeMember>): seq<AccountId> {
    seq(|committee|, i requires 0 <= i < |committee| => cfg.Account(committee[i]))
  }
}
