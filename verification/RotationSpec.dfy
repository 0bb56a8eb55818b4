/** Committee rotation as functions on the chain state: the hooks of the session-validator-management
    pallet, its inherent, and the queue shift that `pallet_session` performs around them. */
module RotationSpec {
  import opened Prelude
  import opened CommitteeTypes
  import opened SessionAccounts

  /** Genesis: `others` is what the remaining pallets contribute, including genesis session keys. */
  function GenesisState(cfg: Config, authorities: seq<CommitteeMember>, others: Registry): State {
    var committee := if |authorities| <= cfg.maxValidators then authorities else authorities[..cfg.maxValidators];
    var accounts := AccountsOf(cfg, committee);
    State(0, 0, CommitteeInfo(0, committee), None, AwaitEpochChange, accounts, 0,
          Seats(cfg, committee), WithKeys(Seats(cfg, committee), others.keys), ProvideAll(others, accounts))
  }

  function ProvideAll(r: Registry, accounts: set<AccountId>): Registry {
    r.(refs := map a | a in r.refs.Keys + accounts ::
                 if a in accounts then RefsOf(r, a).(providers := RefsOf(r, a).providers + 1) else r.refs[a])
  }

  lemma ProvideOneMore(r: Registry, done: set<AccountId>, a: AccountId)
    requires a !in done
    ensures IncProviders(ProvideAll(r, done), a) == ProvideAll(r, done + {a})
  {
    assert IncProviders(ProvideAll(r, done), a).refs == ProvideAll(r, done + {a}).refs;
  }

  /** Validators that have session keys, in order; the others are dropped from the queue. */
  function WithKeys(accounts: seq<AccountId>, keys: map<AccountId, SessionKeys>): seq<QueuedKeys> {
    if |accounts| == 0 then []
    else
      (if accounts[0] in keys then [QueuedKeys(accounts[0], keys[accounts[0]])] else [])
      + WithKeys(accounts[1..], keys)
  }

  function QueuedAccounts(queued: seq<QueuedKeys>): seq<AccountId> {
    seq(|queued|, i requires 0 <= i < |queued| => queued[i].account)
  }

  /** The pallet's `on_initialize`: block 1 moves the genesis committee to the chain epoch. */
  function OnInitialize(s: State, epoch: nat): State {
    var current := if s.number == 0 then s.current.(epoch := epoch) else s.current;
    s.(number := s.number + 1, epoch := epoch, current := current)
  }

  predicate SessionEnds(s: State) {
    if s.epoch > s.current.epoch then s.next.Some? else s.stage == NewSessionDueEpochChange
  }

  /** Stage left behind by `should_end_session`. */
  function StageAfterCheck(s: State): Stage {
    if !SessionEnds(s) then s.stage
    else if s.epoch > s.current.epoch then NewSessionDueEpochChange
    else AdditionalSession
  }

  /** `new_session`; `None` is a panic. */
  function NewSession(cfg: Config, s: State): Option<(State, seq<AccountId>)> {
    if s.stage == AdditionalSession then
      Some((s.(stage := AwaitEpochChange), Seats(cfg, s.current.committee)))
    else if s.next.None? then None
    else
      var committee := s.next.value.committee;
      var accounts := AccountsOf(cfg, committee);
      match RotateAccounts(cfg, s.provided, committee, s.registry)
      case None => None
      case Some(registry) =>
        if |accounts| > cfg.maxValidators then None
        else Some((s.(current := s.next.value, next := None, provided := accounts, registry := registry),
                   Seats(cfg, committee)))
  }

  /** `pallet_session`: the queued validators become active and `new_session` fills the queue. */
  function RotateSession(cfg: Config, s: State): Option<State> {
    var active := s.(validators := QueuedAccounts(s.queued), sessionIndex := s.sessionIndex + 1);
    match NewSession(cfg, active)
    case None => None
    case Some((s', upcoming)) => Some(s'.(queued := WithKeys(upcoming, s'.registry.keys)))
  }

  /** Block initialisation: this pallet first, then `pallet_session`. */
  function BeginBlock(cfg: Config, s: State, epoch: nat): Option<State> {
    var s1 := OnInitialize(s, epoch);
    var s2 := s1.(stage := StageAfterCheck(s1));
    if SessionEnds(s1) then RotateSession(cfg, s2) else Some(s2)
  }

  function CreateInherent(cfg: Config, s: State, inputs: SelectionInputs): Option<SetCall> {
    if s.next.Some? then None
    else
      var forEpoch := s.current.epoch + 1;
      match cfg.selectAuthorities(inputs, forEpoch)
      case Some(validators) => Some(SetCall(validators, forEpoch, cfg.hashOf(inputs)))
      case None => Some(SetCall(s.current.committee, forEpoch, cfg.hashOf(inputs)))
  }

  /** Runs on the parent state, before the block is initialised. `None` means the call is accepted. */
  function CheckInherent(cfg: Config, s: State, call: SetCall, inputs: SelectionInputs): Option<InherentError> {
    var expected :=
      match cfg.selectAuthorities(inputs, call.forEpoch)
      case Some(validators) => validators
      case None => if s.next.Some? then s.next.value.committee else s.current.committee;
    if call.validators == expected then None
    else if call.inputsHash == cfg.hashOf(inputs) then Some(InvalidValidatorsMatchingHash(cfg.hashOf(inputs)))
    else Some(InvalidValidatorsHashMismatch(cfg.hashOf(inputs), call.inputsHash))
  }

  predicate InherentRequired(s: State) {
    s.next.None?
  }

  /** Dispatch of the `set` inherent. */
  function Set(s: State, call: SetCall): Result<State, DispatchError> {
    if call.forEpoch != s.current.epoch + 1 then Err(InvalidEpoch)
    else if s.next.Some? then Err(NextCommitteeAlreadySet)
    else Ok(s.(next := Some(CommitteeInfo(call.forEpoch, call.validators))))
  }

  /** A whole block; a failing mandatory inherent or a panic makes it unexecutable. */
  function ExecuteBlock(cfg: Config, s: State, epoch: nat, call: Option<SetCall>): Option<State> {
    match BeginBlock(cfg, s, epoch)
    case None => None
    case Some(s') =>
      if call.None? then Some(s')
      else match Set(s', call.value)
           case Ok(s'') => Some(s'')
           case Err(_) => None
  }

  function NextUnsetEpoch(s: State): nat {
    if s.next.Some? then s.next.value.epoch + 1 else s.current.epoch + 1
  }
}
