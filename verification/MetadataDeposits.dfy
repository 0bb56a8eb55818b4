/** Deposits held for block producer metadata. */
module MetadataDeposits {
  import opened Prelude
  import opened Collections

  type KeyHash(==, !new)
  type AccountId(==, !new)
  type Metadata(==, !new)

  datatype Entry = Entry(metadata: Metadata, owner: AccountId, deposit: nat)

  /** Free balance, and balance on hold for metadata deposits. */
  datatype Balance = Balance(free: nat, held: nat)

  datatype State = State(entries: map<KeyHash, Entry>, balances: map<AccountId, Balance>)

  datatype Error = PastValidityTime | InvalidMainchainSignature | NotTheOwner | InsufficientBalance

  /** A signed call, with what the runtime contributes: whether the signature verifies for the call's own arguments and
      origin, the current time, the configured deposit and how much of the caller's free balance may be held. */
  datatype Call = Call(
    origin: AccountId,
    key: KeyHash,
    metadata: Option<Metadata>,  // `None` deletes the entry
    signatureValid: bool,
    validBefore: nat,
    now: nat,
    holdAmount: nat,
    usable: nat)

  function BalanceOf(s: State, a: AccountId): Balance {
    if a in s.balances then s.balances[a] else Balance(0, 0)
  }

  function Hold(s: State, a: AccountId, amount: nat): State
    requires amount <= BalanceOf(s, a).free
  {
    var b := BalanceOf(s, a);
    s.(balances := s.balances[a := Balance(b.free - amount, b.held + amount)])
  }

  /** Best-effort release: no more than what is held. */
  function Released(s: State, a: AccountId, amount: nat): nat {
    var held := BalanceOf(s, a).held;
    if amount <= held then amount else held
  }

  function Release(s: State, a: AccountId, amount: nat): State {
    var b := BalanceOf(s, a);
    var released := Released(s, a, amount);
    s.(balances := s.balances[a := Balance(b.free + released, b.held - released)])
  }

  function Upsert(s: State, call: Call, metadata: Metadata): Result<State, Error> {
    if call.key !in s.entries then
      if call.holdAmount > call.usable || call.holdAmount > BalanceOf(s, call.origin).free then Err(InsufficientBalance)
      else
        var s' := Hold(s, call.origin, call.holdAmount);
        Ok(s'.(entries := s'.entries[call.key := Entry(metadata, call.origin, call.holdAmount)]))
    else
      var e := s.entries[call.key];
      if e.owner != call.origin then Err(NotTheOwner)
      else Ok(s.(entries := s.entries[call.key := e.(metadata := metadata)]))
  }

  function Delete(s: State, call: Call): Result<State, Error> {
    if call.key !in s.entries then Ok(s)
    else
      var e := s.entries[call.key];
      if e.owner != call.origin then Err(NotTheOwner)
      else
        var s' := Release(s, e.owner, e.deposit);
        Ok(s'.(entries := s'.entries - {call.key}))
  }

  function Dispatch(s: State, call: Call): Result<State, Error> {
    if call.now > call.validBefore then Err(PastValidityTime)
    else if !call.signatureValid then Err(InvalidMainchainSignature)
    else if call.metadata.Some? then Upsert(s, call, call.metadata.value)
    else Delete(s, call)
  }

  // ---------------------------------------------------------------- storage

  class Pallet {
    var entries: map<KeyHash, Entry>
    var balances: map<AccountId, Balance>

    function View(): State
      reads this
    {
      State(entries, balances)
    }

    constructor (balances: map<AccountId, Balance>)
      ensures View() == State(map[], balances)
    {
      entries := map[];
      this.balances := balances;
    }

    method HoldDeposit(account: AccountId, amount: nat, usable: nat) returns (ok: bool)
      modifies this`balances
      ensures ok == (amount <= usable && amount <= BalanceOf(old(View()), account).free)
      ensures View() == if ok then Hold(old(View()), account, amount) else old(View())
    {
      var b := BalanceOf(View(), account);
      ok := amount <= usable && amount <= b.free;
      if ok {
        balances := balances[account := Balance(b.free - amount, b.held + amount)];
      }
    }

    method ReleaseDeposit(depositor: AccountId, amount: nat)
      modifies this`balances
      ensures View() == Release(old(View()), depositor, amount)
    {
      var b := BalanceOf(View(), depositor);
      var released := if amount <= b.held then amount else b.held;
      balances := balances[depositor := Balance(b.free + released, b.held - released)];
    }

    method UpsertMetadata(call: Call) returns (error: Option<Error>)
      requires call.metadata.Some?
      modifies this
      ensures error.None? ==> Dispatch(old(View()), call) == Ok(View())
      ensures error.Some? ==> Dispatch(old(View()), call) == Err(error.value) && View() == old(View())
    {
      if call.now > call.validBefore {
        return Some(PastValidityTime);
      }
      if !call.signatureValid {
        return Some(InvalidMainchainSignature);
      }
      if call.key !in entries {
        var ok := HoldDeposit(call.origin, call.holdAmount, call.usable);
        if !ok {
          return Some(InsufficientBalance);
        }
        entries := entries[call.key := Entry(call.metadata.value, call.origin, call.holdAmount)];
      } else {
        var e := entries[call.key];
        if e.owner != call.origin {
          return Some(NotTheOwner);
        }
        entries := entries[call.key := Entry(call.metadata.value, e.owner, e.deposit)];
      }
      return None;
    }

    method DeleteMetadata(call: Call) returns (error: Option<Error>)
      requires call.metadata.None?
      modifies this
      ensures error.None? ==> Dispatch(old(View()), call) == Ok(View())
      ensures error.Some? ==> Dispatch(old(View()), call) == Err(error.value) && View() == old(View())
    {
      if call.now > call.validBefore {
        return Some(PastValidityTime);
      }
      if !call.signatureValid {
        return Some(InvalidMainchainSignature);
      }
      if call.key in entries {
        var e := entries[call.key];
        if e.owner != call.origin {
          return Some(NotTheOwner);
        }
        ReleaseDeposit(e.owner, e.deposit);
        entries := entries - {call.key};
      }
      return None;
    }
  }

  // ---------------------------------------------------------------- conservation

  /** Deposits of the entries owned by an account. */
  ghost function OwnedDeposits(s: State, a: AccountId): map<KeyHash, nat> {
    map k | k in s.entries && s.entries[k].owner == a :: s.entries[k].deposit
  }

  /** Everything an account has on hold is backed by the entries it owns, to the unit. */
  ghost predicate Backed(s: State) {
    forall a: AccountId :: BalanceOf(s, a).held == Sum(OwnedDeposits(s, a))
  }

  lemma DepositsAfterInsert(s: State, k: KeyHash, e: Entry, a: AccountId)
    requires k in s.entries ==> s.entries[k].owner == e.owner && s.entries[k].deposit == e.deposit
    ensures
      var s' := s.(entries := s.entries[k := e]);
      Sum(OwnedDeposits(s', a)) ==
      Sum(OwnedDeposits(s, a)) + (if e.owner == a && k !in s.entries then e.deposit else 0)
  {
    var s' := s.(entries := s.entries[k := e]);
    if e.owner == a {
      assert OwnedDeposits(s', a) == OwnedDeposits(s, a)[k := e.deposit];
      SumUpdate(OwnedDeposits(s, a), k, e.deposit);
    } else {
      assert OwnedDeposits(s', a) == OwnedDeposits(s, a);
    }
  }

  lemma DepositsAfterRemove(s: State, k: KeyHash, a: AccountId)
    requires k in s.entries
    ensures
      var s' := s.(entries := s.entries - {k});
      Sum(OwnedDeposits(s', a)) ==
      Sum(OwnedDeposits(s, a)) - (if s.entries[k].owner == a then s.entries[k].deposit else 0)
  {
    var s' := s.(entries := s.entries - {k});
    assert OwnedDeposits(s', a) == OwnedDeposits(s, a) - {k};
    SumRemove(OwnedDeposits(s, a), k);
  }

  /** An account never has less on hold than one of its deposits, so a best-effort release releases it in full. */
  lemma ReleaseIsFull(s: State, k: KeyHash)
    requires Backed(s) && k in s.entries
    ensures Released(s, s.entries[k].owner, s.entries[k].deposit) == s.entries[k].deposit
  {
    SumTake(OwnedDeposits(s, s.entries[k].owner), k);
  }

  lemma DispatchKeepsBacked(s: State, call: Call)
    requires Backed(s) && Dispatch(s, call).Ok?
    ensures Backed(Dispatch(s, call).value)
  {
    var s' := Dispatch(s, call).value;
    forall a: AccountId ensures BalanceOf(s', a).held == Sum(OwnedDeposits(s', a)) {
      if call.metadata.Some? {
        DepositsAfterInsert(s, call.key, s'.entries[call.key], a);
        assert OwnedDeposits(s', a) == OwnedDeposits(s.(entries := s'.entries), a);
      } else if call.key in s.entries {
        ReleaseIsFull(s, call.key);
        DepositsAfterRemove(s, call.key, a);
        assert OwnedDeposits(s', a) == OwnedDeposits(s.(entries := s'.entries), a);
      }
    }
  }

  /** A call moves funds only between the caller's free balance and its hold: by the deposit when an entry is created
      or removed, and not at all otherwise. */
  lemma DispatchConservesFunds(s: State, call: Call, a: AccountId)
    requires Backed(s) && Dispatch(s, call).Ok?
    ensures
      var s' := Dispatch(s, call).value;
      && BalanceOf(s', a).free + BalanceOf(s', a).held == BalanceOf(s, a).free + BalanceOf(s, a).held
      && (BalanceOf(s', a) != BalanceOf(s, a) ==> a == call.origin)
      && (a == call.origin ==>
            BalanceOf(s', a).held == BalanceOf(s, a).held
              + (if call.key in s'.entries && call.key !in s.entries then s'.entries[call.key].deposit else 0)
              - (if call.key in s.entries && call.key !in s'.entries then s.entries[call.key].deposit else 0))
  {
    if call.key in s.entries {
      ReleaseIsFull(s, call.key);
    }
  }

  /** A call touches only its own entry, and never changes the owner or the deposit of an entry that stays. */
  lemma OwnerOnlyChangesByReinsertion(s: State, call: Call, k: KeyHash)
    requires Dispatch(s, call).Ok?
    ensures
      var s' := Dispatch(s, call).value;
      && (k in s.entries && k in s'.entries ==>
            s'.entries[k].owner == s.entries[k].owner && s'.entries[k].deposit == s.entries[k].deposit)
      && (k != call.key ==> (k in s.entries <==> k in s'.entries) && (k in s.entries ==> s'.entries[k] == s.entries[k]))
      && (k in s.entries && (k !in s'.entries || s'.entries[k] != s.entries[k]) ==> s.entries[k].owner == call.origin)
  {
  }

  /** A call is accepted exactly when it is in time, signed, made by the owner if there is one, and paid for if it
      creates an entry; an expired call is reported before a wrong signature, and both before anything is looked up. */
  lemma AcceptedIff(s: State, call: Call)
    ensures
      var r := Dispatch(s, call);
      var creates := call.metadata.Some? && call.key !in s.entries;
      && (r.Ok? <==> && call.signatureValid && call.now <= call.validBefore
                     && (call.key in s.entries ==> s.entries[call.key].owner == call.origin)
                     && (creates ==> call.holdAmount <= Min(call.usable, BalanceOf(s, call.origin).free)))
      && (r == Err(PastValidityTime) <==> call.validBefore < call.now)
      && (r == Err(InvalidMainchainSignature) <==> !call.signatureValid && call.now <= call.validBefore)
      && (r == Err(NotTheOwner) ==> call.key in s.entries && s.entries[call.key].owner != call.origin)
      && (r == Err(InsufficientBalance) ==>
            creates && call.holdAmount > Min(call.usable, BalanceOf(s, call.origin).free))
  {
  }

  /** What an accepted call leaves behind: a created entry belongs to the caller and carries the configured deposit,
      which is then on hold; an updated one changes its metadata only; a deleted one is gone and its deposit is free
      again. */
  lemma AcceptedCallStores(s: State, call: Call)
    requires Backed(s) && Dispatch(s, call).Ok?
    ensures
      var s' := Dispatch(s, call).value;
      var b, b' := BalanceOf(s, call.origin), BalanceOf(s', call.origin);
      if call.metadata.None? then
        && s'.entries == s.entries - {call.key}
        && (call.key in s.entries ==> b'.free == b.free + s.entries[call.key].deposit)
      else if call.key in s.entries then
        && s'.entries == s.entries[call.key := s.entries[call.key].(metadata := call.metadata.value)] && b' == b
      else
        && s'.entries == s.entries[call.key := Entry(call.metadata.value, call.origin, call.holdAmount)]
        && b'.held == b.held + call.holdAmount && b'.free == b.free - call.holdAmount
  {
    if call.metadata.None? {
      if call.key in s.entries {
        ReleaseIsFull(s, call.key);
      } else {
        assert s.entries - {call.key} == s.entries;
      }
    }
  }

  // ---------------------------------------------------------------- runs

  /** Calls to the pallet, failed ones included, and changes of free balances by the rest of the runtime. */
  datatype Event = Called(call: Call) | FreeChanged(account: AccountId, free: nat)

  function Apply(s: State, event: Event): State {
    match event
    case Called(call) => (match Dispatch(s, call) case Ok(s') => s' case Err(_) => s)
    case FreeChanged(a, free) => s.(balances := s.balances[a := BalanceOf(s, a).(free := free)])
  }

  function ApplyAll(s: State, events: seq<Event>): State {
    if |events| == 0 then s else Apply(ApplyAll(s, events[..|events| - 1]), events[|events| - 1])
  }

  /** Over every run, each account's hold equals the deposits of the entries it owns, and deleting any entry would
      return its deposit in full. */
  lemma {:induction false} DepositsStayBacked(s: State, events: seq<Event>)
    requires Backed(s)
    ensures Backed(ApplyAll(s, events))
    ensures forall k :: k in ApplyAll(s, events).entries ==>
              var e := ApplyAll(s, events).entries[k];
              Released(ApplyAll(s, events), e.owner, e.deposit) == e.deposit
  {
    if |events| > 0 {
      var n := |events| - 1;
      DepositsStayBacked(s, events[..n]);
      var before := ApplyAll(s, events[..n]);
      match events[n] {
        case Called(call) =>
          if Dispatch(before, call).Ok? {
            DispatchKeepsBacked(before, call);
          }
        case FreeChanged(a, free) =>
          forall b: AccountId ensures OwnedDeposits(Apply(before, events[n]), b) == OwnedDeposits(before, b) {
          }
      }
    }
    var after := ApplyAll(s, events);
    forall k | k in after.entries
      ensures Released(after, after.entries[k].owner, after.entries[k].deposit) == after.entries[k].deposit
    {
      ReleaseIsFull(after, k);
    }
  }

  function Funds(s: State, a: AccountId): nat {
    BalanceOf(s, a).free + BalanceOf(s, a).held
  }

  /** By how much the rest of the runtime changed the free balance of an account over a run. */
  function ExternalChange(s: State, events: seq<Event>, a: AccountId): int {
    if |events| == 0 then 0
    else
      var n := |events| - 1;
      ExternalChange(s, events[..n], a) +
      match events[n]
      case Called(_) => 0
      case FreeChanged(b, free) => if a == b then free - BalanceOf(ApplyAll(s, events[..n]), a).free else 0
  }

  lemma {:induction false} CallsChangeNothingElse(s: State, events: seq<Event>, a: AccountId)
    requires forall i :: 0 <= i < |events| ==> events[i].Called?
    ensures ExternalChange(s, events, a) == 0
  {
    if |events| > 0 {
      CallsChangeNothingElse(s, events[..|events| - 1], a);
    }
  }

  /** Over every run, free plus held of each account changes by exactly what the rest of the runtime changed: a run of
      calls alone, failed ones included, keeps it constant. */
  lemma {:induction false} RunConservesFunds(s: State, events: seq<Event>, a: AccountId)
    requires Backed(s)
    ensures Funds(ApplyAll(s, events), a) == Funds(s, a) + ExternalChange(s, events, a)
    ensures (forall i :: 0 <= i < |events| ==> events[i].Called?) ==> Funds(ApplyAll(s, events), a) == Funds(s, a)
  {
    if |events| > 0 {
      var n := |events| - 1;
      RunConservesFunds(s, events[..n], a);
      DepositsStayBacked(s, events[..n]);
      var before := ApplyAll(s, events[..n]);
      if events[n].Called? && Dispatch(before, events[n].call).Ok? {
        DispatchConservesFunds(before, events[n].call, a);
      }
    }
    if forall i :: 0 <= i < |events| ==> events[i].Called? {
      CallsChangeNothingElse(s, events, a);
    }
  }

  /** Undoing an insertion restores every balance. */
  lemma DeleteUndoesInsert(s: State, insert: Call, delete: Call)
    requires Backed(s) && insert.metadata.Some? && insert.key !in s.entries && Dispatch(s, insert).Ok?
    requires delete.metadata.None? && delete.key == insert.key && delete.origin == insert.origin
    requires delete.signatureValid && delete.now <= delete.validBefore
    ensures
      var s1 := Dispatch(s, insert).value;
      var s2 := Dispatch(s1, delete);
      && s2.Ok?
      && s2.value.entries == s.entries
      && forall a: AccountId :: BalanceOf(s2.value, a) == BalanceOf(s, a)
  {
    DispatchKeepsBacked(s, insert);
    ReleaseIsFull(Dispatch(s, insert).value, insert.key);
  }

  function MetadataAt(s: State, k: KeyHash): Option<Metadata> {
    if k in s.entries then Some(s.entries[k].metadata) else None
  }

  /** What the last accepted call for a key asked for, if there was one; `Some(None)` is a deletion. */
  function LastAccepted(s: State, events: seq<Event>, k: KeyHash): Option<Option<Metadata>> {
    if |events| == 0 then None
    else
      var n := |events| - 1;
      if events[n].Called? && events[n].call.key == k && Dispatch(ApplyAll(s, events[..n]), events[n].call).Ok?
      then Some(events[n].call.metadata)
      else LastAccepted(s, events[..n], k)
  }

  /** Over every run a key stores what its last accepted call asked for, and what it stored at first if there was
      none. */
  lemma {:induction false} LastAcceptedIsStored(s: State, events: seq<Event>, k: KeyHash)
    ensures
      MetadataAt(ApplyAll(s, events), k) ==
      if LastAccepted(s, events, k).Some? then LastAccepted(s, events, k).value else MetadataAt(s, k)
  {
    if |events| > 0 {
      LastAcceptedIsStored(s, events[..|events| - 1], k);
    }
  }
}
